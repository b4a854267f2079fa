// The web client's protocol constants and HID lookup tables
// (pwa/src/ble/constants.ts). KeyMap holds usages of the Keyboard/Keypad
// Page (0x07, chapter 10 of the USB HID Usage Tables) and MediaMap the low
// byte of usages of the Consumer Page (0x0C, chapter 15).
module ClientConstants {
  import opened Bytes

  const MagicByte1: byte := 0xAD
  const MagicByte2: byte := 0xDC
  const ProtocolVersion: nat := 1

  // COMMANDS
  const CmdGetInfo: byte := 0x10
  const CmdGetConfig: byte := 0x20
  const CmdSetConfig: byte := 0x21
  const CmdResetConfig: byte := 0x22
  const CmdGetButton: byte := 0x30
  const CmdSetButton: byte := 0x31
  const CmdTestButton: byte := 0x40
  const CmdRestart: byte := 0x50
  const CmdAck: byte := 0xA0
  const CmdNack: byte := 0xA1

  // ERRORS: the client names only four codes.
  const ErrNone: byte := 0x00
  const ErrInvalidCmd: byte := 0x01
  const ErrInvalidParam: byte := 0x02
  const ErrChecksum: byte := 0x03

  // ACTION_TYPES
  const ActionNone: byte := 0x00
  const ActionKey: byte := 0x01
  const ActionMedia: byte := 0x02
  const ActionMacro: byte := 0x03
  const ActionCustom: byte := 0x04

  /** KEY_MAP: keyboard usage -> key name, entry for entry. */
  function KeyMap(code: byte): Option<string>
  {
    match code
    case 0x04 => Some("A") case 0x05 => Some("B") case 0x06 => Some("C")
    case 0x07 => Some("D") case 0x08 => Some("E") case 0x09 => Some("F")
    case 0x0A => Some("G") case 0x0B => Some("H") case 0x0C => Some("I")
    case 0x0D => Some("J") case 0x0E => Some("K") case 0x0F => Some("L")
    case 0x10 => Some("M") case 0x11 => Some("N") case 0x12 => Some("O")
    case 0x13 => Some("P") case 0x14 => Some("Q") case 0x15 => Some("R")
    case 0x16 => Some("S") case 0x17 => Some("T") case 0x18 => Some("U")
    case 0x19 => Some("V") case 0x1A => Some("W") case 0x1B => Some("X")
    case 0x1C => Some("Y") case 0x1D => Some("Z") case 0x1E => Some("1")
    case 0x1F => Some("2") case 0x20 => Some("3") case 0x21 => Some("4")
    case 0x22 => Some("5") case 0x23 => Some("6") case 0x24 => Some("7")
    case 0x25 => Some("8") case 0x26 => Some("9") case 0x27 => Some("0")
    case 0x28 => Some("ENTER") case 0x29 => Some("ESCAPE")
    case 0x2A => Some("BACKSPACE") case 0x2B => Some("TAB")
    case 0x2C => Some("SPACE") case 0x39 => Some("CAPS_LOCK")
    case 0x3A => Some("F1") case 0x3B => Some("F2") case 0x3C => Some("F3")
    case 0x3D => Some("F4") case 0x3E => Some("F5") case 0x3F => Some("F6")
    case 0x40 => Some("F7") case 0x41 => Some("F8") case 0x42 => Some("F9")
    case 0x43 => Some("F10") case 0x44 => Some("F11") case 0x45 => Some("F12")
    case 0x74 => Some("F13") case 0x75 => Some("F14") case 0x76 => Some("F15")
    case 0x77 => Some("F16") case 0x78 => Some("F17") case 0x79 => Some("F18")
    case 0x7A => Some("F19") case 0x6F => Some("F20") case 0x70 => Some("F21")
    case 0x71 => Some("F22") case 0x72 => Some("F23") case 0x73 => Some("F24")
    case 0x4F => Some("RIGHT") case 0x50 => Some("LEFT")
    case 0x51 => Some("DOWN") case 0x52 => Some("UP")
    case _ => None
  }

  /** MEDIA_MAP: consumer usage (low byte) -> action name. */
  function MediaMap(code: byte): Option<string>
  {
    match code
    case 0xCD => Some("MEDIA_PLAY_PAUSE")
    case 0xB5 => Some("MEDIA_NEXT")
    case 0xB6 => Some("MEDIA_PREV")
    case 0xB7 => Some("MEDIA_STOP")
    case 0xE9 => Some("VOLUME_UP")
    case 0xEA => Some("VOLUME_DOWN")
    case 0xE2 => Some("VOLUME_MUTE")
    case 0x6F => Some("BRIGHTNESS_UP")
    case 0x70 => Some("BRIGHTNESS_DOWN")
    case _ => None
  }

  // A name's code recovered from the shape of the name, used only to show
  // that KeyMap gives every code a different name.
  ghost function DigitValue(ch: char): int
  {
    ch as int - '0' as int
  }

  ghost function ParseDecimal(s: string): int
  {
    if |s| == 1 && '0' <= s[0] <= '9' then DigitValue(s[0])
    else if |s| == 2 && '1' <= s[0] <= '9' && '0' <= s[1] <= '9' then 10 * DigitValue(s[0]) + DigitValue(s[1])
    else -1
  }

  ghost function FunctionKeyCode(k: int): int
  {
    if 1 <= k <= 12 then 0x39 + k
    else if 13 <= k <= 19 then 0x74 + k - 13
    else if 20 <= k <= 24 then 0x6F + k - 20
    else -1
  }

  ghost function NamedKeyCode(n: string): int
  {
    match n
    case "ENTER" => 0x28 case "ESCAPE" => 0x29 case "BACKSPACE" => 0x2A
    case "TAB" => 0x2B case "SPACE" => 0x2C case "CAPS_LOCK" => 0x39
    case "RIGHT" => 0x4F case "LEFT" => 0x50 case "DOWN" => 0x51 case "UP" => 0x52
    case _ => -1
  }

  ghost function KeyCodeOfName(n: string): int
  {
    if |n| == 1 && 'A' <= n[0] <= 'Z' then 0x04 + n[0] as int - 'A' as int
    else if |n| == 1 && '1' <= n[0] <= '9' then 0x1E + n[0] as int - '1' as int
    else if n == "0" then 0x27
    else if |n| >= 2 && n[0] == 'F' && FunctionKeyCode(ParseDecimal(n[1..])) != -1 then
      FunctionKeyCode(ParseDecimal(n[1..]))
    else NamedKeyCode(n)
  }

  ghost function MediaCodeOfName(n: string): int
  {
    match n
    case "MEDIA_PLAY_PAUSE" => 0xCD case "MEDIA_NEXT" => 0xB5 case "MEDIA_PREV" => 0xB6
    case "MEDIA_STOP" => 0xB7 case "VOLUME_UP" => 0xE9 case "VOLUME_DOWN" => 0xEA
    case "VOLUME_MUTE" => 0xE2 case "BRIGHTNESS_UP" => 0x6F case "BRIGHTNESS_DOWN" => 0x70
    case _ => -1
  }

  /** Every KEY_MAP name determines its code. */
  lemma KeyNameDeterminesCode(c: byte)
    requires KeyMap(c).Some?
    ensures KeyCodeOfName(KeyMap(c).value) == c
  {
    if c < 0x1E {
      LetterKeyNames(c);
    } else if c < 0x28 {
      DigitKeyNames(c);
    } else if c < 0x3A {
      NamedKeyNames(c);
    } else if c < 0x46 {
      LowFunctionKeyNames(c);
    } else if c < 0x6F {
      ArrowKeyNames(c);
    } else {
      HighFunctionKeyNames(c);
    }
  }

  /** KeyNameDeterminesCode for letters. */
  lemma LetterKeyNames(c: byte)
    requires 0x04 <= c < 0x1E && KeyMap(c).Some?
    ensures KeyCodeOfName(KeyMap(c).value) == c
  {
  }

  /** KeyNameDeterminesCode for digits. */
  lemma DigitKeyNames(c: byte)
    requires 0x1E <= c < 0x28 && KeyMap(c).Some?
    ensures KeyCodeOfName(KeyMap(c).value) == c
  {
  }

  /** KeyNameDeterminesCode for Enter to Caps Lock. */
  lemma NamedKeyNames(c: byte)
    requires 0x28 <= c < 0x3A && KeyMap(c).Some?
    ensures KeyCodeOfName(KeyMap(c).value) == c
  {
  }

  /** KeyNameDeterminesCode for F1 to F12. */
  lemma LowFunctionKeyNames(c: byte)
    requires 0x3A <= c < 0x46 && KeyMap(c).Some?
    ensures KeyCodeOfName(KeyMap(c).value) == c
  {
  }

  /** KeyNameDeterminesCode for the arrows. */
  lemma ArrowKeyNames(c: byte)
    requires 0x46 <= c < 0x6F && KeyMap(c).Some?
    ensures KeyCodeOfName(KeyMap(c).value) == c
  {
  }

  /** KeyNameDeterminesCode for F13 to F24. */
  lemma HighFunctionKeyNames(c: byte)
    requires 0x6F <= c && KeyMap(c).Some?
    ensures KeyCodeOfName(KeyMap(c).value) == c
  {
  }

  /** KEY_MAP names are pairwise distinct. */
  lemma KeyMapInjective()
    ensures forall c1: byte, c2: byte :: KeyMap(c1).Some? && KeyMap(c1) == KeyMap(c2) ==> c1 == c2
  {
    forall c1: byte, c2: byte | KeyMap(c1).Some? && KeyMap(c1) == KeyMap(c2)
      ensures c1 == c2
    {
      KeyNameDeterminesCode(c1);
      KeyNameDeterminesCode(c2);
    }
  }

  /** MEDIA_MAP names are pairwise distinct. */
  lemma MediaMapInjective()
    ensures forall c1: byte, c2: byte :: MediaMap(c1).Some? && MediaMap(c1) == MediaMap(c2) ==> c1 == c2
  {
    forall c1: byte, c2: byte | MediaMap(c1).Some? && MediaMap(c1) == MediaMap(c2)
      ensures c1 == c2
    {
      assert MediaCodeOfName(MediaMap(c1).value) == c1;
      assert MediaCodeOfName(MediaMap(c2).value) == c2;
    }
  }

  /** KEY_REVERSE_MAP: every KEY_MAP name mapped back to its code. */
  function KeyReverseMap(): map<string, byte>
  {
    KeyMapInjective();
    map c: int | 0 <= c < 256 && KeyMap(c).Some? :: KeyMap(c).value := c
  }

  /** MEDIA_REVERSE_MAP. */
  function MediaReverseMap(): map<string, byte>
  {
    MediaMapInjective();
    map c: int | 0 <= c < 256 && MediaMap(c).Some? :: MediaMap(c).value := c
  }

  /** KEY_REVERSE_MAP and KEY_MAP are inverse bijections between codes and names. */
  lemma KeyReverseMapInverts(c: byte, n: string)
    ensures KeyMap(c) == Some(n) <==> (n in KeyReverseMap() && KeyReverseMap()[n] == c)
  {
    KeyMapInjective();
    if KeyMap(c) == Some(n) {
      assert KeyMap(c).value in KeyReverseMap();
    }
  }

  /** MEDIA_REVERSE_MAP and MEDIA_MAP are inverse bijections between codes and names. */
  lemma MediaReverseMapInverts(c: byte, n: string)
    ensures MediaMap(c) == Some(n) <==> (n in MediaReverseMap() && MediaReverseMap()[n] == c)
  {
    MediaMapInjective();
    if MediaMap(c) == Some(n) {
      assert MediaMap(c).value in MediaReverseMap();
    }
  }

  /**
   * Codes 0x6F and 0x70 name F20/F21 as keys and BRIGHTNESS_UP/DOWN as media
   * actions, so a stored button needs its action type to be read back.
   */
  lemma SharedCodes(c: byte)
    ensures (KeyMap(c).Some? && MediaMap(c).Some?) <==> c in {0x6F, 0x70}
  {
  }
}
