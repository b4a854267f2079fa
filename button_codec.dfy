// The web client's 16-byte button record codec (pwa/src/ble/utils.ts):
//   [index, action type, key code, modifier, r, g, b, reserved, label[8]]
module ButtonCodec {
  import opened Bytes
  import opened ClientConstants
  import opened JsText

  /** ButtonConfig of the client; `caption` is its `label` field (a reserved word in Dafny). */
  datatype ButtonConfig = ButtonConfig(id: int, caption: string, action: string, color: string, isDirty: bool)

  const DefaultColor: string := "#607D8B"

  function DefaultLabel(id: int): string
  {
    "Button " + IntToString(id + 1)
  }

  /** createEmptyButton(id). */
  function CreateEmptyButton(id: int): (b: ButtonConfig)
    ensures b.id == id && b.action == "" && !b.isDirty
  {
    ButtonConfig(id, DefaultLabel(id), "", DefaultColor, false)
  }

  /** getKeyName: the KEY_MAP name, or 0x followed by upper-case hex digits. */
  function GetKeyName(code: byte): string
  {
    match KeyMap(code)
    case Some(name) => name
    case None => "0x" + HexUpper(code)
  }

  /** getMediaActionName: the MEDIA_MAP name, or MEDIA_0x followed by upper-case hex digits. */
  function GetMediaActionName(code: byte): string
  {
    match MediaMap(code)
    case Some(name) => name
    case None => "MEDIA_0x" + HexUpper(code)
  }

  /** The label loop: bytes up to the first NUL, each read as the character with that code. */
  function DecodeLabel(bytes: seq<byte>): (s: string)
    ensures |s| <= |bytes|
    ensures forall i :: 0 <= i < |s| ==> bytes[i] != 0 && s[i] as int == bytes[i]
    ensures |s| < |bytes| ==> bytes[|s|] == 0
  {
    if bytes == [] || bytes[0] == 0 then [] else [bytes[0] as char] + DecodeLabel(bytes[1..])
  }

  /** The action string parseButtonData derives from the type and code bytes. */
  function ActionName(actionType: byte, code: byte): string
  {
    if actionType == ActionKey then "KEY_" + GetKeyName(code)
    else if actionType == ActionMedia then GetMediaActionName(code)
    else if actionType == ActionMacro then "MACRO"
    else if actionType == ActionCustom then "CUSTOM"
    else "UNKNOWN"
  }

  function ColorString(r: byte, g: byte, b: byte): string
  {
    "#" + Hex2Lower(r) + Hex2Lower(g) + Hex2Lower(b)
  }

  /** parseButtonData(data, id). */
  function ParseButtonData(data: seq<byte>, id: int): (b: ButtonConfig)
    ensures b.id == id && !b.isDirty && b.caption != []
    ensures |data| < 16 ==> b == CreateEmptyButton(id)
    ensures |data| >= 16 ==> |b.color| == 7 && b.color[0] == '#'
    ensures |data| >= 16 ==> b.caption == DefaultLabel(id) || |b.caption| <= 8
  {
    if |data| < 16 then CreateEmptyButton(id)
    else
      var text := DecodeLabel(data[8..16]);
      ButtonConfig(id, if text == [] then DefaultLabel(id) else text,
                   ActionName(data[1], data[2]), ColorString(data[4], data[5], data[6]), false)
  }

  /** The mediaTerms test of buildButtonPayload. */
  predicate IsMediaAction(action: string)
  {
    action != [] &&
    (Includes(action, "MEDIA_") || Includes(action, "VOLUME_") || Includes(action, "BRIGHTNESS_")
     || Includes(action, "MUTE") || action == "MUTE")
  }

  /**
   * Names every object inherits from Object.prototype. Looking one of them
   * up in KEY_REVERSE_MAP yields a function or object, which is truthy, so
   * the `|| 0x04` fallback is skipped and the Uint8Array stores it as 0.
   */
  const InheritedNames: set<string> := {
    "constructor", "__proto__", "toString", "toLocaleString", "valueOf", "hasOwnProperty",
    "isPrototypeOf", "propertyIsEnumerable", "__defineGetter__", "__defineSetter__",
    "__lookupGetter__", "__lookupSetter__"}

  /** The action type and key code buildButtonPayload derives from an action string. */
  function ActionCode(action: string): (r: (byte, byte))
    ensures action == [] ==> r == (ActionNone, 0)
    ensures action != [] && IsMediaAction(action) ==> r.0 == ActionMedia
    ensures !IsMediaAction(action) && StartsWith(action, "KEY_") ==> r.0 == ActionKey
  {
    if action == [] then (ActionNone, 0)
    else if IsMediaAction(action) then
      var name := if action == "MUTE" then "VOLUME_MUTE" else action;
      (ActionMedia, if name in MediaReverseMap() then MediaReverseMap()[name] else 0xCD)
    else if StartsWith(action, "KEY_") then
      // replace('KEY_', '') removes the first occurrence, which is the prefix
      var name := action[4..];
      (ActionKey, if name in KeyReverseMap() then KeyReverseMap()[name]
                  else if name in InheritedNames then 0
                  else 0x04)
    else if action == "MACRO" then (ActionMacro, 0)
    else if action == "CUSTOM" then (ActionCustom, 0)
    else (ActionNone, 0)
  }

  /** One colour component: parseInt(colorHex.substr(start, 2), 16) stored into a Uint8Array. */
  function ColorComponent(colorHex: string, start: nat): byte
  {
    ToUint8(ParseIntHex(Substr2(colorHex, start)))
  }

  function Zeros(n: nat): (z: seq<byte>)
    ensures |z| == n && forall i :: 0 <= i < n ==> z[i] == 0
  {
    if n == 0 then [] else [0] + Zeros(n - 1)
  }

  /**
   * buildButtonPayload(button, index); None stands for the RangeError that
   * Uint8Array.set throws when the UTF-8 label is longer than 8 bytes.
   */
  function BuildButtonPayload(button: ButtonConfig, index: int): (r: Option<seq<byte>>)
    ensures r.Some? <==> |EncodeSlice(button.caption, 7)| <= 8
    ensures r.Some? ==> |r.value| == 16 && r.value[0] == index % 256 && r.value[3] == 0 && r.value[7] == 0
    ensures r.Some? ==> (r.value[1], r.value[2]) == ActionCode(button.action)
  {
    var colorHex := RemoveFirst(button.color, '#');
    var code := ActionCode(button.action);
    var encoded := EncodeSlice(button.caption, 7);
    if |encoded| > 8 then None
    else
      var slot: byte := (index % 256) as byte;
      var header: seq<byte> := [slot, code.0, code.1, 0,
                                ColorComponent(colorHex, 0), ColorComponent(colorHex, 2), ColorComponent(colorHex, 4), 0];
      Some(header + (encoded + Zeros(8 - |encoded|)))
  }
}

// ---------------------------------------------------------------------------
// Round trip: parseButtonData(buildButtonPayload(b, i), id) gives b back.

module ButtonCodecRoundTrip {
  import opened Bytes
  import opened ClientConstants
  import opened JsText
  import opened ButtonCodec

  /** A colour the payload encoder reads exactly: '#' followed by six hex digits. */
  predicate IsHexColor(color: string)
  {
    |color| == 7 && color[0] == '#' && forall i :: 1 <= i < 7 ==> IsHexDigit(color[i])
  }

  function LowerHex(s: string): (r: string)
    ensures |r| == |s|
  {
    seq(|s|, i requires 0 <= i < |s| => LowerHexChar(s[i]))
  }

  /** The actions that survive the round trip. */
  predicate RestorableAction(action: string)
  {
    (StartsWith(action, "KEY_") && action[4..] in KeyReverseMap())
    || action in MediaReverseMap()
    || action == "MACRO" || action == "CUSTOM"
  }

  predicate CharWithin(s: string, ch: char, limit: int)
  {
    exists i :: 0 <= i <= limit && i < |s| && s[i] == ch
  }

  lemma IncludesStartChar(s: string, t: string)
    requires |t| > 0 && Includes(s, t)
    ensures CharWithin(s, t[0], |s| - |t|)
  {
    var i :| 0 <= i <= |s| - |t| && OccursAt(s, t, i);
    assert s[i..i + |t|][0] == s[i];
  }

  predicate FreeOfMVB(n: string)
  {
    forall i :: 0 <= i < |n| ==> n[i] != 'M' && n[i] != 'V' && n[i] != 'B'
  }

  lemma KeyNameShape(c: byte)
    requires KeyMap(c).Some?
    ensures var n := KeyMap(c).value; |n| <= 3 || FreeOfMVB(n) || n == "BACKSPACE"
  {
    if 0x28 <= c < 0x3A || 0x4F <= c < 0x53 {
      LongKeyNames(c);
    } else {
      ShortKeyNames(c);
    }
  }

  /** The KEY_MAP names outside Enter..Caps Lock and the arrows have at most three characters. */
  lemma ShortKeyNames(c: byte)
    requires KeyMap(c).Some? && !(0x28 <= c < 0x3A || 0x4F <= c < 0x53)
    ensures |KeyMap(c).value| <= 3
  {
  }

  /** The names from Enter to Caps Lock and of the arrows longer than three characters, Backspace apart, have no M, V or B. */
  lemma LongKeyNames(c: byte)
    requires KeyMap(c).Some? && (0x28 <= c < 0x3A || 0x4F <= c < 0x53)
    ensures var n := KeyMap(c).value; |n| <= 3 || FreeOfMVB(n) || n == "BACKSPACE"
  {
    var n := KeyMap(c).value;
    if |n| > 3 && n != "BACKSPACE" {
      forall i | 0 <= i < |n| ensures n[i] != 'M' && n[i] != 'V' && n[i] != 'B' {
      }
    }
  }

  /** No KEY_ action built from a KEY_MAP name contains a media term, so the media test never captures it. */
  lemma NoKeyNameIsMedia(c: byte)
    requires KeyMap(c).Some?
    ensures !IsMediaAction("KEY_" + KeyMap(c).value)
  {
    var s := "KEY_" + KeyMap(c).value;
    KeyNameShape(c);
    forall t | t in ["MEDIA_", "VOLUME_", "BRIGHTNESS_", "MUTE"] ensures !Includes(s, t) {
      if Includes(s, t) {
        IncludesStartChar(s, t);
      }
    }
  }

  /** Every MEDIA_MAP name passes the media test through its own prefix. */
  lemma MediaNameIsMedia(c: byte)
    requires MediaMap(c).Some?
    ensures IsMediaAction(MediaMap(c).value) && MediaMap(c).value != "MUTE"
  {
    var n := MediaMap(c).value;
    if n[..6] == "MEDIA_" {
      assert OccursAt(n, "MEDIA_", 0);
    } else if n[..7] == "VOLUME_" {
      assert OccursAt(n, "VOLUME_", 0);
    } else {
      assert OccursAt(n, "BRIGHTNESS_", 0);
    }
  }

  lemma NotIncluded(s: string, t: string)
    requires |t| >= 2
    requires forall i :: 0 <= i <= |s| - |t| ==> s[i] != t[0] || s[i + 1] != t[1]
    ensures !Includes(s, t)
  {
    forall i | 0 <= i <= |s| - |t| ensures !OccursAt(s, t, i) {
      if OccursAt(s, t, i) {
        OccursAtStart(s, t, i);
      }
    }
  }

  lemma OccursAtStart(s: string, t: string, i: nat)
    requires |t| >= 2 && OccursAt(s, t, i)
    ensures s[i] == t[0] && s[i + 1] == t[1]
  {
    assert s[i..i + |t|][0] == s[i] && s[i..i + |t|][1] == s[i + 1];
  }

  lemma PlainActionsAreNotMedia()
    ensures !IsMediaAction("MACRO") && !IsMediaAction("CUSTOM")
  {
    NotIncluded("MACRO", "MUTE");
    NotIncluded("CUSTOM", "MUTE");
    NotIncluded("CUSTOM", "MEDIA_");
  }

  lemma KeyActionRoundTrip(action: string)
    requires StartsWith(action, "KEY_") && action[4..] in KeyReverseMap()
    ensures ActionName(ActionCode(action).0, ActionCode(action).1) == action
  {
    var name := action[4..];
    var c := KeyReverseMap()[name];
    KeyReverseMapInverts(c, name);
    assert action == "KEY_" + name;
    NoKeyNameIsMedia(c);
    assert ActionCode(action) == (ActionKey, c);
  }

  lemma MediaActionRoundTrip(action: string)
    requires action in MediaReverseMap()
    ensures ActionName(ActionCode(action).0, ActionCode(action).1) == action
  {
    var c := MediaReverseMap()[action];
    MediaReverseMapInverts(c, action);
    MediaNameIsMedia(c);
    assert ActionCode(action) == (ActionMedia, c);
  }

  /** The action string is recovered from the (type, code) pair it encodes to. */
  lemma ActionRoundTrip(action: string)
    requires RestorableAction(action)
    ensures ActionName(ActionCode(action).0, ActionCode(action).1) == action
  {
    if StartsWith(action, "KEY_") && action[4..] in KeyReverseMap() {
      KeyActionRoundTrip(action);
    } else if action in MediaReverseMap() {
      MediaActionRoundTrip(action);
    } else {
      PlainActionsAreNotMedia();
      assert !StartsWith(action, "KEY_") by {
        assert action[0] != 'K';
      }
    }
  }

  /** parseInt of two hex digits is their value. */
  lemma HexPairValue(c0: char, c1: char)
    requires IsHexDigit(c0) && IsHexDigit(c1)
    ensures ParseIntHex([c0, c1]) == Some(16 * HexValue(c0) + HexValue(c1))
  {
    var s := [c0, c1];
    assert !IsStrWhiteSpace(c0);
    assert StripHexPrefix(s) == s;
    assert s[1..] == [c1] && s[1..][1..] == [];
    assert HexRunValue([c1], HexValue(c0)) == 16 * HexValue(c0) + HexValue(c1);
  }

  /** Printing a hex digit's value gives the digit back, in lower case. */
  lemma HexDigitLowerOfValue(c: char)
    requires IsHexDigit(c)
    ensures HexDigitLower(HexValue(c)) == LowerHexChar(c)
  {
    if '0' <= c <= '9' {
      assert HexValue(c) < 10;
    }
  }

  /** toString(16).padStart(2, '0') after parseInt of two hex digits gives them back, in lower case. */
  lemma HexPairRoundTrip(c0: char, c1: char)
    requires IsHexDigit(c0) && IsHexDigit(c1)
    ensures ToUint8(ParseIntHex([c0, c1])) == 16 * HexValue(c0) + HexValue(c1)
    ensures Hex2Lower(16 * HexValue(c0) + HexValue(c1)) == [LowerHexChar(c0), LowerHexChar(c1)]
  {
    HexPairValue(c0, c1);
    var v: byte := 16 * HexValue(c0) + HexValue(c1);
    assert v / 16 == HexValue(c0) && v % 16 == HexValue(c1);
    HexDigitLowerOfValue(c0);
    HexDigitLowerOfValue(c1);
  }

  lemma ComponentRoundTrip(hex: string, start: nat)
    requires start + 2 <= |hex| && IsHexDigit(hex[start]) && IsHexDigit(hex[start + 1])
    ensures Hex2Lower(ColorComponent(hex, start)) == [LowerHexChar(hex[start]), LowerHexChar(hex[start + 1])]
  {
    assert Substr2(hex, start) == [hex[start], hex[start + 1]];
    HexPairRoundTrip(hex[start], hex[start + 1]);
  }

  lemma HashRemoved(color: string)
    requires |color| > 0 && color[0] == '#'
    ensures RemoveFirst(color, '#') == color[1..]
  {
    assert IndexOfChar(color, '#') == Some(0);
  }

  lemma LowerHexColor(color: string)
    requires IsHexColor(color)
    ensures LowerHex(color) == ['#'] + [LowerHexChar(color[1]), LowerHexChar(color[2])]
                                     + [LowerHexChar(color[3]), LowerHexChar(color[4])]
                                     + [LowerHexChar(color[5]), LowerHexChar(color[6])]
  {
  }

  lemma AssembleColor(r: byte, g: byte, b: byte, pr: string, pg: string, pb: string)
    requires Hex2Lower(r) == pr && Hex2Lower(g) == pg && Hex2Lower(b) == pb
    ensures ColorString(r, g, b) == ['#'] + pr + pg + pb
  {
  }

  lemma ColorRoundTrip(color: string)
    requires IsHexColor(color)
    ensures var hex := RemoveFirst(color, '#');
            ColorString(ColorComponent(hex, 0), ColorComponent(hex, 2), ColorComponent(hex, 4)) == LowerHex(color)
  {
    HashRemoved(color);
    var hex := color[1..];
    ComponentRoundTrip(hex, 0);
    ComponentRoundTrip(hex, 2);
    ComponentRoundTrip(hex, 4);
    LowerHexColor(color);
    AssembleColor(ColorComponent(hex, 0), ColorComponent(hex, 2), ColorComponent(hex, 4),
                  [LowerHexChar(color[1]), LowerHexChar(color[2])],
                  [LowerHexChar(color[3]), LowerHexChar(color[4])],
                  [LowerHexChar(color[5]), LowerHexChar(color[6])]);
  }

  lemma {:induction false} DecodePadded(caption: string, encoded: seq<byte>, pad: seq<byte>)
    requires IsAsciiText(caption) && |encoded| == |caption|
    requires forall i :: 0 <= i < |caption| ==> encoded[i] == caption[i] as int
    requires |pad| > 0 && pad[0] == 0
    ensures DecodeLabel(encoded + pad) == caption
  {
    if caption != [] {
      assert (encoded + pad)[1..] == encoded[1..] + pad;
      DecodePadded(caption[1..], encoded[1..], pad);
    }
  }

  lemma LabelRoundTrip(caption: string, p: seq<byte>)
    requires IsAsciiText(caption) && 1 <= |caption| <= 7
    requires |p| == 16 && p[8..16] == EncodeSlice(caption, 7) + Zeros(8 - |caption|)
    ensures DecodeLabel(p[8..16]) == caption
  {
    EncodeAscii(caption, 7);
    DecodePadded(caption, EncodeSlice(caption, 7), Zeros(8 - |caption|));
  }

  /**
   * parseButtonData(buildButtonPayload(b, i), id) restores a 1..7-character
   * ASCII label, the colour up to the case of its hex digits, and the action
   * when it is KEY_ plus a KEY_MAP name, a MEDIA_MAP name, MACRO or CUSTOM.
   */
  lemma ButtonRoundTrip(b: ButtonConfig, index: int, id: int)
    requires IsAsciiText(b.caption) && 1 <= |b.caption| <= 7
    requires IsHexColor(b.color)
    requires RestorableAction(b.action)
    ensures BuildButtonPayload(b, index).Some?
    ensures ParseButtonData(BuildButtonPayload(b, index).value, id)
            == ButtonConfig(id, b.caption, b.action, LowerHex(b.color), false)
  {
    EncodeAscii(b.caption, 7);
    PayloadFields(b, index);
    var p := BuildButtonPayload(b, index).value;
    LabelRoundTrip(b.caption, p);
    ColorRoundTrip(b.color);
    ActionRoundTrip(b.action);
    var text := DecodeLabel(p[8..16]);
    assert ParseButtonData(p, id)
           == ButtonConfig(id, text, ActionName(p[1], p[2]), ColorString(p[4], p[5], p[6]), false);
  }

  lemma PayloadFields(b: ButtonConfig, index: int)
    requires |EncodeSlice(b.caption, 7)| <= 8
    ensures var encoded := EncodeSlice(b.caption, 7);
            var hex := RemoveFirst(b.color, '#');
            var p := BuildButtonPayload(b, index).value;
            p[4] == ColorComponent(hex, 0) && p[5] == ColorComponent(hex, 2) && p[6] == ColorComponent(hex, 4)
            && p[8..16] == encoded + Zeros(8 - |encoded|)
  {
    var encoded := EncodeSlice(b.caption, 7);
    var hex := RemoveFirst(b.color, '#');
    var code := ActionCode(b.action);
    var slot: byte := (index % 256) as byte;
    var header: seq<byte> := [slot, code.0, code.1, 0,
                              ColorComponent(hex, 0), ColorComponent(hex, 2), ColorComponent(hex, 4), 0];
    var tail := encoded + Zeros(8 - |encoded|);
    assert BuildButtonPayload(b, index).value == header + tail;
    assert (header + tail)[8..16] == tail;
  }

  /** An action the source treats as media is stored with type MEDIA even when it starts with KEY_. */
  lemma MediaBeforeKeyPrefix(action: string)
    requires IsMediaAction(action)
    ensures ActionCode(action).0 == ActionMedia
  {
  }

  /** Fallback codes: an unknown media name stores 0xCD, an unknown KEY_ name 0x04. */
  lemma FallbackCodes(action: string)
    ensures IsMediaAction(action) && action != "MUTE" && action !in MediaReverseMap()
            ==> ActionCode(action) == (ActionMedia, 0xCD)
    ensures !IsMediaAction(action) && StartsWith(action, "KEY_") && action[4..] !in KeyReverseMap()
            && action[4..] !in InheritedNames
            ==> ActionCode(action) == (ActionKey, 0x04)
  {
  }

  /** "MUTE" is stored as VOLUME_MUTE and read back as "VOLUME_MUTE"; an empty action reads back as "UNKNOWN". */
  lemma NonRestorableActions()
    ensures ActionCode("MUTE") == (ActionMedia, 0xE2)
    ensures ActionName(ActionCode("MUTE").0, ActionCode("MUTE").1) == "VOLUME_MUTE"
    ensures ActionName(ActionCode("").0, ActionCode("").1) == "UNKNOWN"
  {
    assert OccursAt("MUTE", "MUTE", 0);
    MediaReverseMapInverts(0xE2, "VOLUME_MUTE");
  }
}
