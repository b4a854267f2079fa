// The firmware's packed wire layouts and enums (main/armdeck_protocol.h).
// Every multi-byte field is little-endian, as on the ESP32.
module FwLayout {
  import opened Bytes

  const ProtocolVersion: byte := 0x01
  const MagicByte1: byte := 0xAD
  const MagicByte2: byte := 0xDC

  // armdeck_cmd_t
  const CmdGetInfo: byte := 0x10
  const CmdGetConfig: byte := 0x20
  const CmdSetConfig: byte := 0x21
  const CmdResetConfig: byte := 0x22
  const CmdGetButton: byte := 0x30
  const CmdSetButton: byte := 0x31
  const CmdTestButton: byte := 0x40
  const CmdRestart: byte := 0x50
  const CmdAck: byte := 0xA0
  const CmdNack: byte := 0xA1

  // armdeck_error_t
  const ErrNone: byte := 0x00
  const ErrInvalidCmd: byte := 0x01
  const ErrInvalidParam: byte := 0x02
  const ErrChecksum: byte := 0x03
  const ErrLength: byte := 0x04
  const ErrBusy: byte := 0x05
  const ErrMemory: byte := 0x06

  // armdeck_action_t
  const ActionNone: byte := 0x00
  const ActionKey: byte := 0x01
  const ActionMedia: byte := 0x02
  const ActionMacro: byte := 0x03
  const ActionCustom: byte := 0x04

  const HeaderSize: nat := 4
  const ButtonSize: nat := 16
  const DeviceInfoSize: nat := 30
  const ConfigButtons: nat := 15
  const ConfigSize: nat := 4 + ConfigButtons * ButtonSize

  /** The magic the header comments state (0xAD 0xEC), unlike the defines. */
  const CommentedMagicByte2: byte := 0xEC

  /** armdeck_button_t; label is the 8-byte char array. */
  datatype Button = Button(id: byte, actionType: byte, keyCode: byte, modifier: byte,
                           r: byte, g: byte, b: byte, reserved: byte, text: seq<byte>)

  predicate WellFormedButton(b: Button)
  {
    |b.text| == 8
  }

  function PackButton(b: Button): (s: seq<byte>)
    requires WellFormedButton(b)
    ensures |s| == ButtonSize
    ensures s[0] == b.id && s[1] == b.actionType && s[2] == b.keyCode && s[3] == b.modifier
    ensures s[4] == b.r && s[5] == b.g && s[6] == b.b && s[7] == b.reserved && s[8..] == b.text
  {
    [b.id, b.actionType, b.keyCode, b.modifier, b.r, b.g, b.b, b.reserved] + b.text
  }

  function UnpackButton(s: seq<byte>): (b: Button)
    requires |s| == ButtonSize
    ensures WellFormedButton(b)
  {
    Button(s[0], s[1], s[2], s[3], s[4], s[5], s[6], s[7], s[8..])
  }

  /** A 16-byte image read as a button and written back is the same image, and conversely. */
  lemma ButtonImageRoundTrip(s: seq<byte>, b: Button)
    requires |s| == ButtonSize && WellFormedButton(b)
    ensures PackButton(UnpackButton(s)) == s
    ensures UnpackButton(PackButton(b)) == b
  {
    assert s == s[..8] + s[8..];
  }

  /** armdeck_config_t; reserved is the uint16_t after num_buttons. */
  datatype Config = Config(version: byte, numButtons: byte, reserved: nat, buttons: seq<Button>)

  predicate WellFormedConfig(c: Config)
  {
    c.reserved < 0x1_0000 && |c.buttons| == ConfigButtons
    && forall i :: 0 <= i < |c.buttons| ==> WellFormedButton(c.buttons[i])
  }

  function PackButtons(bs: seq<Button>): (s: seq<byte>)
    requires forall i :: 0 <= i < |bs| ==> WellFormedButton(bs[i])
    ensures |s| == ButtonSize * |bs|
  {
    seq(ButtonSize * |bs|, k requires 0 <= k < ButtonSize * |bs| => PackButton(bs[k / 16])[k % 16])
  }

  function PackConfig(c: Config): (s: seq<byte>)
    requires WellFormedConfig(c)
    ensures |s| == ConfigSize
  {
    [c.version, c.numButtons, c.reserved % 256, c.reserved / 256] + PackButtons(c.buttons)
  }

  function ButtonImage(s: seq<byte>, i: nat): (r: seq<byte>)
    requires |s| == ConfigSize && i < ConfigButtons
    ensures |r| == ButtonSize
  {
    s[4 + ButtonSize * i..4 + ButtonSize * i + ButtonSize]
  }

  /** memcpy of a 244-byte image into an armdeck_config_t. */
  function UnpackConfig(s: seq<byte>): (c: Config)
    requires |s| == ConfigSize
    ensures WellFormedConfig(c)
  {
    Config(s[0], s[1], s[2] as int + 256 * s[3] as int,
           seq(ConfigButtons, i requires 0 <= i < ConfigButtons => UnpackButton(ButtonImage(s, i))))
  }

  /** Button i of a packed configuration occupies bytes 4 + 16i .. 4 + 16i + 15. */
  lemma PackedButtonAt(c: Config, i: nat)
    requires WellFormedConfig(c) && i < ConfigButtons
    ensures ButtonImage(PackConfig(c), i) == PackButton(c.buttons[i])
  {
    var s := PackConfig(c);
    forall j | 0 <= j < ButtonSize ensures ButtonImage(s, i)[j] == PackButton(c.buttons[i])[j] {
      var k := ButtonSize * i + j;
      assert k / 16 == i && k % 16 == j;
      assert s[4 + k] == PackButtons(c.buttons)[k];
    }
  }

  /** A 244-byte image installed as the configuration and sent back is the same image. */
  lemma ConfigImageRoundTrip(s: seq<byte>)
    requires |s| == ConfigSize
    ensures PackConfig(UnpackConfig(s)) == s
  {
    var c := UnpackConfig(s);
    var t := PackConfig(c);
    forall k | 4 <= k < ConfigSize ensures t[k] == s[k] {
      var i := (k - 4) / 16;
      var j := (k - 4) % 16;
      assert k == 4 + ButtonSize * i + j;
      ButtonImageRoundTrip(ButtonImage(s, i), c.buttons[i]);
      assert t[k] == PackButton(c.buttons[i])[j];
    }
    assert t[..4] == s[..4];
  }

  /** A well-formed configuration packed and read back is unchanged. */
  lemma ConfigValueRoundTrip(c: Config)
    requires WellFormedConfig(c)
    ensures UnpackConfig(PackConfig(c)) == c
  {
    var d := UnpackConfig(PackConfig(c));
    forall i | 0 <= i < ConfigButtons ensures d.buttons[i] == c.buttons[i] {
      PackedButtonAt(c, i);
      ButtonImageRoundTrip(PackButton(c.buttons[i]), c.buttons[i]);
    }
  }

  /** armdeck_device_info_t. */
  datatype DeviceInfo = DeviceInfo(protocolVersion: byte, firmwareMajor: byte, firmwareMinor: byte,
                                   firmwarePatch: byte, numButtons: byte, batteryLevel: byte,
                                   uptimeSeconds: u32, freeHeap: u32, deviceName: seq<byte>)

  function U32Bytes(v: u32): (s: seq<byte>)
    ensures |s| == 4
    ensures s[0] as int + 0x100 * s[1] as int + 0x1_0000 * s[2] as int + 0x100_0000 * s[3] as int == v
  {
    [v % 0x100, (v / 0x100) % 0x100, (v / 0x1_0000) % 0x100, v / 0x100_0000]
  }

  function PackDeviceInfo(d: DeviceInfo): (s: seq<byte>)
    requires |d.deviceName| == 16
    ensures |s| == DeviceInfoSize
    ensures s[6..10] == U32Bytes(d.uptimeSeconds) && s[10..14] == U32Bytes(d.freeHeap)
    ensures s[14..] == d.deviceName
  {
    [d.protocolVersion, d.firmwareMajor, d.firmwareMinor, d.firmwarePatch, d.numButtons, d.batteryLevel]
    + U32Bytes(d.uptimeSeconds) + U32Bytes(d.freeHeap) + d.deviceName
  }

  /** A 244-byte configuration fits the one-byte length field together with the error byte. */
  lemma LayoutSizes()
    ensures ConfigSize == 244 && 1 + ConfigSize <= 255
    ensures HeaderSize + 1 + ConfigSize + 1 <= 256
  {
  }
}

// The firmware's frame parser, response builder and command dispatcher
// (main/armdeck_protocol.c) over the in-memory configuration.
module FwProtocol {
  import opened Bytes
  import opened Esp
  import opened FwLayout

  /** A parsed request: the command, the length byte, and the payload pointer (NULL when length is 0). */
  datatype ParseResult = Packet(command: byte, length: byte, payload: Option<seq<byte>>) | ParseError(code: EspErr)

  /** armdeck_protocol_parse. */
  function Parse(data: seq<byte>): (r: ParseResult)
    ensures r.Packet? <==> |data| >= 5 && data[0] == MagicByte1 && data[1] == MagicByte2
                           && |data| == 5 + data[3] as int && data[|data| - 1] == XorAll(data[..|data| - 1])
    ensures r.Packet? ==> r.command == data[2] && r.length == data[3]
    ensures r.Packet? ==> (r.payload.None? <==> r.length == 0)
    ensures r.Packet? && r.payload.Some? ==> r.payload.value == data[4..|data| - 1]
    ensures r.ParseError? ==> r.code in {EspErrInvalidSize, EspErrInvalidArg, EspErrInvalidCrc}
    ensures |data| < 5 ==> r == ParseError(EspErrInvalidSize)
    ensures |data| >= 5 && (data[0] != MagicByte1 || data[1] != MagicByte2) ==> r == ParseError(EspErrInvalidArg)
    ensures (|data| >= 5 && data[0] == MagicByte1 && data[1] == MagicByte2 && |data| != 5 + data[3] as int)
            ==> r == ParseError(EspErrInvalidSize)
    ensures (|data| >= 5 && data[0] == MagicByte1 && data[1] == MagicByte2 && |data| == 5 + data[3] as int
             && data[|data| - 1] != XorAll(data[..|data| - 1]))
            ==> r == ParseError(EspErrInvalidCrc)
  {
    if |data| < HeaderSize + 1 then ParseError(EspErrInvalidSize)
    else if data[0] != MagicByte1 || data[1] != MagicByte2 then ParseError(EspErrInvalidArg)
    else if |data| != HeaderSize + data[3] + 1 then ParseError(EspErrInvalidSize)
    else if XorAll(data[..|data| - 1]) != data[|data| - 1] then ParseError(EspErrInvalidCrc)
    else Packet(data[2], data[3], if data[3] > 0 then Some(data[4..|data| - 1]) else None)
  }

  /** armdeck_protocol_checksum: the accumulator loop over the first len bytes. */
  method Checksum(data: array<byte>, len: nat) returns (checksum: byte)
    requires len <= data.Length
    ensures checksum == XorAll(data[..len])
  {
    checksum := 0;
    var i := 0;
    while i < len
      invariant 0 <= i <= len
      invariant checksum == XorAll(data[..i])
    {
      assert data[..i + 1][..i] == data[..i];
      checksum := Xor(checksum, data[i]);
      i := i + 1;
    }
  }

  /**
   * The bytes armdeck_protocol_build_response writes: AD DC cmd (1 + n)
   * error payload checksum, or nothing when 6 + n exceeds max_len. The
   * length byte is a uint8_t, so 1 + n wraps for n = 255.
   */
  function BuildResponse(cmd: byte, error: byte, payload: seq<byte>, maxLen: nat): (r: seq<byte>)
    requires |payload| < 256
    ensures r == [] <==> HeaderSize + 1 + |payload| + 1 > maxLen
    ensures r != [] ==> |r| == 6 + |payload| && r[..5] == [MagicByte1, MagicByte2, cmd, (1 + |payload|) % 256, error]
                        && r[5..|r| - 1] == payload
  {
    if HeaderSize + 1 + |payload| + 1 > maxLen then []
    else
      var body := [MagicByte1, MagicByte2, cmd, (1 + |payload|) % 256, error] + payload;
      body + [XorAll(body)]
  }

  /** A built response XORs to 0 over all its bytes. */
  lemma BuildResponseXorsToZero(cmd: byte, error: byte, payload: seq<byte>, maxLen: nat)
    requires |payload| < 256 && HeaderSize + 1 + |payload| + 1 <= maxLen
    ensures XorAll(BuildResponse(cmd, error, payload, maxLen)) == 0
  {
    XorAllWithSum([MagicByte1, MagicByte2, cmd, (1 + |payload|) % 256, error] + payload);
  }

  /** armdeck_protocol_build_response writing into the caller's buffer; returns the length written. */
  method BuildResponseInto(cmd: byte, error: byte, payload: seq<byte>, output: array<byte>, maxLen: nat)
    returns (n: nat)
    requires |payload| < 256 && maxLen <= output.Length
    modifies output
    ensures n <= maxLen
    ensures output[..n] == BuildResponse(cmd, error, payload, maxLen)
    ensures output[n..] == old(output[n..])
  {
    if HeaderSize + 1 + |payload| + 1 > maxLen {
      return 0;
    }
    output[0] := MagicByte1;
    output[1] := MagicByte2;
    output[2] := cmd;
    output[3] := (1 + |payload|) % 256;
    output[4] := error;
    var pos := 5;
    while pos < 5 + |payload|
      invariant 5 <= pos <= 5 + |payload|
      invariant output[..pos] == [MagicByte1, MagicByte2, cmd, (1 + |payload|) % 256, error] + payload[..pos - 5]
      invariant output[5 + |payload|..] == old(output[5 + |payload|..])
    {
      output[pos] := payload[pos - 5];
      assert payload[..pos + 1 - 5] == payload[..pos - 5] + [payload[pos - 5]];
      pos := pos + 1;
    }
    assert payload[..pos - 5] == payload;
    var checksum := Checksum(output, pos);
    output[pos] := checksum;
    n := pos + 1;
    assert output[..n] == output[..pos] + [checksum];
  }

  /** The twelve built-in buttons (default_buttons). */
  function Label(text: seq<byte>): (l: seq<byte>)
    requires |text| <= 8
    ensures |l| == 8
  {
    text + seq(8 - |text|, _ => 0)
  }

  function DefaultButtons(): (bs: seq<Button>)
    ensures |bs| == 12 && forall i :: 0 <= i < 12 ==> WellFormedButton(bs[i]) && bs[i].id == i
  {
    [Button(0, ActionMedia, 0xCD, 0, 0x4C, 0xAF, 0x50, 0, Label([0x50, 0x6C, 0x61, 0x79])),   // Play
     Button(1, ActionMedia, 0xB5, 0, 0x21, 0x96, 0xF3, 0, Label([0x4E, 0x65, 0x78, 0x74])),   // Next
     Button(2, ActionMedia, 0xB6, 0, 0x21, 0x96, 0xF3, 0, Label([0x50, 0x72, 0x65, 0x76])),   // Prev
     Button(3, ActionMedia, 0xE9, 0, 0xFF, 0x98, 0x00, 0, Label([0x56, 0x6F, 0x6C, 0x2B])),   // Vol+
     Button(4, ActionMedia, 0xEA, 0, 0xFF, 0x98, 0x00, 0, Label([0x56, 0x6F, 0x6C, 0x2D])),   // Vol-
     Button(5, ActionMedia, 0xE2, 0, 0xF4, 0x43, 0x36, 0, Label([0x4D, 0x75, 0x74, 0x65])),   // Mute
     Button(6, ActionMedia, 0xB7, 0, 0x9C, 0x27, 0xB0, 0, Label([0x53, 0x74, 0x6F, 0x70])),   // Stop
     Button(7, ActionKey, 0x6F, 0, 0x60, 0x7D, 0x8B, 0, Label([0x46, 0x32, 0x30])),           // F20
     Button(8, ActionKey, 0x70, 0, 0x60, 0x7D, 0x8B, 0, Label([0x46, 0x32, 0x31])),           // F21
     Button(9, ActionKey, 0x71, 0, 0x60, 0x7D, 0x8B, 0, Label([0x46, 0x32, 0x32])),           // F22
     Button(10, ActionKey, 0x72, 0, 0x60, 0x7D, 0x8B, 0, Label([0x46, 0x32, 0x33])),          // F23
     Button(11, ActionKey, 0x73, 0, 0x60, 0x7D, 0x8B, 0, Label([0x46, 0x32, 0x34]))]          // F24
  }

  const ZeroButton: Button := Button(0, 0, 0, 0, 0, 0, 0, 0, [0, 0, 0, 0, 0, 0, 0, 0])

  /** The static current_config before anything runs: version 1, 12 buttons, zeroed slots. */
  function InitialConfig(): (c: Config)
    ensures WellFormedConfig(c)
  {
    Config(ProtocolVersion, 12, 0, seq(ConfigButtons, _ => ZeroButton))
  }

  /** memcpy(current_config.buttons, default_buttons, ...): slots 0..11 only. */
  function WithDefaults(c: Config): (d: Config)
    requires WellFormedConfig(c)
    ensures WellFormedConfig(d)
    ensures d.version == c.version && d.numButtons == c.numButtons && d.reserved == c.reserved
    ensures d.buttons[..12] == DefaultButtons() && d.buttons[12..] == c.buttons[12..]
  {
    c.(buttons := DefaultButtons() + c.buttons[12..])
  }

  /** The firmware's protocol state: current_config and config_initialized. */
  datatype FwState = FwState(config: Config, initialized: bool)

  /** The outcome of one armdeck_protocol_handle_command call. */
  datatype Reply = Reply(state: FwState, ret: EspErr, response: seq<byte>, restart: bool)

  function Respond(cmd: byte, error: byte, payload: seq<byte>): seq<byte>
    requires |payload| < 256
  {
    BuildResponse(cmd, error, payload, 256)
  }

  /** The info handle_get_info reports; the name is "ArmDeck" NUL-padded to 16 bytes. */
  function InfoOf(uptimeSeconds: u32, freeHeap: u32): DeviceInfo
  {
    DeviceInfo(ProtocolVersion, 1, 2, 0, 12, 100, uptimeSeconds, freeHeap,
               [0x41, 0x72, 0x6D, 0x44, 0x65, 0x63, 0x6B] + seq(9, _ => 0))
  }

  /**
   * armdeck_protocol_handle_command as a function of the state, the input
   * frame, the uptime in seconds (esp_timer_get_time() / 1000000, truncated
   * to 32 bits) and the free heap size.
   */
  function Dispatch(s: FwState, input: seq<byte>, uptimeSeconds: u32, freeHeap: u32): (r: Reply)
    requires WellFormedConfig(s.config)
    ensures WellFormedConfig(r.state.config)
  {
    match Parse(input)
    case ParseError(code) => Reply(s, code, Respond(CmdNack, ErrChecksum, []), false)
    case Packet(command, length, payload) =>
      var body := if payload.Some? then payload.value else [];
      if command == CmdGetInfo then
        Reply(s, EspOk, Respond(CmdGetInfo, ErrNone, PackDeviceInfo(InfoOf(uptimeSeconds, freeHeap))), false)
      else if command == CmdGetConfig then
        var t := if s.initialized then s else FwState(WithDefaults(s.config), true);
        Reply(t, EspOk, Respond(CmdGetConfig, ErrNone, PackConfig(t.config)), false)
      else if command == CmdSetConfig then
        if length as nat != ConfigSize then Reply(s, EspErrInvalidSize, Respond(CmdSetConfig, ErrInvalidParam, []), false)
        else Reply(s.(config := UnpackConfig(body)), EspOk, Respond(CmdSetConfig, ErrNone, []), false)
      else if command == CmdGetButton then
        if length != 1 then Reply(s, EspErrInvalidSize, Respond(CmdGetButton, ErrInvalidParam, []), false)
        else if body[0] >= 12 then Reply(s, EspErrInvalidArg, Respond(CmdGetButton, ErrInvalidParam, []), false)
        else Reply(s, EspOk, Respond(CmdGetButton, ErrNone, PackButton(s.config.buttons[body[0]])), false)
      else if command == CmdSetButton then
        if length as nat != ButtonSize then Reply(s, EspErrInvalidSize, Respond(CmdSetButton, ErrInvalidParam, []), false)
        else if body[0] >= 12 then Reply(s, EspErrInvalidArg, Respond(CmdSetButton, ErrInvalidParam, []), false)
        else
          var c := s.config.(buttons := s.config.buttons[body[0] := UnpackButton(body)]);
          Reply(s.(config := c), EspOk, Respond(CmdSetButton, ErrNone, []), false)
      else if command == CmdTestButton then
        if length != 1 then Reply(s, EspErrInvalidSize, Respond(CmdTestButton, ErrInvalidParam, []), false)
        else if body[0] >= 12 then Reply(s, EspErrInvalidArg, Respond(CmdTestButton, ErrInvalidParam, []), false)
        else Reply(s, EspOk, Respond(CmdTestButton, ErrNone, []), false)
      else if command == CmdResetConfig then
        Reply(s.(config := WithDefaults(s.config)), EspOk, Respond(CmdResetConfig, ErrNone, []), false)
      else if command == CmdRestart then
        Reply(s, EspOk, Respond(CmdRestart, ErrNone, []), true)
      else
        Reply(s, EspErrNotFound, Respond(CmdNack, ErrInvalidCmd, []), false)
  }

  /** The request body handed to the handlers (empty for a NULL payload pointer). */
  function Body(input: seq<byte>): seq<byte>
    requires Parse(input).Packet?
  {
    var payload := Parse(input).payload;
    if payload.Some? then payload.value else []
  }

  /** armdeck_protocol.c's static state: current_config, config_initialized, and a pending esp_restart. */
  class Protocol {
    var config: Config
    var initialized: bool
    var restartRequested: bool

    ghost predicate Valid()
      reads this
    {
      WellFormedConfig(config)
    }

    function State(): FwState
      reads this
    {
      FwState(config, initialized)
    }

    constructor()
      ensures Valid() && config == InitialConfig() && !initialized && !restartRequested
    {
      config := InitialConfig();
      initialized := false;
      restartRequested := false;
    }

    /** load_config_from_nvs: installs the twelve defaults (NVS is not read yet) and sets the flag. */
    method LoadConfig()
      requires Valid()
      modifies this`config, this`initialized
      ensures Valid() && config == WithDefaults(old(config)) && initialized
    {
      config := WithDefaults(config);
      initialized := true;
    }

    /** armdeck_protocol_handle_command, writing the reply into output (256 bytes, as in the callers). */
    method HandleCommand(input: seq<byte>, uptimeSeconds: u32, freeHeap: u32, output: array<byte>)
      returns (ret: EspErr, outputLen: nat)
      requires Valid() && output.Length >= 256
      modifies this, output
      ensures Valid()
      ensures var r := Dispatch(old(State()), input, uptimeSeconds, freeHeap);
              State() == r.state && ret == r.ret && outputLen <= 256 && output[..outputLen] == r.response
              && restartRequested == (old(restartRequested) || r.restart)
    {
      var parsed := Parse(input);
      if parsed.ParseError? {
        outputLen := BuildResponseInto(CmdNack, ErrChecksum, [], output, 256);
        return parsed.code, outputLen;
      }
      var command := parsed.command;
      var length := parsed.length;
      var body := Body(input);
      if command == CmdGetInfo {
        var info := PackDeviceInfo(InfoOf(uptimeSeconds, freeHeap));
        outputLen := BuildResponseInto(CmdGetInfo, ErrNone, info, output, 256);
        ret := EspOk;
      } else if command == CmdGetConfig {
        if !initialized {
          LoadConfig();
        }
        outputLen := BuildResponseInto(CmdGetConfig, ErrNone, PackConfig(config), output, 256);
        ret := EspOk;
      } else if command == CmdSetConfig {
        ret, outputLen := HandleSetConfig(input, length, body, output);
      } else if command == CmdGetButton {
        ret, outputLen := HandleGetButton(input, length, body, output);
      } else if command == CmdSetButton {
        ret, outputLen := HandleSetButton(input, length, body, output);
      } else if command == CmdTestButton {
        ret, outputLen := HandleTestButton(input, length, body, output);
      } else if command == CmdResetConfig {
        config := WithDefaults(config);
        outputLen := BuildResponseInto(CmdResetConfig, ErrNone, [], output, 256);
        ret := EspOk;
      } else if command == CmdRestart {
        outputLen := BuildResponseInto(CmdRestart, ErrNone, [], output, 256);
        restartRequested := true;
        ret := EspOk;
      } else {
        outputLen := BuildResponseInto(CmdNack, ErrInvalidCmd, [], output, 256);
        ret := EspErrNotFound;
      }
    }

    /** handle_set_config: only a payload of sizeof(armdeck_config_t) is accepted, and installed unchecked. */
    method HandleSetConfig(ghost input: seq<byte>, length: byte, body: seq<byte>, output: array<byte>)
      returns (ret: EspErr, outputLen: nat)
      requires Valid() && output.Length >= 256
      requires Parse(input).Packet? && Parse(input).command == CmdSetConfig
      requires length == Parse(input).length && body == Body(input)
      modifies this`config, output
      ensures Valid()
      ensures var r := Dispatch(old(State()), input, 0, 0);
              State() == r.state && ret == r.ret && outputLen <= 256 && output[..outputLen] == r.response
    {
      if length as nat != ConfigSize {
        outputLen := BuildResponseInto(CmdSetConfig, ErrInvalidParam, [], output, 256);
        return EspErrInvalidSize, outputLen;
      }
      config := UnpackConfig(body);
      outputLen := BuildResponseInto(CmdSetConfig, ErrNone, [], output, 256);
      ret := EspOk;
    }

    /** handle_get_button: a one-byte payload holding an id below 12. */
    method HandleGetButton(ghost input: seq<byte>, length: byte, body: seq<byte>, output: array<byte>)
      returns (ret: EspErr, outputLen: nat)
      requires Valid() && output.Length >= 256
      requires Parse(input).Packet? && Parse(input).command == CmdGetButton
      requires length == Parse(input).length && body == Body(input)
      modifies output
      ensures var r := Dispatch(State(), input, 0, 0);
              ret == r.ret && outputLen <= 256 && output[..outputLen] == r.response
    {
      if length != 1 {
        outputLen := BuildResponseInto(CmdGetButton, ErrInvalidParam, [], output, 256);
        return EspErrInvalidSize, outputLen;
      }
      var buttonId := body[0];
      if buttonId >= 12 {
        outputLen := BuildResponseInto(CmdGetButton, ErrInvalidParam, [], output, 256);
        return EspErrInvalidArg, outputLen;
      }
      outputLen := BuildResponseInto(CmdGetButton, ErrNone, PackButton(config.buttons[buttonId]), output, 256);
      ret := EspOk;
    }

    /** handle_set_button: exactly 16 bytes whose first byte, the button id, is below 12. */
    method HandleSetButton(ghost input: seq<byte>, length: byte, body: seq<byte>, output: array<byte>)
      returns (ret: EspErr, outputLen: nat)
      requires Valid() && output.Length >= 256
      requires Parse(input).Packet? && Parse(input).command == CmdSetButton
      requires length == Parse(input).length && body == Body(input)
      modifies this`config, output
      ensures Valid()
      ensures var r := Dispatch(old(State()), input, 0, 0);
              State() == r.state && ret == r.ret && outputLen <= 256 && output[..outputLen] == r.response
    {
      if length as nat != ButtonSize {
        outputLen := BuildResponseInto(CmdSetButton, ErrInvalidParam, [], output, 256);
        return EspErrInvalidSize, outputLen;
      }
      var buttonId := body[0];
      if buttonId >= 12 {
        outputLen := BuildResponseInto(CmdSetButton, ErrInvalidParam, [], output, 256);
        return EspErrInvalidArg, outputLen;
      }
      config := config.(buttons := config.buttons[buttonId := UnpackButton(body)]);
      outputLen := BuildResponseInto(CmdSetButton, ErrNone, [], output, 256);
      ret := EspOk;
    }

    /** handle_test_button: validates like GET_BUTTON and triggers nothing. */
    method HandleTestButton(ghost input: seq<byte>, length: byte, body: seq<byte>, output: array<byte>)
      returns (ret: EspErr, outputLen: nat)
      requires Valid() && output.Length >= 256
      requires Parse(input).Packet? && Parse(input).command == CmdTestButton
      requires length == Parse(input).length && body == Body(input)
      modifies output
      ensures var r := Dispatch(State(), input, 0, 0);
              ret == r.ret && outputLen <= 256 && output[..outputLen] == r.response
    {
      if length != 1 || body[0] >= 12 {
        outputLen := BuildResponseInto(CmdTestButton, ErrInvalidParam, [], output, 256);
        return if length != 1 then EspErrInvalidSize else EspErrInvalidArg, outputLen;
      }
      outputLen := BuildResponseInto(CmdTestButton, ErrNone, [], output, 256);
      ret := EspOk;
    }

    /** armdeck_protocol_get_button_config: loads the defaults first if needed; NULL for ids of 12 and above. */
    method GetButtonConfig(buttonId: byte) returns (b: Option<Button>)
      requires Valid()
      modifies this`config, this`initialized
      ensures Valid() && initialized
      ensures config == if old(initialized) then old(config) else WithDefaults(old(config))
      ensures b == if buttonId >= 12 then None else Some(config.buttons[buttonId])
    {
      if !initialized {
        LoadConfig();
      }
      if buttonId >= 12 {
        return None;
      }
      return Some(config.buttons[buttonId]);
    }

    /** armdeck_protocol_get_config. */
    method GetConfig() returns (c: Config)
      requires Valid()
      modifies this`config, this`initialized
      ensures Valid() && initialized && c == config
      ensures config == if old(initialized) then old(config) else WithDefaults(old(config))
    {
      if !initialized {
        LoadConfig();
      }
      c := config;
    }
  }

  // ---------------------------------------------------------------------
  // Properties of the dispatcher

  /** Every parse failure, whatever its cause, is answered with the same frame: NACK, ERR_CHECKSUM. */
  lemma ParseFailureAnswer(s: FwState, input: seq<byte>, uptimeSeconds: u32, freeHeap: u32)
    requires WellFormedConfig(s.config) && Parse(input).ParseError?
    ensures var r := Dispatch(s, input, uptimeSeconds, freeHeap);
            r.state == s && r.ret == Parse(input).code
            && r.response == [0xAD, 0xDC, 0xA1, 0x01, 0x03, 0xD2]
  {
    var h: seq<byte> := [0xAD, 0xDC, 0xA1, 0x01, 0x03];
    assert h[..4] == [0xAD, 0xDC, 0xA1, 0x01] && h[..4][..3] == [0xAD, 0xDC, 0xA1];
    assert h[..4][..3][..2] == [0xAD, 0xDC] && h[..4][..3][..2][..1] == [0xAD];
    assert XorAll(h[..4][..3][..2][..1]) == Xor(0, 0xAD) == 0xAD;
    assert XorAll(h[..4][..3][..2]) == Xor(0xAD, 0xDC) == 0x71;
    assert XorAll(h[..4][..3]) == Xor(0x71, 0xA1) == 0xD0;
    assert XorAll(h[..4]) == Xor(0xD0, 0x01) == 0xD1;
    assert XorAll(h) == Xor(0xD1, 0x03) == 0xD2;
  }

  predicate KnownCommand(c: byte)
  {
    c in {CmdGetInfo, CmdGetConfig, CmdSetConfig, CmdResetConfig, CmdGetButton, CmdSetButton,
          CmdTestButton, CmdRestart}
  }

  /** The NACK/ERR_INVALID_CMD frame the dispatcher builds: AD DC A1 01 01 D0. */
  function InvalidCommandNack(): (r: seq<byte>)
    ensures r == [0xAD, 0xDC, 0xA1, 0x01, 0x01, 0xD0]
  {
    var h: seq<byte> := [0xAD, 0xDC, 0xA1, 0x01, 0x01];
    assert h[..4] == [0xAD, 0xDC, 0xA1, 0x01] && h[..4][..3] == [0xAD, 0xDC, 0xA1];
    assert h[..4][..3][..2] == [0xAD, 0xDC] && h[..4][..3][..2][..1] == [0xAD];
    assert XorAll(h[..4][..3][..2][..1]) == Xor(0, 0xAD) == 0xAD;
    assert XorAll(h[..4][..3][..2]) == Xor(0xAD, 0xDC) == 0x71;
    assert XorAll(h[..4][..3]) == Xor(0x71, 0xA1) == 0xD0;
    assert XorAll(h[..4]) == Xor(0xD0, 0x01) == 0xD1;
    assert XorAll(h) == Xor(0xD1, 0x01) == 0xD0;
    Respond(CmdNack, ErrInvalidCmd, [])
  }

  /** A well-formed frame with an unknown command gets NACK/ERR_INVALID_CMD and ESP_ERR_NOT_FOUND, state untouched. */
  lemma UnknownCommandAnswer(s: FwState, input: seq<byte>, uptimeSeconds: u32, freeHeap: u32)
    requires WellFormedConfig(s.config) && Parse(input).Packet? && !KnownCommand(Parse(input).command)
    ensures var r := Dispatch(s, input, uptimeSeconds, freeHeap);
            r.state == s && r.ret == EspErrNotFound && r.response == InvalidCommandNack() && !r.restart
  {
  }

  /** Only GET_CONFIG and the accessors load the defaults: until then every slot reads as zeros. */
  lemma GetButtonBeforeInit(input: seq<byte>, uptimeSeconds: u32, freeHeap: u32)
    requires Parse(input).Packet? && Parse(input).command == CmdGetButton
    requires Parse(input).length == 1 && Body(input)[0] < 12
    ensures var r := Dispatch(FwState(InitialConfig(), false), input, uptimeSeconds, freeHeap);
            r.ret == EspOk && r.state == FwState(InitialConfig(), false)
            && r.response == Respond(CmdGetButton, ErrNone, seq(16, _ => 0))
  {
    assert PackButton(ZeroButton) == seq(16, _ => 0);
  }

  /** RESET_CONFIG overwrites slots 0..11 only; version, count, reserved and slots 12..14 stay; a second reset changes nothing. */
  lemma ResetConfigEffect(s: FwState, input: seq<byte>, uptimeSeconds: u32, freeHeap: u32)
    requires WellFormedConfig(s.config) && Parse(input).Packet? && Parse(input).command == CmdResetConfig
    ensures var r := Dispatch(s, input, uptimeSeconds, freeHeap);
            r.ret == EspOk && r.state.initialized == s.initialized
            && r.state.config.buttons[..12] == DefaultButtons()
            && r.state.config.buttons[12..] == s.config.buttons[12..]
            && r.state.config.version == s.config.version && r.state.config.numButtons == s.config.numButtons
            && Dispatch(r.state, input, uptimeSeconds, freeHeap).state == r.state
  {
    var t := Dispatch(s, input, uptimeSeconds, freeHeap).state;
    assert t.config.buttons == DefaultButtons() + t.config.buttons[12..];
  }

  /** SET_CONFIG takes any 244-byte image without checking it and rejects every other size. */
  lemma SetConfigEffect(s: FwState, input: seq<byte>, uptimeSeconds: u32, freeHeap: u32)
    requires WellFormedConfig(s.config) && Parse(input).Packet? && Parse(input).command == CmdSetConfig
    ensures var r := Dispatch(s, input, uptimeSeconds, freeHeap);
            if Parse(input).length as nat == ConfigSize
            then r.ret == EspOk && PackConfig(r.state.config) == Body(input)
            else r.ret == EspErrInvalidSize && r.state == s
  {
    if Parse(input).length as nat == ConfigSize {
      ConfigImageRoundTrip(Body(input));
    }
  }

  /** SET_BUTTON with a valid id replaces exactly that slot with the 16 bytes received. */
  lemma SetButtonEffect(s: FwState, input: seq<byte>, uptimeSeconds: u32, freeHeap: u32)
    requires WellFormedConfig(s.config) && Parse(input).Packet? && Parse(input).command == CmdSetButton
    requires Parse(input).length as nat == ButtonSize && Body(input)[0] < 12
    ensures var r := Dispatch(s, input, uptimeSeconds, freeHeap);
            var id := Body(input)[0];
            r.ret == EspOk && PackButton(r.state.config.buttons[id]) == Body(input)
            && forall j :: 0 <= j < ConfigButtons && j != id ==> r.state.config.buttons[j] == s.config.buttons[j]
  {
    ButtonImageRoundTrip(Body(input), ZeroButton);
  }

  /**
   * SET_BUTTON leaves config_initialized as it was, so before any GET_CONFIG
   * the slot it writes is overwritten with its default by the lazy load of
   * the next GET_CONFIG, which answers the default instead.
   */
  lemma SetButtonLostByFirstGetConfig(s: FwState, setInput: seq<byte>, getInput: seq<byte>, uptimeSeconds: u32, freeHeap: u32)
    requires WellFormedConfig(s.config) && !s.initialized
    requires Parse(setInput).Packet? && Parse(setInput).command == CmdSetButton
    requires Parse(setInput).length as nat == ButtonSize && Body(setInput)[0] < 12
    requires Parse(getInput).Packet? && Parse(getInput).command == CmdGetConfig
    ensures var r1 := Dispatch(s, setInput, uptimeSeconds, freeHeap);
            var r2 := Dispatch(r1.state, getInput, uptimeSeconds, freeHeap);
            var id := Body(setInput)[0];
            && PackButton(r1.state.config.buttons[id]) == Body(setInput) && !r1.state.initialized
            && r2.state.config.buttons[id] == DefaultButtons()[id]
            && r2.response == Respond(CmdGetConfig, ErrNone, PackConfig(r2.state.config))
  {
    SetButtonEffect(s, setInput, uptimeSeconds, freeHeap);
    var r1 := Dispatch(s, setInput, uptimeSeconds, freeHeap);
    assert r1.state.initialized == s.initialized;
  }

  /**
   * The dispatcher with the lazy load moved ahead of the writes: SET_CONFIG
   * and SET_BUTTON on a configuration not yet initialised first install
   * the defaults, as GET_CONFIG does, and then apply the write.
   */
  function DispatchLoadingFirst(s: FwState, input: seq<byte>, uptimeSeconds: u32, freeHeap: u32): (r: Reply)
    requires WellFormedConfig(s.config)
    ensures WellFormedConfig(r.state.config)
    ensures (Parse(input).Packet? && Parse(input).command in {CmdSetConfig, CmdSetButton}) ==> r.state.initialized
  {
    if Parse(input).Packet? && Parse(input).command in {CmdSetConfig, CmdSetButton} && !s.initialized
    then Dispatch(FwState(WithDefaults(s.config), true), input, uptimeSeconds, freeHeap)
    else Dispatch(s, input, uptimeSeconds, freeHeap)
  }

  /** With the load moved ahead, a written slot survives the next GET_CONFIG, from any state. */
  lemma CorrectedSetButtonSurvivesGetConfig(s: FwState, setInput: seq<byte>, getInput: seq<byte>, uptimeSeconds: u32, freeHeap: u32)
    requires WellFormedConfig(s.config)
    requires Parse(setInput).Packet? && Parse(setInput).command == CmdSetButton
    requires Parse(setInput).length as nat == ButtonSize && Body(setInput)[0] < 12
    requires Parse(getInput).Packet? && Parse(getInput).command == CmdGetConfig
    ensures var r1 := DispatchLoadingFirst(s, setInput, uptimeSeconds, freeHeap);
            var r2 := DispatchLoadingFirst(r1.state, getInput, uptimeSeconds, freeHeap);
            var id := Body(setInput)[0];
            && PackButton(r2.state.config.buttons[id]) == Body(setInput)
            && r2.response == Respond(CmdGetConfig, ErrNone, PackConfig(r2.state.config))
  {
    var t := if s.initialized then s else FwState(WithDefaults(s.config), true);
    SetButtonEffect(t, setInput, uptimeSeconds, freeHeap);
  }
}
