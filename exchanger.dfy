// The web client's command exchanger and device-info decoder
// (pwa/src/ble/communication.ts). The GATT command characteristic is a
// Link whose reads come from a script: each read either yields bytes or
// fails (a rejected promise), and a read past the end of the script fails.
module Exchanger {
  import opened Bytes
  import opened ClientConstants
  import opened PacketCodec

  /** One readValue() result. */
  datatype Read = Data(bytes: seq<byte>) | Failure

  /** What sendCommandStrict settles to: a frame, null, or a thrown error. */
  datatype Outcome = Frame(bytes: seq<byte>) | Null | Thrown

  /** The validity test applied to each read: at least 5 bytes starting AD DC. */
  predicate Accepted(r: seq<byte>)
  {
    |r| >= 5 && r[0] == MagicByte1 && r[1] == MagicByte2
  }

  /** The read part of sendCommandStrict over a script of reads: its outcome and the reads it consumed. */
  function Exchange(script: seq<Read>): (OutcomeAndReads: (Outcome, nat))
  {
    var first := if script == [] then Failure else script[0];
    if first.Failure? then (Thrown, 1)
    else if Accepted(first.bytes) then (Frame(first.bytes), 1)
    else if first.bytes != [] then (Null, 1)
    else
      var second := if |script| < 2 then Failure else script[1];
      if second.Failure? then (Thrown, 2)
      else if Accepted(second.bytes) then (Frame(second.bytes), 2)
      else (Null, 2)
  }

  function FirstRead(script: seq<Read>): Read
  {
    if script == [] then Failure else script[0]
  }

  /**
   * At most two reads; the second happens exactly when the first yields
   * zero bytes; a frame is returned only if it passes the validity test
   * and it is then the last read's bytes.
   */
  lemma ExchangeReads(script: seq<Read>)
    ensures var (o, n) := Exchange(script);
            (n == 1 || n == 2)
            && (n == 2 <==> FirstRead(script) == Data([]))
            && (o.Frame? ==> Accepted(o.bytes)
                             && (if n == 1 then FirstRead(script) == Data(o.bytes)
                                 else |script| >= 2 && script[1] == Data(o.bytes)))
  {
    if FirstRead(script).Data? && FirstRead(script).bytes == [] {
      assert !Accepted([]);
    }
  }

  /** An accepted first read is returned as it is; a non-empty rejected first read gives null with no retry. */
  lemma ExchangeFirstRead(script: seq<Read>, bytes: seq<byte>)
    requires script != [] && script[0] == Data(bytes)
    ensures Accepted(bytes) ==> Exchange(script) == (Frame(bytes), 1)
    ensures !Accepted(bytes) && bytes != [] ==> Exchange(script) == (Null, 1)
  {
  }

  /** No checksum is checked: AD DC 10 00 00 is returned although parseResponse rejects it. */
  lemma ChecksumNotChecked()
    ensures Exchange([Data([0xAD, 0xDC, 0x10, 0x00, 0x00])]).0 == Frame([0xAD, 0xDC, 0x10, 0x00, 0x00])
    ensures ParseResponse([0xAD, 0xDC, 0x10, 0x00, 0x00]).None?
  {
    GetInfoFrame();
    var d: seq<byte> := [0xAD, 0xDC, 0x10, 0x00, 0x00];
    assert FindMagic(d, 0) == Some(0);
    assert d[..4] == BuildCommand(CmdGetInfo, [])[..4];
    ParseRejectsFromMarker(d, 0);
  }

  /** A frame behind one junk byte is refused, although parseResponse would find it. */
  lemma LeadingJunkRefused(command: byte, payload: seq<byte>)
    requires |payload| <= 255
    ensures Exchange([Data([0] + BuildCommand(command, payload))]).0 == Null
  {
  }

  class Link {
    /** Whether device.characteristics.cmd is present. */
    var hasCommand: bool
    /** Whether writeValue rejects. */
    var writeFails: bool
    /** Every frame passed to writeValue, in order. */
    var writes: seq<seq<byte>>
    /** The reads still to come. */
    var script: seq<Read>
    /** Number of readValue calls so far. */
    var readCount: nat

    constructor(hasCommand: bool, writeFails: bool, script: seq<Read>)
      ensures this.hasCommand == hasCommand && this.writeFails == writeFails
      ensures this.script == script && writes == [] && readCount == 0
    {
      this.hasCommand := hasCommand;
      this.writeFails := writeFails;
      this.script := script;
      writes := [];
      readCount := 0;
    }

    /** readValue(): takes the next scripted result; past the end of the script it fails. */
    method ReadValue() returns (r: Read)
      modifies this`script, this`readCount
      ensures r == FirstRead(old(script))
      ensures script == if old(script) == [] then [] else old(script)[1..]
      ensures readCount == old(readCount) + 1
    {
      if script == [] {
        r := Failure;
      } else {
        r := script[0];
        script := script[1..];
      }
      readCount := readCount + 1;
    }

    /**
     * sendCommandStrict(command, payload): throws before any I/O when the
     * command characteristic is missing; otherwise writes the built frame
     * once and settles as Exchange says, consuming that many reads. The
     * delays before each read are not modelled.
     */
    method SendCommandStrict(command: byte, payload: seq<byte>) returns (o: Outcome)
      modifies this`writes, this`script, this`readCount
      ensures !hasCommand ==> o == Thrown && writes == old(writes)
                              && script == old(script) && readCount == old(readCount)
      ensures hasCommand ==> writes == old(writes) + [BuildCommand(command, payload)]
      ensures hasCommand && writeFails ==> o == Thrown && script == old(script) && readCount == old(readCount)
      ensures hasCommand && !writeFails ==>
                var (expected, n) := Exchange(old(script));
                o == expected && readCount == old(readCount) + n
                && script == if n <= |old(script)| then old(script)[n..] else []
    {
      if !hasCommand {
        return Thrown;
      }
      var packet := BuildCommand(command, payload);
      writes := writes + [packet];
      if writeFails {
        return Thrown;
      }
      var response := ReadValue();
      if response.Failure? {
        return Thrown;
      }
      if Accepted(response.bytes) {
        return Frame(response.bytes);
      }
      if response.bytes == [] {
        var retry := ReadValue();
        if retry.Failure? {
          return Thrown;
        }
        if Accepted(retry.bytes) {
          return Frame(retry.bytes);
        }
      }
      return Null;
    }

    /** testCommunication(): GET_INFO, then the reply decoded as DeviceInfoOfReply says. */
    method TestCommunication() returns (info: Option<DeviceInfo>)
      modifies this`writes, this`script, this`readCount
      ensures !hasCommand || writeFails ==> info.None?
      ensures hasCommand ==> writes == old(writes) + [BuildCommand(CmdGetInfo, [])]
      ensures hasCommand && !writeFails ==> info == DeviceInfoOfReply(Exchange(old(script)).0)
    {
      var reply := SendCommandStrict(CmdGetInfo, []);
      info := DeviceInfoOfReply(reply);
    }
  }

  // ---------------------------------------------------------------------
  // Device-info decoding (testCommunication)

  datatype DeviceInfo = DeviceInfo(
    protocolVersion: byte, firmwareMajor: byte, firmwareMinor: byte, firmwarePatch: byte,
    numButtons: byte, batteryLevel: byte, uptimeSeconds: nat, freeHeap: nat, deviceName: string)

  const FallbackName: string := "mDeck"

  /** payload[i] || fallback: a missing byte and a zero byte both give the fallback. */
  function ByteOr(p: seq<byte>, i: nat, fallback: byte): (r: byte)
    ensures i < |p| && p[i] != 0 ==> r == p[i]
    ensures (i >= |p| || p[i] == 0) ==> r == fallback
  {
    if i < |p| && p[i] != 0 then p[i] else fallback
  }

  /** DataView.getUint32(offset, true). */
  function U32LE(p: seq<byte>, offset: nat): (r: nat)
    requires offset + 4 <= |p|
    ensures r < 0x1_0000_0000
  {
    p[offset] as int + 0x100 * p[offset + 1] as int + 0x1_0000 * p[offset + 2] as int + 0x100_0000 * p[offset + 3] as int
  }

  /** TextDecoder on ASCII bytes; a byte of 0x80 or more is read as U+FFFD. */
  function DecodeText(bytes: seq<byte>): (s: string)
    ensures |s| == |bytes|
    ensures forall i :: 0 <= i < |bytes| && bytes[i] < 0x80 ==> s[i] as int == bytes[i]
  {
    seq(|bytes|, i requires 0 <= i < |bytes| => if bytes[i] < 0x80 then bytes[i] as char else 0xFFFD as char)
  }

  predicate IsLineTerminator(c: char)
  {
    c == '\n' || c == '\r' || c as int == 0x2028 || c as int == 0x2029
  }

  predicate NoLineTerminator(s: string)
  {
    forall i :: 0 <= i < |s| ==> !IsLineTerminator(s[i])
  }

  /** s.replace(/\0.*$/, ''): cut at the first NUL after which no line terminator follows. */
  function CutAtNul(s: string): (r: string)
    ensures |r| <= |s| && r == s[..|r|]
    ensures |r| < |s| ==> s[|r|] == '\0' && NoLineTerminator(s[|r| + 1..])
    ensures |r| == |s| ==> forall i :: 0 <= i < |s| && s[i] == '\0' ==> !NoLineTerminator(s[i + 1..])
  {
    if s == [] then []
    else if s[0] == '\0' && NoLineTerminator(s[1..]) then []
    else
      var rest := CutAtNul(s[1..]);
      assert forall i :: 1 <= i < |s| ==> s[i] == s[1..][i - 1] && s[i + 1..] == s[1..][i..];
      [s[0]] + rest
  }

  /** The device_name field as the client reads it: bytes 16..31 of the payload. */
  function NameAt(p: seq<byte>, offset: nat): string
  {
    if |p| > offset then
      var text := CutAtNul(DecodeText(p[offset..if |p| < offset + 16 then |p| else offset + 16]));
      if text == [] then FallbackName else text
    else FallbackName
  }

  /**
   * The DeviceInfo literal of testCommunication built from a payload; None
   * when getUint32 throws a RangeError (a 9- or 13-byte payload).
   */
  function DecodeDeviceInfo(p: seq<byte>): (r: Option<DeviceInfo>)
    ensures r.None? <==> |p| == 9 || |p| == 13
    ensures r.Some? ==> r.value.protocolVersion != 0 && r.value.firmwareMajor != 0
                        && r.value.firmwareMinor != 0 && r.value.numButtons != 0
    ensures r.Some? && |p| <= 16 ==> r.value.deviceName == FallbackName
  {
    if |p| == 9 || |p| == 13 then None
    else Some(DeviceInfo(ByteOr(p, 0, 1), ByteOr(p, 1, 1), ByteOr(p, 2, 2), ByteOr(p, 3, 0),
                         ByteOr(p, 4, 15), ByteOr(p, 5, 0),
                         if |p| > 8 then U32LE(p, 6) else 0,
                         if |p| > 12 then U32LE(p, 10) else 0,
                         NameAt(p, 16)))
  }

  /**
   * The success result of testCommunication for a sendCommandStrict outcome:
   * the reply must parse with error NONE and a payload of at least one byte
   * after the error code; a thrown error or a RangeError gives no info.
   */
  function DeviceInfoOfReply(o: Outcome): (r: Option<DeviceInfo>)
    ensures r.Some? ==> o.Frame? && ParseResponse(o.bytes).Some?
                        && ParseResponse(o.bytes).value.error == ErrNone
                        && ParseResponse(o.bytes).value.payload.Some?
  {
    if !o.Frame? || o.bytes == [] then None
    else match ParseResponse(o.bytes)
      case None => None
      case Some(parsed) =>
        if parsed.error != ErrNone || parsed.payload.None? then None
        else DecodeDeviceInfo(parsed.payload.value)
  }

  /** A reported zero reads back as the fallback: version 1, 1.2 firmware, 15 buttons. */
  lemma ZeroFieldsDefaulted(p: seq<byte>)
    requires |p| >= 6 && |p| != 9 && |p| != 13
    requires p[0] == 0 && p[1] == 0 && p[2] == 0 && p[4] == 0
    ensures var info := DecodeDeviceInfo(p).value;
            info.protocolVersion == 1 && info.firmwareMajor == 1
            && info.firmwareMinor == 2 && info.numButtons == 15
  {
  }

  /** The name decoder at the offset the firmware uses, 14 (see the Findings of the README). */
  function DecodeDeviceInfoAt14(p: seq<byte>): (r: Option<DeviceInfo>)
    ensures r.None? <==> |p| == 9 || |p| == 13
    ensures r.Some? && |p| <= 14 ==> r.value.deviceName == FallbackName
  {
    if |p| == 9 || |p| == 13 then None
    else Some(DeviceInfo(ByteOr(p, 0, 1), ByteOr(p, 1, 1), ByteOr(p, 2, 2), ByteOr(p, 3, 0),
                         ByteOr(p, 4, 15), ByteOr(p, 5, 0),
                         if |p| > 8 then U32LE(p, 6) else 0,
                         if |p| > 12 then U32LE(p, 10) else 0,
                         NameAt(p, 14)))
  }
}
