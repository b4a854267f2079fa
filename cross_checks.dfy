// What each side of the protocol makes of the other's bytes: the web
// client (pwa/src/ble) against the firmware (main/armdeck_protocol.*,
// main/armdeck_service.c).
module CrossChecks {
  import opened Bytes
  import C = ClientConstants
  import F = FwLayout
  import P = FwProtocol
  import PacketCodec
  import Exchanger
  import GattService
  import ButtonCodec
  import Esp
  import JsonStore

  /** Magic bytes, command codes and action types agree value for value. */
  lemma ConstantsAgree()
    ensures C.MagicByte1 == F.MagicByte1 && C.MagicByte2 == F.MagicByte2
    ensures C.CmdGetInfo == F.CmdGetInfo && C.CmdGetConfig == F.CmdGetConfig
    ensures C.CmdSetConfig == F.CmdSetConfig && C.CmdResetConfig == F.CmdResetConfig
    ensures C.CmdGetButton == F.CmdGetButton && C.CmdSetButton == F.CmdSetButton
    ensures C.CmdTestButton == F.CmdTestButton && C.CmdRestart == F.CmdRestart
    ensures C.CmdAck == F.CmdAck && C.CmdNack == F.CmdNack
    ensures C.ActionNone == F.ActionNone && C.ActionKey == F.ActionKey && C.ActionMedia == F.ActionMedia
    ensures C.ActionMacro == F.ActionMacro && C.ActionCustom == F.ActionCustom
    ensures C.ProtocolVersion == F.ProtocolVersion
  {
  }

  /** The client names error codes 0..3 only; the firmware's 4..6 have no client name. */
  lemma ErrorCodesPartlyNamed()
    ensures {C.ErrNone, C.ErrInvalidCmd, C.ErrInvalidParam, C.ErrChecksum}
            == {F.ErrNone, F.ErrInvalidCmd, F.ErrInvalidParam, F.ErrChecksum}
    ensures F.ErrLength !in {C.ErrNone, C.ErrInvalidCmd, C.ErrInvalidParam, C.ErrChecksum}
    ensures F.ErrBusy !in {C.ErrNone, C.ErrInvalidCmd, C.ErrInvalidParam, C.ErrChecksum}
    ensures F.ErrMemory !in {C.ErrNone, C.ErrInvalidCmd, C.ErrInvalidParam, C.ErrChecksum}
  {
  }

  /** The header comment's second magic byte, 0xEC, is not the one either side uses. */
  lemma CommentedMagicDiffers()
    ensures F.CommentedMagicByte2 != F.MagicByte2 && F.CommentedMagicByte2 != C.MagicByte2
  {
  }

  /**
   * The JSON store's READ_CONFIG opcode is the protocol build's RESTART,
   * and its RESET_CONFIG is not the one the client and the protocol build use.
   */
  lemma JsonOpcodesClash()
    ensures JsonStore.CmdReadConfig == F.CmdRestart
    ensures JsonStore.CmdResetConfig != F.CmdResetConfig && JsonStore.CmdResetConfig != C.CmdResetConfig
  {
  }

  /** The firmware parses every client frame with a payload of at most 255 bytes. */
  lemma FirmwareParsesClientFrame(command: byte, payload: seq<byte>)
    requires |payload| <= 255
    ensures P.Parse(PacketCodec.BuildCommand(command, payload))
            == P.Packet(command, |payload|, if |payload| > 0 then Some(payload) else None)
  {
    var frame := PacketCodec.BuildCommand(command, payload);
    assert frame[..|frame| - 1] == [C.MagicByte1, C.MagicByte2, command, |payload| % 256] + payload;
  }

  /** A firmware response frame is exactly a client-built frame whose payload is the error byte and the data. */
  lemma ResponseIsCommandFrame(cmd: byte, error: byte, payload: seq<byte>)
    requires |payload| <= 250
    ensures P.Respond(cmd, error, payload) == PacketCodec.BuildCommand(cmd, [error] + payload)
  {
    var body := [F.MagicByte1, F.MagicByte2, cmd, (1 + |payload|) % 256, error] + payload;
    var header := [C.MagicByte1, C.MagicByte2, cmd, |[error] + payload| % 256] + ([error] + payload);
    assert body == header;
  }

  /** The client parses every response the firmware builds back into its command, error code and data. */
  lemma ClientParsesFirmwareResponse(cmd: byte, error: byte, payload: seq<byte>)
    requires |payload| <= 250
    ensures PacketCodec.ParseResponse(P.Respond(cmd, error, payload))
            == Some(PacketCodec.Parsed(cmd, error, if |payload| > 0 then Some(payload) else None))
  {
    ResponseIsCommandFrame(cmd, error, payload);
    PacketCodec.ParseBuildRoundTrip(cmd, [error] + payload);
    assert ([error] + payload)[1..] == payload;
  }

  /** SET_BUTTON then GET_BUTTON for the same id, both sent as client frames, returns the 16 bytes written. */
  lemma SetThenGetButton(s: P.FwState, record: seq<byte>, uptimeSeconds: u32, freeHeap: u32)
    requires F.WellFormedConfig(s.config) && |record| == F.ButtonSize && record[0] < 12
    ensures var s1 := P.Dispatch(s, PacketCodec.BuildCommand(F.CmdSetButton, record), uptimeSeconds, freeHeap).state;
            var r := P.Dispatch(s1, PacketCodec.BuildCommand(F.CmdGetButton, [record[0]]), uptimeSeconds, freeHeap);
            r.ret == Esp.EspOk && r.response == P.Respond(F.CmdGetButton, F.ErrNone, record)
  {
    var setFrame := PacketCodec.BuildCommand(F.CmdSetButton, record);
    FirmwareParsesClientFrame(F.CmdSetButton, record);
    FirmwareParsesClientFrame(F.CmdGetButton, [record[0]]);
    P.SetButtonEffect(s, setFrame, uptimeSeconds, freeHeap);
  }

  /** The record the client encodes is read by the firmware field for field as an armdeck_button_t. */
  lemma ClientRecordIsFirmwareButton(b: ButtonCodec.ButtonConfig, index: int)
    requires ButtonCodec.BuildButtonPayload(b, index).Some?
    ensures var p := ButtonCodec.BuildButtonPayload(b, index).value;
            var fw := F.UnpackButton(p);
            fw.id == index % 256 && (fw.actionType, fw.keyCode) == ButtonCodec.ActionCode(b.action)
            && fw.modifier == 0 && fw.reserved == 0 && fw.text == p[8..]
  {
  }

  /** The client's default-button colour #607D8B is the firmware's default blue-grey 60 7D 8B. */
  lemma DefaultColourAgrees()
    ensures ButtonCodec.DefaultColor == "#607D8B"
    ensures var d := P.DefaultButtons()[7]; d.r == 0x60 && d.g == 0x7D && d.b == 0x8B
  {
  }

  // ---------------------------------------------------------------------
  // The device name offset

  function InfoPayload(uptimeSeconds: u32, freeHeap: u32): (p: seq<byte>)
    ensures |p| == 30
  {
    F.PackDeviceInfo(P.InfoOf(uptimeSeconds, freeHeap))
  }

  lemma InfoPayloadBytes(uptimeSeconds: u32, freeHeap: u32)
    ensures var p := InfoPayload(uptimeSeconds, freeHeap);
            p[..6] == [1, 1, 2, 0, 12, 100]
            && p[14..21] == [0x41, 0x72, 0x6D, 0x44, 0x65, 0x63, 0x6B]
            && forall i :: 21 <= i < 30 ==> p[i] == 0
  {
  }

  /** Decoding ASCII bytes followed by NUL bytes gives the characters followed by NULs. */
  lemma DecodeAsciiNul(b: seq<byte>, text: string)
    requires |text| <= |b| && forall i :: 0 <= i < |text| ==> text[i] as int == b[i] < 0x80
    requires forall i :: |text| <= i < |b| ==> b[i] == 0
    ensures Exchanger.DecodeText(b) == text + seq(|b| - |text|, _ => '\0')
  {
    var t := Exchanger.DecodeText(b);
    var u := text + seq(|b| - |text|, _ => '\0');
    assert forall i :: 0 <= i < |b| ==> t[i] == u[i];
  }

  /** The name bytes decoded from offset 16: "mDeck" followed by NULs. */
  lemma NameFrom16(p: seq<byte>)
    requires |p| == 30 && p[14..21] == [0x41, 0x72, 0x6D, 0x44, 0x65, 0x63, 0x6B]
    requires forall i :: 21 <= i < 30 ==> p[i] == 0
    ensures Exchanger.NameAt(p, 16) == "mDeck"
  {
    var b := p[16..30];
    assert b[..5] == p[14..21][2..];
    DecodeAsciiNul(b, "mDeck");
    NulTail("mDeck", 9);
  }

  /** The name bytes decoded from offset 14: "ArmDeck". */
  lemma NameFrom14(p: seq<byte>)
    requires |p| == 30 && p[14..21] == [0x41, 0x72, 0x6D, 0x44, 0x65, 0x63, 0x6B]
    requires forall i :: 21 <= i < 30 ==> p[i] == 0
    ensures Exchanger.NameAt(p, 14) == "ArmDeck"
  {
    var b := p[14..30];
    assert b[..7] == p[14..21];
    DecodeAsciiNul(b, "ArmDeck");
    NulTail("ArmDeck", 9);
  }

  /** Cutting text free of NULs followed by n >= 1 NULs gives the text. */
  lemma {:induction false} NulTail(text: string, n: nat)
    requires n >= 1 && forall i :: 0 <= i < |text| ==> text[i] != '\0'
    ensures Exchanger.CutAtNul(text + seq(n, _ => '\0')) == text
  {
    var s := text + seq(n, _ => '\0');
    if text == [] {
      assert s[0] == '\0' && Exchanger.NoLineTerminator(s[1..]);
    } else {
      assert s[1..] == text[1..] + seq(n, _ => '\0');
      NulTail(text[1..], n);
    }
  }

  /** The numeric fields of the info payload, read little-endian where the firmware wrote them. */
  lemma InfoPayloadNumbers(uptimeSeconds: u32, freeHeap: u32)
    ensures var p := InfoPayload(uptimeSeconds, freeHeap);
            Exchanger.U32LE(p, 6) == uptimeSeconds && Exchanger.U32LE(p, 10) == freeHeap
  {
    var p := InfoPayload(uptimeSeconds, freeHeap);
    assert p[6..10] == F.U32Bytes(uptimeSeconds) && p[10..14] == F.U32Bytes(freeHeap);
    assert p[6] == p[6..10][0] && p[7] == p[6..10][1] && p[8] == p[6..10][2] && p[9] == p[6..10][3];
    assert p[10] == p[10..14][0] && p[11] == p[10..14][1] && p[12] == p[10..14][2] && p[13] == p[10..14][3];
  }

  /** The client's decoding of the firmware's 30-byte info payload: numbers intact, name "mDeck". */
  lemma InfoPayloadDecoded(uptimeSeconds: u32, freeHeap: u32)
    ensures Exchanger.DecodeDeviceInfo(InfoPayload(uptimeSeconds, freeHeap))
            == Some(Exchanger.DeviceInfo(1, 1, 2, 0, 12, 100, uptimeSeconds, freeHeap, "mDeck"))
  {
    var p := InfoPayload(uptimeSeconds, freeHeap);
    InfoPayloadBytes(uptimeSeconds, freeHeap);
    InfoPayloadNumbers(uptimeSeconds, freeHeap);
    assert p[0] == 1 && p[1] == 1 && p[2] == 2 && p[3] == 0 && p[4] == 12 && p[5] == 100 by {
      assert p[..6] == [1, 1, 2, 0, 12, 100];
    }
    NameFrom16(p);
  }

  /**
   * GET_INFO as the client sees it: the reply parses, every numeric field
   * survives (the firmware reports 12 buttons), and the name reads "mDeck"
   * because the client looks 2 bytes past where the firmware puts it.
   */
  lemma GetInfoAsDecoded(uptimeSeconds: u32, freeHeap: u32)
    ensures var reply := P.Respond(F.CmdGetInfo, F.ErrNone, InfoPayload(uptimeSeconds, freeHeap));
            Exchanger.DeviceInfoOfReply(Exchanger.Frame(reply))
            == Some(Exchanger.DeviceInfo(1, 1, 2, 0, 12, 100, uptimeSeconds, freeHeap, "mDeck"))
  {
    var p := InfoPayload(uptimeSeconds, freeHeap);
    ClientParsesFirmwareResponse(F.CmdGetInfo, F.ErrNone, p);
    InfoPayloadDecoded(uptimeSeconds, freeHeap);
  }

  /** Read at offset 14, the same payload yields the name the firmware sends. */
  lemma GetInfoDecodedAt14(uptimeSeconds: u32, freeHeap: u32)
    ensures Exchanger.DecodeDeviceInfoAt14(InfoPayload(uptimeSeconds, freeHeap))
            == Some(Exchanger.DeviceInfo(1, 1, 2, 0, 12, 100, uptimeSeconds, freeHeap, "ArmDeck"))
  {
    var p := InfoPayload(uptimeSeconds, freeHeap);
    InfoPayloadBytes(uptimeSeconds, freeHeap);
    InfoPayloadNumbers(uptimeSeconds, freeHeap);
    assert p[0] == 1 && p[1] == 1 && p[2] == 2 && p[3] == 0 && p[4] == 12 && p[5] == 100 by {
      assert p[..6] == [1, 1, 2, 0, 12, 100];
    }
    NameFrom14(p);
  }

  // ---------------------------------------------------------------------
  // The fallback NACK

  /**
   * The fallback NACK passes sendCommandStrict's validity test but
   * parseResponse rejects it, so the client reports no reply at all.
   */
  lemma FallbackNackRejected()
    ensures Exchanger.Accepted(GattService.FallbackNack)
    ensures PacketCodec.ParseResponse(GattService.FallbackNack).None?
  {
    var d := GattService.FallbackNack;
    GattService.FallbackNackChecksum();
    assert PacketCodec.FindMagic(d, 0) == Some(0);
    assert d[0..0 + 4 + d[3]] == d[..5];
    PacketCodec.ParseRejectsFromMarker(d, 0);
  }

  /** The frame the dispatcher itself builds for an invalid command parses as NACK with ERR_INVALID_CMD. */
  lemma CorrectedNackParsed()
    ensures PacketCodec.ParseResponse(P.InvalidCommandNack())
            == Some(PacketCodec.Parsed(C.CmdNack, C.ErrInvalidCmd, None))
  {
    ClientParsesFirmwareResponse(F.CmdNack, F.ErrInvalidCmd, []);
  }
}
