// The web client's frame codec (pwa/src/ble/utils.ts): a command frame is
//   AD DC <command> <length> <payload...> <checksum>
// where the checksum is the XOR of every byte before it.
module PacketCodec {
  import opened Bytes
  import opened ClientConstants

  /** ParsedResponse: `error` is the first body byte, `payload` the rest (undefined when empty). */
  datatype Parsed = Parsed(command: byte, error: byte, payload: Option<seq<byte>>)

  /**
   * buildCommand(command, payload). The length byte is stored into a
   * Uint8Array, so a payload of 256 bytes or more has its length truncated
   * modulo 256 while the whole payload is still copied.
   */
  function BuildCommand(command: byte, payload: seq<byte>): (frame: seq<byte>)
    ensures |frame| == |payload| + 5
    ensures frame[..4] == [MagicByte1, MagicByte2, command, |payload| % 256]
    ensures frame[4..|frame| - 1] == payload
  {
    var header := [MagicByte1, MagicByte2, command, |payload| % 256] + payload;
    header + [XorAll(header)]
  }

  /** The XOR of every byte of a built frame, checksum included, is 0. */
  lemma BuildCommandXorsToZero(command: byte, payload: seq<byte>)
    ensures XorAll(BuildCommand(command, payload)) == 0
  {
    XorAllWithSum([MagicByte1, MagicByte2, command, |payload| % 256] + payload);
  }

  predicate MagicAt(data: seq<byte>, i: nat)
  {
    i + 1 < |data| && data[i] == MagicByte1 && data[i + 1] == MagicByte2
  }

  /** The scan loop of parseResponse: the first i in [from, |data| - 4] where AD DC starts. */
  function FindMagic(data: seq<byte>, from: nat): (r: Option<nat>)
    ensures r.Some? ==> from <= r.value && r.value + 4 <= |data| && MagicAt(data, r.value)
    ensures r.Some? ==> forall i :: from <= i < r.value ==> !MagicAt(data, i)
    ensures r.None? ==> forall i :: from <= i && i + 4 <= |data| ==> !MagicAt(data, i)
    decreases |data| - from
  {
    if from + 4 > |data| then None
    else if MagicAt(data, from) then Some(from)
    else FindMagic(data, from + 1)
  }

  /** A frame at s: magic, enough bytes for its declared length, and a matching checksum. */
  predicate FrameAt(data: seq<byte>, s: nat)
  {
    s + 5 <= |data| && MagicAt(data, s)
    && s + 5 + data[s + 3] <= |data|
    && data[s + 4 + data[s + 3]] == XorAll(data[s..s + 4 + data[s + 3]])
  }

  /** parseResponse(data); None stands for null. */
  function ParseResponse(data: seq<byte>): (r: Option<Parsed>)
    ensures r.Some? ==> exists s :: FrameAt(data, s) && r.value.command == data[s + 2]
    ensures r.Some? && r.value.payload.Some? ==> 1 <= |r.value.payload.value| <= 254
  {
    if |data| < 5 then None
    else match FindMagic(data, 0)
      case None => None
      case Some(start) =>
        var adjusted := data[start..];
        if |adjusted| < 5 then None
        else
          var length: int := adjusted[3];
          var expected := 4 + length + 1;
          if |adjusted| < expected then None
          else
            var response := adjusted[..expected];
            if response[expected - 1] != XorAll(response[..expected - 1]) then None
            else
              assert response == data[start..start + expected];
              assert response[..expected - 1] == data[start..start + expected - 1];
              assert FrameAt(data, start);
              Some(Parsed(adjusted[2], response[4],
                          if length > 1 then Some(response[5..4 + length]) else None))
  }

  /** parseResponse returns null on fewer than 5 bytes or when no AD DC starts at an index <= length - 4. */
  lemma ParseRejectsShortOrUnmarked(data: seq<byte>)
    requires |data| < 5 || forall i: nat :: i + 4 <= |data| ==> !MagicAt(data, i)
    ensures ParseResponse(data).None?
  {
  }

  /**
   * From the first marker on, parseResponse returns null when fewer than 5
   * bytes remain, when fewer than 4 + length + 1 remain, or when the
   * checksum byte differs from the XOR of the bytes before it.
   */
  lemma ParseRejectsFromMarker(data: seq<byte>, s: nat)
    requires |data| >= 5 && FindMagic(data, 0) == Some(s)
    requires |data| - s < 5 || |data| - s < 5 + data[s + 3] as int
             || data[s + 4 + data[s + 3]] != XorAll(data[s..s + 4 + data[s + 3]])
    ensures ParseResponse(data).None?
  {
    if 5 <= |data| - s && s + 5 + data[s + 3] <= |data| {
      ResponseSlices(data, s, s + 5 + data[s + 3]);
    }
  }

  /** The response cut from the marker on: its last byte and the bytes before it. */
  lemma ResponseSlices(data: seq<byte>, s: nat, e: nat)
    requires s < e <= |data|
    ensures data[s..][..e - s][e - s - 1] == data[e - 1]
    ensures data[s..][..e - s][..e - s - 1] == data[s..e - 1]
  {
  }

  /**
   * Round trip: a frame built with a 1..255-byte payload parses back to its
   * command, the payload's first byte as the error code, and the remaining
   * bytes as payload (undefined when there are none).
   */
  lemma ParseBuildRoundTrip(command: byte, payload: seq<byte>)
    requires 1 <= |payload| <= 255
    ensures ParseResponse(BuildCommand(command, payload))
            == Some(Parsed(command, payload[0], if |payload| > 1 then Some(payload[1..]) else None))
  {
    var frame := BuildCommand(command, payload);
    assert MagicAt(frame, 0);
    assert frame[..|frame| - 1] == [MagicByte1, MagicByte2, command, |payload| % 256] + payload;
    assert frame[0..][..|frame|] == frame;
    if |payload| > 1 {
      assert frame[5..4 + |payload|] == payload[1..];
    }
  }

  /** With an empty payload the "error" field is the checksum byte itself. */
  lemma ParseEmptyPayload(command: byte)
    ensures ParseResponse(BuildCommand(command, []))
            == Some(Parsed(command, XorAll([MagicByte1, MagicByte2, command, 0]), None))
  {
    var frame := BuildCommand(command, []);
    assert MagicAt(frame, 0);
    assert frame[..4] == [MagicByte1, MagicByte2, command, 0];
    assert frame[0..][..5] == frame;
  }

  /** buildCommand(GET_INFO) = AD DC 10 00 61. */
  lemma GetInfoFrame()
    ensures BuildCommand(CmdGetInfo, []) == [0xAD, 0xDC, 0x10, 0x00, 0x61]
  {
    var h: seq<byte> := [0xAD, 0xDC, 0x10, 0x00];
    assert h[..3] == [0xAD, 0xDC, 0x10] && h[..3][..2] == [0xAD, 0xDC] && h[..3][..2][..1] == [0xAD];
    assert XorAll(h[..3][..2][..1]) == Xor(0, 0xAD) == 0xAD;
    assert XorAll(h[..3][..2]) == Xor(0xAD, 0xDC) == 0x71;
    assert XorAll(h[..3]) == Xor(0x71, 0x10) == 0x61;
    assert XorAll(h) == Xor(0x61, 0x00) == 0x61;
  }

  /**
   * Any single byte of a built frame other than the magic and length bytes
   * (that is, the command, a payload byte or the checksum) replaced by a
   * different value makes parseResponse return null.
   */
  lemma CorruptedFrameRejected(command: byte, payload: seq<byte>, k: nat, x: byte)
    requires |payload| <= 255
    requires k == 2 || 4 <= k < |payload| + 5
    requires x != BuildCommand(command, payload)[k]
    ensures ParseResponse(BuildCommand(command, payload)[k := x]).None?
  {
    var frame := BuildCommand(command, payload);
    var bad := frame[k := x];
    var n := |frame| - 1;
    assert bad[3] == |payload| && 4 + bad[3] == n;
    assert MagicAt(bad, 0);
    assert FindMagic(bad, 0) == Some(0);
    assert frame[n] == XorAll(frame[..n]);
    assert bad[0..n] == bad[..n];
    if k < n {
      assert bad[..n] == frame[..n][k := x];
      XorAllUpdate(frame[..n], k, x);
    } else {
      assert bad[..n] == frame[..n];
    }
    ParseRejectsFromMarker(bad, 0);
  }

  predicate NoMagicBefore(data: seq<byte>, n: nat)
  {
    forall i :: 0 <= i < n ==> !MagicAt(data, i)
  }

  lemma {:induction false} FindMagicShift(junk: seq<byte>, rest: seq<byte>, from: nat)
    requires from <= |junk|
    requires forall i :: from <= i < |junk| ==> !MagicAt(junk + rest, i)
    requires |rest| >= 4 && MagicAt(rest, 0)
    ensures FindMagic(junk + rest, from) == Some(|junk|)
    decreases |junk| - from
  {
    if from < |junk| {
      FindMagicShift(junk, rest, from + 1);
    }
  }

  /**
   * parseResponse anchors on the first AD DC: bytes before a frame that
   * contain no AD DC pair (including one straddling into the frame) are
   * skipped, and bytes after the frame's declared end are ignored.
   */
  lemma JunkAndTrailingIgnored(junk: seq<byte>, frame: seq<byte>, trailing: seq<byte>)
    requires |frame| >= 5 && MagicAt(frame, 0) && |frame| == 5 + frame[3] as int
    requires forall i :: 0 <= i < |junk| ==> !MagicAt(junk + frame + trailing, i)
    ensures ParseResponse(junk + frame + trailing) == ParseResponse(frame)
  {
    var data := junk + frame + trailing;
    assert data == junk + (frame + trailing);
    FindMagicShift(junk, frame + trailing, 0);
    assert data[|junk|..] == frame + trailing;
    assert (frame + trailing)[..|frame|] == frame;
    assert frame[0..] == frame && frame[..|frame|] == frame;
    assert FindMagic(frame, 0) == Some(0);
  }
}
