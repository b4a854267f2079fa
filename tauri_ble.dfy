// The desktop shell's Bluetooth commands (tauri/src-tauri/src/ble.rs): the
// shared connection state, the scan filter, connection and disconnection,
// the status projection, the battery read, and firmware upload in 20-byte
// pieces with progress events. Every call into the Bluetooth stack is an
// outcome given as a parameter; writes and progress events are recorded.
module TauriBle {
  import opened Bytes
  import opened JsText

  /** The error strings of the commands, by kind. */
  datatype BleError =
    | AdapterFailed
    | ScanStartFailed
    | PeripheralsFailed
    | ScanStopFailed
    | PropertiesFailed
    | DeviceNotFound
    | ConnectFailed
    | DiscoverFailed
    | ServicesFailed
    | ServiceNotFound
    | DisconnectFailed
    | NotConnected
    | CharacteristicUnavailable
    | WriteFailed
    | EmitFailed
    | ReadFailed

  datatype Result<T> = Ok(value: T) | Err(error: BleError)

  /** A UUID, by its 128-bit value. */
  type Uuid = nat

  const ServiceUuid: Uuid := 0
  /** CHUNK_SIZE of send_firmware_chunk. */
  const ChunkSize: nat := 20

  /** DeviceInfo of the scan result. */
  datatype DeviceInfo = DeviceInfo(id: string, name: Option<string>)

  /** BleStatus. */
  datatype BleStatus = BleStatus(isConnected: bool, batteryLevel: Option<byte>)

  // ---------------------------------------------------------------------
  // Scan filter

  /** A discovered peripheral: whether properties() succeeds, its local name, and services() (None for an error). */
  datatype Peripheral = Peripheral(id: string, propertiesOk: bool, name: Option<string>, services: Option<seq<Uuid>>)

  /** A peripheral is listed when its name contains "StreamDeck" or it exposes the service. */
  predicate Kept(p: Peripheral)
  {
    (p.name.Some? && Includes(p.name.value, "StreamDeck"))
    || (p.services.Some? && ServiceUuid in p.services.value)
  }

  function InfoOf(p: Peripheral): DeviceInfo
  {
    DeviceInfo(p.id, p.name)
  }

  /** The listed peripherals, in discovery order. */
  function KeptDevices(ps: seq<Peripheral>): seq<DeviceInfo>
  {
    if ps == [] then []
    else KeptDevices(ps[..|ps| - 1]) + (if Kept(ps[|ps| - 1]) then [InfoOf(ps[|ps| - 1])] else [])
  }

  /** Whether properties() succeeds for every peripheral. */
  predicate AllPropertiesOk(ps: seq<Peripheral>)
  {
    forall i :: 0 <= i < |ps| ==> ps[i].propertiesOk
  }

  /** The scan lists exactly the kept peripherals, and none other. */
  lemma {:induction false} KeptDevicesIff(ps: seq<Peripheral>, d: DeviceInfo)
    ensures d in KeptDevices(ps) <==> exists i :: 0 <= i < |ps| && Kept(ps[i]) && InfoOf(ps[i]) == d
  {
    if ps != [] {
      var init := ps[..|ps| - 1];
      KeptDevicesIff(init, d);
      if exists i :: 0 <= i < |ps| && Kept(ps[i]) && InfoOf(ps[i]) == d {
        var i :| 0 <= i < |ps| && Kept(ps[i]) && InfoOf(ps[i]) == d;
        if i < |ps| - 1 {
          assert init[i] == ps[i];
        }
      }
      if d in KeptDevices(init) {
        var i :| 0 <= i < |init| && Kept(init[i]) && InfoOf(init[i]) == d;
        assert ps[i] == init[i];
      }
    }
  }

  /** A name containing "StreamDeck" is listed whatever its services. */
  lemma NamedDeviceKept(id: string, prefix: string, suffix: string, ok: bool, services: Option<seq<Uuid>>)
    ensures Kept(Peripheral(id, ok, Some(prefix + "StreamDeck" + suffix), services))
  {
    var n := prefix + "StreamDeck" + suffix;
    assert OccursAt(n, "StreamDeck", |prefix|) by {
      assert n[|prefix|..|prefix| + 10] == "StreamDeck";
    }
  }

  /** The custom service UUID the firmware registers, 7a0b1000-0000-1000-8000-00805f9b34fb. */
  const FirmwareServiceUuid: Uuid := 0x7a0b1000_0000_1000_8000_00805f9b34fb

  /**
   * The firmware advertises itself as "ArmDeck" with its own service UUID,
   * while the scan looks for "StreamDeck" and the placeholder UUID: the
   * scan never lists it.
   */
  lemma FirmwareDeviceNotListed(id: string, ok: bool)
    ensures !Kept(Peripheral(id, ok, Some("ArmDeck"), Some([FirmwareServiceUuid])))
  {
    assert !Includes("ArmDeck", "StreamDeck") by {
      forall k | OccursAt("ArmDeck", "StreamDeck", k)
        ensures false
      {
      }
    }
  }

  // ---------------------------------------------------------------------
  // Firmware pieces and progress

  /** ceil(n / 20): the number of pieces of an n-byte image. */
  function NumPieces(n: nat): (k: nat)
    ensures k * 20 >= n && (k > 0 ==> (k - 1) * 20 < n)
    ensures n == 0 <==> k == 0
  {
    (n + ChunkSize - 1) / ChunkSize
  }

  function Min(a: nat, b: nat): nat
  {
    if a < b then a else b
  }

  /** Piece i: chunk[i * 20 .. min(i * 20 + 20, len)]. */
  function Piece(chunk: seq<byte>, i: nat): (r: seq<byte>)
    requires i < NumPieces(|chunk|)
    ensures 1 <= |r| <= 20
    ensures i + 1 < NumPieces(|chunk|) ==> |r| == 20
  {
    chunk[i * ChunkSize .. Min(i * ChunkSize + ChunkSize, |chunk|)]
  }

  /** The first k pieces. */
  function Pieces(chunk: seq<byte>, k: nat): (r: seq<seq<byte>>)
    requires k <= NumPieces(|chunk|)
    ensures |r| == k && forall i :: 0 <= i < k ==> r[i] == Piece(chunk, i)
  {
    if k == 0 then [] else Pieces(chunk, k - 1) + [Piece(chunk, k - 1)]
  }

  /** The concatenation of a sequence of pieces, in order. */
  function Flatten(pieces: seq<seq<byte>>): seq<byte>
  {
    if pieces == [] then [] else Flatten(pieces[..|pieces| - 1]) + pieces[|pieces| - 1]
  }

  /** The first k pieces are the first min(20k, len) bytes. */
  lemma {:induction false} PiecesArePrefix(chunk: seq<byte>, k: nat)
    requires k <= NumPieces(|chunk|)
    ensures Flatten(Pieces(chunk, k)) == chunk[..Min(k * 20, |chunk|)]
  {
    if k > 0 {
      PiecesArePrefix(chunk, k - 1);
      assert Pieces(chunk, k)[..k - 1] == Pieces(chunk, k - 1);
      assert (k - 1) * 20 < |chunk|;
    }
  }

  /** All the pieces, in order, are the image: nothing lost, repeated or reordered; an empty image has none. */
  lemma PiecesConcatenate(chunk: seq<byte>)
    ensures Flatten(Pieces(chunk, NumPieces(|chunk|))) == chunk
    ensures chunk == [] <==> NumPieces(|chunk|) == 0
  {
    PiecesArePrefix(chunk, NumPieces(|chunk|));
  }

  /** The progress reported after piece i of n: ((i + 1) * 100) / n. */
  function Percent(i: nat, n: nat): nat
    requires i < n
  {
    ((i + 1) * 100) / n
  }

  /** q * n <= a < q * n + n for the quotient q of a by n. */
  lemma DivBounds(a: nat, n: nat)
    requires n > 0
    ensures (a / n) * n <= a < (a / n) * n + n
  {
  }

  lemma MulMonotone(x: nat, y: nat, n: nat)
    requires x <= y
    ensures x * n <= y * n
  {
  }

  /** x * n < y * n + n only when x <= y. */
  lemma MulCancel(x: nat, y: nat, n: nat)
    ensures x * n < y * n + n ==> x <= y
  {
    if y < x {
      MulMonotone(y + 1, x, n);
      assert (y + 1) * n == y * n + n;
    }
  }

  lemma DivMonotone(a: nat, b: nat, n: nat)
    requires a <= b && n > 0
    ensures a / n <= b / n
  {
    DivBounds(a, n);
    DivBounds(b, n);
    MulCancel(a / n, b / n, n);
  }

  lemma DivExact(q: nat, n: nat)
    requires n > 0
    ensures (q * n) / n == q
  {
    DivBounds(q * n, n);
    MulCancel((q * n) / n, q, n);
    MulCancel(q, (q * n) / n, n);
  }

  /** Progress never decreases and never passes 100, and the last piece reports 100. */
  lemma ProgressMonotone(i: nat, j: nat, n: nat)
    requires i <= j < n
    ensures Percent(i, n) <= Percent(j, n) <= 100
    ensures Percent(n - 1, n) == 100
  {
    MulMonotone(i + 1, j + 1, 100);
    DivMonotone((i + 1) * 100, (j + 1) * 100, n);
    MulMonotone(j + 1, n, 100);
    DivMonotone((j + 1) * 100, n * 100, n);
    DivExact(100, n);
  }

  /** The progress events of the first k pieces of n. */
  function ProgressEvents(k: nat, n: nat): (r: seq<nat>)
    requires k <= n
    ensures |r| == k && forall i :: 0 <= i < k ==> r[i] == Percent(i, n)
  {
    if k == 0 then [] else ProgressEvents(k - 1, n) + [Percent(k - 1, n)]
  }

  /** How far an upload of n pieces gets before its first write or emit failure. */
  function Reached(n: nat, failure: Option<nat>): nat
  {
    if failure.Some? && failure.value < n then failure.value else n
  }

  // ---------------------------------------------------------------------
  // The shared state and the commands

  /** The result of device.read: an error or the bytes read. */
  datatype ReadOutcome = ReadErr | ReadData(data: seq<byte>)

  /** How the peripheral to connect behaves at each step, and which characteristics its service has. */
  datatype Target = Target(
    connectOk: bool, discoverOk: bool, servicesOk: bool, serviceFound: bool,
    keymap: bool, cmd: bool, fwChunk: bool, battery: bool, batteryRead: ReadOutcome)

  /** Which characteristic a write went to. */
  datatype Channel = KeymapChannel | CommandChannel | FirmwareChannel

  datatype Write = Write(channel: Channel, data: seq<byte>)

  /** The first failing step of connect_to_device, in the order it tries them. */
  function ConnectError(hasAdapter: bool, adapterOk: bool, peripheralsOk: bool, found: bool, t: Target): Option<BleError>
  {
    if !hasAdapter && !adapterOk then Some(AdapterFailed)
    else if !peripheralsOk then Some(PeripheralsFailed)
    else if !found then Some(DeviceNotFound)
    else if !t.connectOk then Some(ConnectFailed)
    else if !t.discoverOk then Some(DiscoverFailed)
    else if !t.servicesOk then Some(ServicesFailed)
    else if !t.serviceFound then Some(ServiceNotFound)
    else None
  }

  /** The index of the piece at which an upload of n pieces stops: its first write or emit failure, or n. */
  function UploadStop(n: nat, writeFailure: Option<nat>, emitFailure: Option<nat>): (s: nat)
    ensures s <= n
    ensures s < n <==> (writeFailure.Some? && writeFailure.value < n) || (emitFailure.Some? && emitFailure.value < n)
  {
    Min(Reached(n, writeFailure), Reached(n, emitFailure))
  }

  /**
   * The effect of uploading an image: the pieces before the stopping one
   * are written and reported; at the stopping piece a failing write ends
   * the upload with WriteFailed (a write failure takes precedence over an
   * emit failure at the same piece), and a failing emit ends it with
   * EmitFailed after that piece was written.
   */
  ghost predicate Uploaded(chunk: seq<byte>, writeFailure: Option<nat>, emitFailure: Option<nat>,
                           w0: seq<Write>, p0: seq<nat>, written: seq<Write>, progress: seq<nat>, r: Result<()>)
  {
    var n := NumPieces(|chunk|);
    var stop := UploadStop(n, writeFailure, emitFailure);
    var wrote := if stop < n && writeFailure != Some(stop) then stop + 1 else stop;
    && written == w0 + FirmwareWrites(Pieces(chunk, wrote))
    && progress == p0 + ProgressEvents(stop, n)
    && r == (if stop == n then Ok(()) else if writeFailure == Some(stop) then Err(WriteFailed) else Err(EmitFailed))
  }

  /** The loop of an upload: the first i pieces were written and reported, and none of them failed. */
  ghost predicate UploadProgress(chunk: seq<byte>, writeFailure: Option<nat>, emitFailure: Option<nat>,
                                 w0: seq<Write>, p0: seq<nat>, i: nat, written: seq<Write>, progress: seq<nat>)
  {
    && i <= UploadStop(NumPieces(|chunk|), writeFailure, emitFailure)
    && written == w0 + FirmwareWrites(Pieces(chunk, i))
    && progress == p0 + ProgressEvents(i, NumPieces(|chunk|))
  }

  /** One piece written and reported without failure keeps UploadProgress. */
  lemma UploadStep(chunk: seq<byte>, writeFailure: Option<nat>, emitFailure: Option<nat>,
                   w0: seq<Write>, p0: seq<nat>, i: nat, written: seq<Write>, progress: seq<nat>)
    requires UploadProgress(chunk, writeFailure, emitFailure, w0, p0, i, written, progress)
    requires i < NumPieces(|chunk|) && writeFailure != Some(i) && emitFailure != Some(i)
    ensures UploadProgress(chunk, writeFailure, emitFailure, w0, p0, i + 1,
                           written + [Write(FirmwareChannel, Piece(chunk, i))],
                           progress + [Percent(i, NumPieces(|chunk|))])
  {
    FirmwareWritesAppend(Pieces(chunk, i), Piece(chunk, i));
  }

  /** A failing write or emit at piece i ends the upload as Uploaded says. */
  lemma UploadStops(chunk: seq<byte>, writeFailure: Option<nat>, emitFailure: Option<nat>,
                    w0: seq<Write>, p0: seq<nat>, i: nat, w1: seq<Write>, p1: seq<nat>,
                    written: seq<Write>, progress: seq<nat>, r: Result<()>)
    requires UploadProgress(chunk, writeFailure, emitFailure, w0, p0, i, w1, p1)
    requires i < NumPieces(|chunk|)
    requires || (writeFailure == Some(i) && written == w1 && progress == p1 && r == Err(WriteFailed))
             || (writeFailure != Some(i) && emitFailure == Some(i) && written == w1 + [Write(FirmwareChannel, Piece(chunk, i))]
                 && progress == p1 && r == Err(EmitFailed))
    ensures Uploaded(chunk, writeFailure, emitFailure, w0, p0, written, progress, r)
  {
    FirmwareWritesAppend(Pieces(chunk, i), Piece(chunk, i));
  }

  /** A loop that reached the last piece ends the upload successfully. */
  lemma UploadDone(chunk: seq<byte>, writeFailure: Option<nat>, emitFailure: Option<nat>,
                   w0: seq<Write>, p0: seq<nat>, written: seq<Write>, progress: seq<nat>)
    requires UploadProgress(chunk, writeFailure, emitFailure, w0, p0, NumPieces(|chunk|), written, progress)
    ensures Uploaded(chunk, writeFailure, emitFailure, w0, p0, written, progress, Ok(()))
  {
  }

  /** The battery level a read yields: the first byte of non-empty data. */
  function LevelOf(r: ReadOutcome): (l: Option<byte>)
    ensures l.Some? <==> r.ReadData? && |r.data| > 0
  {
    if r.ReadData? && |r.data| > 0 then Some(r.data[0]) else None
  }

  class BleState {
    var hasAdapter: bool
    /** The stored peripheral, by id. */
    var device: Option<string>
    var keymap: bool
    var cmd: bool
    var fwChunk: bool
    var battery: bool
    var batteryLevel: byte
    /** The writes that succeeded and the progress events emitted. */
    var written: seq<Write>
    var progress: seq<nat>

    /** get_ble_status's projection of the state. */
    function Status(): (s: BleStatus)
      reads this
      ensures s.isConnected <==> device.Some?
      ensures s.batteryLevel.Some? <==> s.isConnected
    {
      BleStatus(device.Some?, if device.Some? then Some(batteryLevel) else None)
    }

    /** BleState::new. */
    constructor()
      ensures !hasAdapter && device == None && !keymap && !cmd && !fwChunk && !battery && batteryLevel == 0
      ensures written == [] && progress == []
      ensures Status() == BleStatus(false, None)
    {
      hasAdapter, device := false, None;
      keymap, cmd, fwChunk, battery, batteryLevel := false, false, false, false, 0;
      written, progress := [], [];
    }

    /** get_ble_status. */
    method GetBleStatus() returns (s: BleStatus)
      ensures s == Status()
    {
      s := BleStatus(device.Some?, if device.Some? then Some(batteryLevel) else None);
    }

    /**
     * scan_for_devices, with adapterOk, startOk, peripheralsOk and stopOk the
     * adapter steps' outcomes and ps the peripherals found: the first
     * failing step's error; otherwise the kept peripherals in order, or
     * PropertiesFailed as soon as one peripheral's properties fail.
     */
    method ScanForDevices(adapterOk: bool, startOk: bool, peripheralsOk: bool, stopOk: bool, ps: seq<Peripheral>)
      returns (r: Result<seq<DeviceInfo>>)
      modifies this`hasAdapter
      ensures hasAdapter == (old(hasAdapter) || adapterOk)
      ensures !old(hasAdapter) && !adapterOk ==> r == Err(AdapterFailed)
      ensures hasAdapter ==>
                r == (if !startOk then Err(ScanStartFailed)
                      else if !peripheralsOk then Err(PeripheralsFailed)
                      else if !stopOk then Err(ScanStopFailed)
                      else if !AllPropertiesOk(ps) then Err(PropertiesFailed)
                      else Ok(KeptDevices(ps)))
    {
      if !hasAdapter {
        if !adapterOk {
          return Err(AdapterFailed);
        }
        hasAdapter := true;
      }
      if !startOk {
        return Err(ScanStartFailed);
      }
      if !peripheralsOk {
        return Err(PeripheralsFailed);
      }
      if !stopOk {
        return Err(ScanStopFailed);
      }
      var devices: seq<DeviceInfo> := [];
      var i := 0;
      while i < |ps|
        invariant 0 <= i <= |ps|
        invariant AllPropertiesOk(ps[..i])
        invariant devices == KeptDevices(ps[..i])
      {
        if !ps[i].propertiesOk {
          return Err(PropertiesFailed);
        }
        assert ps[..i + 1][..i] == ps[..i];
        if Kept(ps[i]) {
          devices := devices + [InfoOf(ps[i])];
        }
        i := i + 1;
      }
      assert ps[..|ps|] == ps;
      return Ok(devices);
    }

    /**
     * connect_to_device: found says whether a peripheral with the id is
     * among those known. The first failing step's error leaves the stored
     * device as it was; otherwise the device and the characteristics the
     * service has are stored, and the battery is read when it has that
     * characteristic, storing and reporting the first byte.
     */
    method ConnectToDevice(deviceId: string, adapterOk: bool, peripheralsOk: bool, found: bool, t: Target)
      returns (r: Result<BleStatus>)
      modifies this
      ensures hasAdapter == (old(hasAdapter) || adapterOk)
      ensures written == old(written) && progress == old(progress)
      ensures var e := ConnectError(old(hasAdapter), adapterOk, peripheralsOk, found, t);
              && (e.Some? ==> r == Err(e.value) && device == old(device) && batteryLevel == old(batteryLevel)
                              && keymap == old(keymap) && cmd == old(cmd) && fwChunk == old(fwChunk) && battery == old(battery))
              && (e.None? ==>
                    var level := if t.battery then LevelOf(t.batteryRead) else None;
                    && device == Some(deviceId) && keymap == t.keymap && cmd == t.cmd && fwChunk == t.fwChunk && battery == t.battery
                    && r == Ok(BleStatus(true, level))
                    && batteryLevel == (if level.Some? then level.value else old(batteryLevel)))
    {
      if !hasAdapter {
        if !adapterOk {
          return Err(AdapterFailed);
        }
        hasAdapter := true;
      }
      if !peripheralsOk {
        return Err(PeripheralsFailed);
      }
      if !found {
        return Err(DeviceNotFound);
      }
      if !t.connectOk {
        return Err(ConnectFailed);
      }
      if !t.discoverOk {
        return Err(DiscoverFailed);
      }
      if !t.servicesOk {
        return Err(ServicesFailed);
      }
      if !t.serviceFound {
        return Err(ServiceNotFound);
      }
      device := Some(deviceId);
      keymap, cmd, fwChunk, battery := t.keymap, t.cmd, t.fwChunk, t.battery;
      var level: Option<byte> := None;
      if battery {
        var read := t.batteryRead;
        if read.ReadData? && |read.data| > 0 {
          batteryLevel := read.data[0];
          level := Some(read.data[0]);
        }
      }
      return Ok(BleStatus(true, level));
    }

    /**
     * disconnect_device: with a device, a failing disconnect is returned
     * and nothing changes; otherwise the device, every characteristic and
     * the battery level are cleared. Without a device it just succeeds.
     */
    method DisconnectDevice(disconnectOk: bool) returns (r: Result<BleStatus>)
      modifies this`device, this`keymap, this`cmd, this`fwChunk, this`battery, this`batteryLevel
      ensures old(device).Some? && !disconnectOk ==>
                r == Err(DisconnectFailed) && device == old(device) && keymap == old(keymap) && cmd == old(cmd)
                && fwChunk == old(fwChunk) && battery == old(battery) && batteryLevel == old(batteryLevel)
      ensures old(device).None? || disconnectOk ==>
                r == Ok(BleStatus(false, None)) && Status() == BleStatus(false, None)
      ensures old(device).Some? && disconnectOk ==>
                !keymap && !cmd && !fwChunk && !battery && batteryLevel == 0
      ensures old(device).None? ==>
                keymap == old(keymap) && cmd == old(cmd) && fwChunk == old(fwChunk) && battery == old(battery)
                && batteryLevel == old(batteryLevel)
    {
      if device.Some? {
        if !disconnectOk {
          return Err(DisconnectFailed);
        }
        device := None;
        keymap, cmd, fwChunk, battery := false, false, false, false;
        batteryLevel := 0;
      }
      return Ok(BleStatus(false, None));
    }

    /** send_keymap and send_command: a write with response on that characteristic, guarded by the device and the characteristic. */
    method SendOn(channel: Channel, data: seq<byte>, writeOk: bool) returns (r: Result<()>)
      requires channel != FirmwareChannel
      modifies this`written
      ensures var present := if channel == KeymapChannel then keymap else cmd;
              && (device.None? ==> r == Err(NotConnected) && written == old(written))
              && (device.Some? && !present ==> r == Err(CharacteristicUnavailable) && written == old(written))
              && (device.Some? && present && !writeOk ==> r == Err(WriteFailed) && written == old(written))
              && (device.Some? && present && writeOk ==> r == Ok(()) && written == old(written) + [Write(channel, data)])
    {
      if device.None? {
        return Err(NotConnected);
      }
      var present := if channel == KeymapChannel then keymap else cmd;
      if !present {
        return Err(CharacteristicUnavailable);
      }
      if !writeOk {
        return Err(WriteFailed);
      }
      written := written + [Write(channel, data)];
      return Ok(());
    }

    /**
     * send_firmware_chunk: pieces of at most 20 bytes are written in order,
     * each followed by its progress event; the first write failure
     * (firstWriteFailure) or emit failure (firstEmitFailure) stops the
     * upload with its error.
     */
    method SendFirmwareChunk(chunk: seq<byte>, firstWriteFailure: Option<nat>, firstEmitFailure: Option<nat>)
      returns (r: Result<()>)
      modifies this`written, this`progress
      ensures device.None? ==> r == Err(NotConnected) && written == old(written) && progress == old(progress)
      ensures device.Some? && !fwChunk ==> r == Err(CharacteristicUnavailable) && written == old(written) && progress == old(progress)
      ensures device.Some? && fwChunk ==>
                Uploaded(chunk, firstWriteFailure, firstEmitFailure, old(written), old(progress), written, progress, r)
    {
      if device.None? {
        return Err(NotConnected);
      }
      if !fwChunk {
        return Err(CharacteristicUnavailable);
      }
      r := UploadPieces(chunk, firstWriteFailure, firstEmitFailure);
    }

    /** The loop of send_firmware_chunk. */
    method UploadPieces(chunk: seq<byte>, firstWriteFailure: Option<nat>, firstEmitFailure: Option<nat>)
      returns (r: Result<()>)
      modifies this`written, this`progress
      ensures Uploaded(chunk, firstWriteFailure, firstEmitFailure, old(written), old(progress), written, progress, r)
    {
      var n := NumPieces(|chunk|);
      ghost var w0, p0 := written, progress;
      var i := 0;
      while i < n
        invariant UploadProgress(chunk, firstWriteFailure, firstEmitFailure, w0, p0, i, written, progress)
      {
        ghost var w1, p1 := written, progress;
        var failed := SendPiece(chunk, i, firstWriteFailure, firstEmitFailure);
        if failed.Some? {
          UploadStops(chunk, firstWriteFailure, firstEmitFailure, w0, p0, i, w1, p1, written, progress, Err(failed.value));
          return Err(failed.value);
        }
        UploadStep(chunk, firstWriteFailure, firstEmitFailure, w0, p0, i, w1, p1);
        i := i + 1;
      }
      UploadDone(chunk, firstWriteFailure, firstEmitFailure, w0, p0, written, progress);
      return Ok(());
    }

    /** One turn of the loop: write piece i, then report its progress; either step can fail. */
    method SendPiece(chunk: seq<byte>, i: nat, writeFailure: Option<nat>, emitFailure: Option<nat>)
      returns (failed: Option<BleError>)
      requires i < NumPieces(|chunk|)
      modifies this`written, this`progress
      ensures failed == (if writeFailure == Some(i) then Some(WriteFailed)
                         else if emitFailure == Some(i) then Some(EmitFailed) else None)
      ensures written == old(written) + (if writeFailure == Some(i) then [] else [Write(FirmwareChannel, Piece(chunk, i))])
      ensures progress == old(progress) + (if failed.None? then [Percent(i, NumPieces(|chunk|))] else [])
    {
      var piece := Piece(chunk, i);
      if writeFailure == Some(i) {
        return Some(WriteFailed);
      }
      written := written + [Write(FirmwareChannel, piece)];
      if emitFailure == Some(i) {
        return Some(EmitFailed);
      }
      progress := progress + [Percent(i, NumPieces(|chunk|))];
      return None;
    }

    /**
     * read_battery_level: without a device or the battery characteristic,
     * no level; a failing read is returned; empty data gives no level;
     * otherwise the first byte is stored and returned.
     */
    method ReadBatteryLevel(read: ReadOutcome) returns (r: Result<Option<byte>>)
      modifies this`batteryLevel
      ensures !(device.Some? && battery) ==> r == Ok(None) && batteryLevel == old(batteryLevel)
      ensures device.Some? && battery && read.ReadErr? ==> r == Err(ReadFailed) && batteryLevel == old(batteryLevel)
      ensures device.Some? && battery && read.ReadData? ==>
                r == Ok(LevelOf(read))
                && batteryLevel == (if LevelOf(read).Some? then LevelOf(read).value else old(batteryLevel))
    {
      if device.Some? && battery {
        if read.ReadErr? {
          return Err(ReadFailed);
        }
        if |read.data| > 0 {
          batteryLevel := read.data[0];
          return Ok(Some(read.data[0]));
        }
        return Ok(None);
      }
      return Ok(None);
    }
  }

  /** The firmware-channel writes of a list of pieces. */
  function FirmwareWrites(pieces: seq<seq<byte>>): (r: seq<Write>)
    ensures |r| == |pieces| && forall i :: 0 <= i < |pieces| ==> r[i] == Write(FirmwareChannel, pieces[i])
  {
    seq(|pieces|, i requires 0 <= i < |pieces| => Write(FirmwareChannel, pieces[i]))
  }

  lemma FirmwareWritesAppend(pieces: seq<seq<byte>>, p: seq<byte>)
    ensures FirmwareWrites(pieces + [p]) == FirmwareWrites(pieces) + [Write(FirmwareChannel, p)]
  {
  }
}
