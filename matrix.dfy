// The 3x4 button matrix of the protocol build (main/button_matrix.c): a
// two-step debounce over three per-button arrays, the scan-task flags, and
// the event callback. GPIO levels and the millisecond clock are inputs of
// a scan; the callback's invocations are recorded in order.
module Matrix {
  import opened Bytes
  import opened Esp

  const MatrixRows: nat := 3
  const MatrixCols: nat := 4
  const TotalButtons: nat := 12
  const DebounceDelayMs: nat := 50

  /** uint32_t subtraction: current_time - last_change wraps modulo 2^32. */
  function Elapsed(now: u32, since: u32): u32
  {
    (now - since) % 0x1_0000_0000
  }

  /** One button's debounce record: the debounced state, the last raw reading, and when that reading began. */
  datatype Track = Track(state: bool, last: bool, lastChange: u32)

  /** A callback invocation: button id and new state. */
  datatype Event = Event(id: nat, pressed: bool)

  /** What one scan does to one button: its new record, and whether the callback fires. */
  datatype Outcome = Outcome(track: Track, fires: bool)

  /**
   * The debounce step of scan_matrix: a reading that differs from the last
   * raw reading is only recorded with its time; a reading that has been
   * stable for more than DEBOUNCE_DELAY_MS and differs from the debounced
   * state becomes the debounced state and fires.
   */
  function Step(t: Track, reading: bool, now: u32): Outcome
  {
    if reading != t.last then Outcome(Track(t.state, reading, now), false)
    else if Elapsed(now, t.lastChange) > DebounceDelayMs && reading != t.state then
      Outcome(Track(reading, t.last, t.lastChange), true)
    else Outcome(t, false)
  }

  /** The callback fires exactly when the reading repeats the last one, has lasted over 50 ms, and is news. */
  lemma StepFiresIff(t: Track, reading: bool, now: u32)
    ensures Step(t, reading, now).fires
            <==> reading == t.last && Elapsed(now, t.lastChange) > DebounceDelayMs && reading != t.state
  {
  }

  /** The debounced state changes exactly when the callback fires, and then it becomes the reading. */
  lemma StepStateChangesIffFires(t: Track, reading: bool, now: u32)
    ensures var o := Step(t, reading, now);
            (o.track.state != t.state <==> o.fires) && (o.fires ==> o.track.state == reading)
  {
  }

  /** A reading that differs from the last one only restarts the clock: no event, state kept. */
  lemma NewReadingOnlyRecorded(t: Track, reading: bool, now: u32)
    requires reading != t.last
    ensures Step(t, reading, now) == Outcome(Track(t.state, reading, now), false)
  {
  }

  /**
   * A press needs two scans: from a record whose last reading was "released",
   * one pressed reading never fires, whatever the time; a second one more
   * than 50 ms later does.
   */
  lemma PressNeedsTwoScans(t: Track, now1: u32, now2: u32)
    requires !t.last && !t.state
    requires Elapsed(now2, now1) > DebounceDelayMs
    ensures !Step(t, true, now1).fires
    ensures Step(Step(t, true, now1).track, true, now2).fires
  {
  }

  /** The callback invocation one button's step makes, if any. */
  function StepEvents(t: Track, id: nat, reading: bool, now: u32): seq<Event>
  {
    if Step(t, reading, now).fires then [Event(id, reading)] else []
  }

  /** The invocations that happen: all of them with a callback installed, none without. */
  function Delivered(hasCallback: bool, events: seq<Event>): seq<Event>
  {
    if hasCallback then events else []
  }

  lemma DeliveredAppend(hasCallback: bool, a: seq<Event>, b: seq<Event>)
    ensures Delivered(hasCallback, a + b) == Delivered(hasCallback, a) + Delivered(hasCallback, b)
  {
  }

  /** The callback invocations of a scan for buttons 0..n-1, in id order. */
  function ScanEvents(tracks: seq<Track>, readings: seq<bool>, now: u32, n: nat): seq<Event>
    requires n <= |tracks| && n <= |readings|
  {
    if n == 0 then []
    else ScanEvents(tracks, readings, now, n - 1) + StepEvents(tracks[n - 1], n - 1, readings[n - 1], now)
  }

  /** Every event of a scan names a button below n whose debounced state it sets. */
  lemma {:induction false} ScanEventsSound(tracks: seq<Track>, readings: seq<bool>, now: u32, n: nat)
    requires n <= |tracks| && n <= |readings|
    ensures forall e :: e in ScanEvents(tracks, readings, now, n) ==>
              e.id < n && Step(tracks[e.id], readings[e.id], now).fires && e.pressed == readings[e.id]
  {
    if n > 0 {
      ScanEventsSound(tracks, readings, now, n - 1);
    }
  }

  /** A button fires in a scan iff its step fires: no event is lost or invented. */
  lemma {:induction false} ScanEventsComplete(tracks: seq<Track>, readings: seq<bool>, now: u32, n: nat, id: nat)
    requires n <= |tracks| && n <= |readings| && id < n
    ensures Event(id, readings[id]) in ScanEvents(tracks, readings, now, n) <==> Step(tracks[id], readings[id], now).fires
  {
    ScanEventsSound(tracks, readings, now, n);
    if id < n - 1 {
      ScanEventsComplete(tracks, readings, now, n - 1, id);
    }
  }

  class ButtonMatrix {
    const states: array<bool>
    const lastStates: array<bool>
    const lastChange: array<u32>
    /** scan_task_handle != NULL. */
    var taskRunning: bool
    var scanningEnabled: bool
    /** event_callback != NULL. */
    var hasCallback: bool
    /** The callback invocations so far. */
    var events: seq<Event>

    ghost predicate Valid()
      reads this
    {
      states.Length == TotalButtons && lastStates.Length == TotalButtons && lastChange.Length == TotalButtons
      && states != lastStates
    }

    /** The debounce record of button i. */
    function TrackOf(i: nat): Track
      requires Valid() && i < TotalButtons
      reads this, states, lastStates, lastChange
    {
      Track(states[i], lastStates[i], lastChange[i])
    }

    /** All twelve records, by id. */
    function Tracks(): (ts: seq<Track>)
      requires Valid()
      reads this, states, lastStates, lastChange
      ensures |ts| == TotalButtons && forall i :: 0 <= i < TotalButtons ==> ts[i] == TrackOf(i)
    {
      seq(TotalButtons, i requires 0 <= i < TotalButtons reads this, states, lastStates, lastChange => TrackOf(i))
    }

    /** The static zero-initialised arrays and flags. */
    constructor()
      ensures Valid() && fresh(states) && fresh(lastStates) && fresh(lastChange)
      ensures forall i :: 0 <= i < TotalButtons ==> TrackOf(i) == Track(false, false, 0)
      ensures !taskRunning && !scanningEnabled && !hasCallback && events == []
    {
      states := new bool[TotalButtons](_ => false);
      lastStates := new bool[TotalButtons](_ => false);
      lastChange := new u32[TotalButtons](_ => 0);
      taskRunning, scanningEnabled, hasCallback, events := false, false, false, [];
    }

    /** armdeck_matrix_init: every record back to released, released, 0. */
    method Init() returns (ret: EspErr)
      requires Valid()
      modifies states, lastStates, lastChange
      ensures Valid() && ret == EspOk
      ensures forall i :: 0 <= i < TotalButtons ==> TrackOf(i) == Track(false, false, 0)
    {
      var i := 0;
      while i < TotalButtons
        invariant 0 <= i <= TotalButtons && Valid()
        invariant forall k :: 0 <= k < i ==> !states[k] && !lastStates[k] && lastChange[k] == 0
      {
        states[i] := false;
        lastStates[i] := false;
        lastChange[i] := 0;
        i := i + 1;
      }
      return EspOk;
    }

    /** armdeck_matrix_set_callback, with NULL as false. */
    method SetCallback(present: bool)
      modifies this`hasCallback
      ensures hasCallback == present
    {
      hasCallback := present;
    }

    /** The body of the column loop for one button: one debounce step, and the callback if it fires. */
    method StepButton(id: nat, current: bool, now: u32)
      requires Valid() && id < TotalButtons
      modifies states, lastStates, lastChange, this`events
      ensures Valid()
      ensures TrackOf(id) == Step(old(TrackOf(id)), current, now).track
      ensures forall i :: 0 <= i < TotalButtons && i != id ==> TrackOf(i) == old(TrackOf(i))
      ensures events == old(events) + Delivered(hasCallback, StepEvents(old(TrackOf(id)), id, current, now))
    {
      if current != lastStates[id] {
        lastChange[id] := now;
        lastStates[id] := current;
      } else if Elapsed(now, lastChange[id]) > DebounceDelayMs {
        if current != states[id] {
          states[id] := current;
          if hasCallback {
            events := events + [Event(id, current)];
          }
        }
      }
    }

    /**
     * Where a scan stands once the buttons below k have been visited: those
     * took their debounce step from t0, the others still hold t0, and the
     * callback received their events after e0.
     */
    ghost predicate ScannedUpTo(t0: seq<Track>, pressed: seq<bool>, now: u32, e0: seq<Event>, k: nat)
      reads this, states, lastStates, lastChange
    {
      && Valid() && |t0| == TotalButtons && |pressed| == TotalButtons && k <= TotalButtons
      && (forall i :: 0 <= i < k ==> TrackOf(i) == Step(t0[i], pressed[i], now).track)
      && (forall i :: k <= i < TotalButtons ==> TrackOf(i) == t0[i])
      && events == e0 + Delivered(hasCallback, ScanEvents(t0, pressed, now, k))
    }

    /** Visiting button id of a scan advances it by one button. */
    method ScanButton(id: nat, now: u32, pressed: seq<bool>, ghost t0: seq<Track>, ghost e0: seq<Event>)
      requires id < TotalButtons && ScannedUpTo(t0, pressed, now, e0, id)
      modifies states, lastStates, lastChange, this`events
      ensures ScannedUpTo(t0, pressed, now, e0, id + 1)
    {
      ghost var before := ScanEvents(t0, pressed, now, id);
      ghost var step := StepEvents(t0[id], id, pressed[id], now);
      assert ScanEvents(t0, pressed, now, id + 1) == before + step;
      assert TrackOf(id) == t0[id];
      StepButton(id, pressed[id], now);
      DeliveredAppend(hasCallback, before, step);
    }

    /**
     * scan_matrix at time now, with pressed[id] the level read for button
     * id (row * MATRIX_COLS + col, always below TOTAL_BUTTONS): every record
     * takes one debounce step, and the callback, when set, receives the
     * firing buttons in id order.
     */
    method Scan(now: u32, pressed: seq<bool>)
      requires Valid() && |pressed| == TotalButtons
      modifies states, lastStates, lastChange, this`events
      ensures Valid()
      ensures forall i :: 0 <= i < TotalButtons ==> TrackOf(i) == Step(old(TrackOf(i)), pressed[i], now).track
      ensures events == old(events) + Delivered(hasCallback, ScanEvents(old(Tracks()), pressed, now, TotalButtons))
    {
      ghost var t0 := Tracks();
      ghost var e0 := events;
      var row := 0;
      ghost var base := 0;
      while row < MatrixRows
        invariant 0 <= row <= MatrixRows && base == row * MatrixCols
        invariant ScannedUpTo(t0, pressed, now, e0, base)
      {
        var col := 0;
        while col < MatrixCols
          invariant 0 <= col <= MatrixCols
          invariant ScannedUpTo(t0, pressed, now, e0, base + col)
        {
          var id := row * MatrixCols + col;
          assert id == base + col;
          ScanButton(id, now, pressed, t0, e0);
          col := col + 1;
        }
        row := row + 1;
        base := base + MatrixCols;
      }
    }

    /** armdeck_matrix_start: refused while a task exists; a failed task creation clears scanning_enabled again. */
    method Start(taskCreated: bool) returns (ret: EspErr)
      modifies this`taskRunning, this`scanningEnabled
      ensures old(taskRunning) ==> ret == EspErrInvalidState && taskRunning && scanningEnabled == old(scanningEnabled)
      ensures !old(taskRunning) && taskCreated ==> ret == EspOk && taskRunning && scanningEnabled
      ensures !old(taskRunning) && !taskCreated ==> ret == EspFail && !taskRunning && !scanningEnabled
    {
      if taskRunning {
        return EspErrInvalidState;
      }
      scanningEnabled := true;
      if !taskCreated {
        scanningEnabled := false;
        return EspFail;
      }
      taskRunning := true;
      return EspOk;
    }

    /** armdeck_matrix_stop: refused without a task; otherwise scanning stops and the handle is cleared. */
    method Stop() returns (ret: EspErr)
      modifies this`taskRunning, this`scanningEnabled
      ensures !old(taskRunning) ==> ret == EspErrInvalidState && !taskRunning && scanningEnabled == old(scanningEnabled)
      ensures old(taskRunning) ==> ret == EspOk && !taskRunning && !scanningEnabled
    {
      if !taskRunning {
        return EspErrInvalidState;
      }
      scanningEnabled := false;
      taskRunning := false;
      return EspOk;
    }

    /** armdeck_matrix_get_button_state: false out of range, the debounced state otherwise. */
    method GetButtonState(id: byte) returns (pressed: bool)
      requires Valid()
      ensures pressed <==> id < TotalButtons && states[id]
    {
      if id >= TotalButtons {
        return false;
      }
      return states[id];
    }

    /** armdeck_matrix_test_button: press then release through the callback, for an id in range when a callback is set. */
    method TestButton(id: byte)
      modifies this`events
      ensures events == old(events) + (if id < TotalButtons && hasCallback then [Event(id, true), Event(id, false)] else [])
    {
      if id >= TotalButtons || !hasCallback {
        return;
      }
      events := events + [Event(id, true)];
      events := events + [Event(id, false)];
    }
  }
}
