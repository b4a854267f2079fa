// The 4x4 button pad of the JSON-service build
// (components/button_matrix/button_matrix.c): one record per button with
// a one-step debounce, a colour per button, and the BLE event callback.
// GPIO levels and the millisecond clock are inputs of a scan; the
// callback's invocations are recorded in order.
module PadMatrix {
  import opened Bytes
  import opened Esp
  import Matrix

  const PadRows: nat := 4
  const PadCols: nat := 4
  const PadSize: nat := 16
  const DebounceTimeMs: nat := 50

  /** button_state_t. */
  datatype ButtonState = ButtonState(pressed: bool, lastState: bool, lastChange: u32, color: u32)

  /** The memset of button_matrix_init. */
  const ZeroState: ButtonState := ButtonState(false, false, 0, 0)

  datatype Outcome = Outcome(state: ButtonState, fires: bool)

  /**
   * The test of button_matrix_scan: a reading that differs from last_state
   * more than 50 ms after last_change is taken at once as pressed,
   * last_state and last_change, and fires; anything else changes nothing.
   */
  function PadStep(b: ButtonState, reading: bool, now: u32): Outcome
  {
    if reading != b.lastState && Matrix.Elapsed(now, b.lastChange) > DebounceTimeMs then
      Outcome(b.(pressed := reading, lastState := reading, lastChange := now), true)
    else Outcome(b, false)
  }

  /** A step fires iff the reading is new and 50 ms have passed; otherwise the record is unchanged. */
  lemma PadStepIff(b: ButtonState, reading: bool, now: u32)
    ensures PadStep(b, reading, now).fires <==> reading != b.lastState && Matrix.Elapsed(now, b.lastChange) > DebounceTimeMs
    ensures !PadStep(b, reading, now).fires ==> PadStep(b, reading, now).state == b
    ensures PadStep(b, reading, now).state.color == b.color
  {
  }

  /** pressed and last_state are always updated together, so they stay equal once equal. */
  lemma PadStepKeepsInSync(b: ButtonState, reading: bool, now: u32)
    requires b.pressed == b.lastState
    ensures PadStep(b, reading, now).state.pressed == PadStep(b, reading, now).state.lastState
    ensures PadStep(b, reading, now).fires <==> PadStep(b, reading, now).state.pressed != b.pressed
  {
  }

  /**
   * The two debounce variants differ: from a released record last changed
   * long ago, one pressed reading fires at once here, while the two-step
   * debounce of the protocol build only records it.
   */
  lemma OneStepVersusTwoStep(now: u32)
    requires now > DebounceTimeMs
    ensures PadStep(ZeroState, true, now).fires
    ensures !Matrix.Step(Matrix.Track(false, false, 0), true, now).fires
  {
  }

  /** The callback invocations of a scan for buttons 0..n-1, in id order. */
  function PadEvents(bs: seq<ButtonState>, readings: seq<bool>, now: u32, n: nat): seq<Matrix.Event>
    requires n <= |bs| && n <= |readings|
  {
    if n == 0 then []
    else PadEvents(bs, readings, now, n - 1)
         + (if PadStep(bs[n - 1], readings[n - 1], now).fires then [Matrix.Event(n - 1, readings[n - 1])] else [])
  }

  /** An event of a scan reports the button's new pressed state. */
  lemma {:induction false} PadEventsSound(bs: seq<ButtonState>, readings: seq<bool>, now: u32, n: nat)
    requires n <= |bs| && n <= |readings|
    ensures forall e :: e in PadEvents(bs, readings, now, n) ==>
              e.id < n && PadStep(bs[e.id], readings[e.id], now).fires
              && e.pressed == PadStep(bs[e.id], readings[e.id], now).state.pressed
  {
    if n > 0 {
      PadEventsSound(bs, readings, now, n - 1);
    }
  }

  /** pressed equals last_state in every record. */
  ghost predicate InSyncAll(bs: seq<ButtonState>)
  {
    forall i :: 0 <= i < |bs| ==> bs[i].pressed == bs[i].lastState
  }

  /** The records after one scan of readings at time now. */
  function ScanStates(bs: seq<ButtonState>, readings: seq<bool>, now: u32): (r: seq<ButtonState>)
    requires |readings| == |bs|
    ensures |r| == |bs| && forall i :: 0 <= i < |bs| ==> r[i] == PadStep(bs[i], readings[i], now).state
  {
    seq(|bs|, i requires 0 <= i < |bs| => PadStep(bs[i], readings[i], now).state)
  }

  /** A scan keeps pressed equal to last_state, and a colour change does too. */
  lemma ScanKeepsInSync(bs: seq<ButtonState>, readings: seq<bool>, now: u32, id: nat, rgb: u32)
    requires |readings| == |bs| && InSyncAll(bs)
    ensures InSyncAll(ScanStates(bs, readings, now))
    ensures id < |bs| ==> InSyncAll(bs[id := bs[id].(color := rgb)])
  {
    var after := ScanStates(bs, readings, now);
    forall i | 0 <= i < |bs|
      ensures after[i].pressed == after[i].lastState
    {
      PadStepKeepsInSync(bs[i], readings[i], now);
    }
  }

  class Pad {
    const buttons: array<ButtonState>
    /** button_callback != NULL. */
    var hasCallback: bool
    /** The callback invocations so far. */
    var events: seq<Matrix.Event>

    ghost predicate Valid()
      reads this
    {
      buttons.Length == PadSize
    }

    /** pressed equals last_state for every button, from init on. */
    ghost predicate InSync()
      reads this, buttons
    {
      InSyncAll(buttons[..])
    }

    /** The static array before init, and no callback. */
    constructor()
      ensures Valid() && InSync() && fresh(buttons) && !hasCallback && events == []
      ensures forall i :: 0 <= i < PadSize ==> buttons[i] == ZeroState
    {
      buttons := new ButtonState[PadSize](_ => ZeroState);
      hasCallback, events := false, [];
    }

    /** button_matrix_init: every record zeroed, and armdeck_send_button_event installed as callback. */
    method Init() returns (ret: EspErr)
      requires Valid()
      modifies buttons, this`hasCallback
      ensures Valid() && InSync() && ret == EspOk && hasCallback
      ensures forall i :: 0 <= i < PadSize ==> buttons[i] == ZeroState
    {
      var i := 0;
      while i < PadSize
        invariant 0 <= i <= PadSize
        invariant forall k :: 0 <= k < i ==> buttons[k] == ZeroState
      {
        buttons[i] := ZeroState;
        i := i + 1;
      }
      hasCallback := true;
      return EspOk;
    }

    /** button_matrix_set_callback, with NULL as false. */
    method SetCallback(present: bool)
      modifies this`hasCallback
      ensures hasCallback == present
    {
      hasCallback := present;
    }

    /** The body of the column loop for one button. */
    method StepButton(id: nat, current: bool, now: u32)
      requires Valid() && id < PadSize
      modifies buttons, this`events
      ensures buttons[id] == PadStep(old(buttons[id]), current, now).state
      ensures forall i :: 0 <= i < PadSize && i != id ==> buttons[i] == old(buttons[i])
      ensures events == old(events) + (if hasCallback && PadStep(old(buttons[id]), current, now).fires then [Matrix.Event(id, current)] else [])
    {
      var b := buttons[id];
      if current != b.lastState && Matrix.Elapsed(now, b.lastChange) > DebounceTimeMs {
        buttons[id] := b.(pressed := current, lastState := current, lastChange := now);
        if hasCallback {
          events := events + [Matrix.Event(id, current)];
        }
      }
    }

    /**
     * Where a scan stands once the buttons below k have been visited: those
     * took their step from b0, the others still hold b0, and the callback
     * received their events after e0.
     */
    ghost predicate ScannedUpTo(b0: seq<ButtonState>, pressed: seq<bool>, now: u32, e0: seq<Matrix.Event>, k: nat)
      reads this, buttons
    {
      && Valid() && |b0| == PadSize && |pressed| == PadSize && k <= PadSize
      && (forall i :: 0 <= i < k ==> buttons[i] == PadStep(b0[i], pressed[i], now).state)
      && (forall i :: k <= i < PadSize ==> buttons[i] == b0[i])
      && events == e0 + (if hasCallback then PadEvents(b0, pressed, now, k) else [])
    }

    /** Visiting button id of a scan advances it by one button. */
    method ScanButton(id: nat, now: u32, pressed: seq<bool>, ghost b0: seq<ButtonState>, ghost e0: seq<Matrix.Event>)
      requires id < PadSize && ScannedUpTo(b0, pressed, now, e0, id)
      modifies buttons, this`events
      ensures ScannedUpTo(b0, pressed, now, e0, id + 1)
    {
      StepButton(id, pressed[id], now);
    }

    /**
     * button_matrix_scan at time now, with pressed[id] the level read for
     * button id = row * 4 + col (always below 16): every record takes one
     * step, and the callback receives the firing buttons in id order.
     * ScanKeepsInSync shows that pressed stays equal to last_state.
     */
    method Scan(now: u32, pressed: seq<bool>)
      requires Valid() && |pressed| == PadSize
      modifies buttons, this`events
      ensures buttons[..] == ScanStates(old(buttons[..]), pressed, now)
      ensures events == old(events) + (if hasCallback then PadEvents(old(buttons[..]), pressed, now, PadSize) else [])
    {
      ghost var b0 := buttons[..];
      ghost var e0 := events;
      var row := 0;
      ghost var base := 0;
      while row < PadRows
        invariant 0 <= row <= PadRows && base == row * PadCols
        invariant ScannedUpTo(b0, pressed, now, e0, base)
      {
        var col := 0;
        while col < PadCols
          invariant 0 <= col <= PadCols
          invariant ScannedUpTo(b0, pressed, now, e0, base + col)
        {
          var id := row * PadCols + col;
          assert id == base + col;
          ScanButton(id, now, pressed, b0, e0);
          col := col + 1;
        }
        row := row + 1;
        base := base + PadCols;
      }
      assert buttons[..] == ScanStates(b0, pressed, now);
    }

    /** button_matrix_set_color: INVALID_ARG for an id of 16 or more; otherwise only that colour changes. */
    method SetColor(id: byte, rgb: u32) returns (ret: EspErr)
      requires Valid()
      modifies buttons
      ensures id >= PadSize ==> ret == EspErrInvalidArg && buttons[..] == old(buttons[..])
      ensures id < PadSize ==> ret == EspOk && buttons[..] == old(buttons[..])[id := old(buttons[id]).(color := rgb)]
    {
      if id >= PadSize {
        return EspErrInvalidArg;
      }
      buttons[id] := buttons[id].(color := rgb);
      return EspOk;
    }

    /** button_matrix_is_pressed: false out of range, the stored flag otherwise. */
    method IsPressed(id: byte) returns (pressed: bool)
      requires Valid()
      ensures pressed <==> id < PadSize && buttons[id].pressed
    {
      if id < PadSize {
        return buttons[id].pressed;
      }
      return false;
    }
  }
}
