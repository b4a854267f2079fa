// The stand-alone firmware build (main/armdeck_main.c): a 3x4 matrix whose
// buttons type F13..F24 over BLE HID, the same two-step debounce as
// main/button_matrix.c, and a one-byte command characteristic. The HID
// reports handed to esp_hidd_send_keyboard_value are recorded in order;
// the GPIO levels and the clock are inputs of a scan.
module MainBuild {
  import opened Bytes
  import opened Esp
  import Matrix
  import ClientConstants

  /** button_to_fkey: usages 0x68..0x73 of the Keyboard/Keypad page, row by row. */
  const ButtonToFKey: seq<byte> := [0x68, 0x69, 0x6A, 0x6B, 0x6C, 0x6D, 0x6E, 0x6F, 0x70, 0x71, 0x72, 0x73]

  const CmdRestart: byte := 0x01
  const CmdKeepAlive: byte := 0x10
  const CmdStatus: byte := 0x20
  const CmdTestAll: byte := 0x30

  /** Button i types the usage 0x68 + i, that is F(13 + i). */
  lemma FKeyIsConsecutive(i: nat)
    requires i < Matrix.TotalButtons
    ensures |ButtonToFKey| == Matrix.TotalButtons && ButtonToFKey[i] == 0x68 + i
  {
  }

  /**
   * The web client names keys from a different table: the usages of the
   * first seven buttons (F13..F19 here) have no name there, since it puts
   * F13..F19 at 0x74..0x7A, while the last five agree as F20..F24.
   */
  lemma ClientNamesOnlyLastFive(i: nat)
    requires i < Matrix.TotalButtons
    ensures i < 7 ==> ClientConstants.KeyMap(ButtonToFKey[i]) == None
    ensures i == 7 ==> ClientConstants.KeyMap(ButtonToFKey[i]) == Some("F20")
    ensures i >= 7 ==> ClientConstants.KeyMap(ButtonToFKey[i]).Some?
    ensures ClientConstants.KeyMap(0x74) == Some("F13")
  {
    FKeyIsConsecutive(i);
    if i < 7 {
      UnnamedBelowF20(ButtonToFKey[i]);
    } else {
      NamedFromF20(ButtonToFKey[i]);
    }
  }

  lemma UnnamedBelowF20(c: byte)
    requires 0x68 <= c < 0x6F
    ensures ClientConstants.KeyMap(c) == None
  {
  }

  lemma NamedFromF20(c: byte)
    requires 0x6F <= c <= 0x73
    ensures ClientConstants.KeyMap(c).Some?
    ensures c == 0x6F ==> ClientConstants.KeyMap(c) == Some("F20")
  {
  }

  /** The 8-byte keyboard report of send_hid_key: the key in the first key slot (index 2) when pressed, all zero on release. */
  function KeyReport(key: byte, pressed: bool): seq<byte>
  {
    [0, 0, if pressed then key else 0, 0, 0, 0, 0, 0]
  }

  /** A report has eight bytes; only byte 2 can be non-zero, and it is the key exactly on a press. */
  lemma KeyReportShape(key: byte, pressed: bool)
    ensures |KeyReport(key, pressed)| == 8
    ensures forall j :: 0 <= j < 8 && j != 2 ==> KeyReport(key, pressed)[j] == 0
    ensures KeyReport(key, pressed)[2] == (if pressed then key else 0)
    ensures !pressed ==> KeyReport(key, pressed) == KeyReport(0, true)
  {
  }

  /** What handle_button_action sends for one callback: nothing for an id outside 0..11. */
  function ActionReports(id: int, pressed: bool): seq<seq<byte>>
  {
    if 0 <= id < Matrix.TotalButtons then [KeyReport(ButtonToFKey[id], pressed)] else []
  }

  /** What one button sends in a scan: its key report when its debounce step fires. */
  function ButtonReports(t: Matrix.Track, id: nat, reading: bool, now: u32): seq<seq<byte>>
  {
    if Matrix.Step(t, reading, now).fires then ActionReports(id, reading) else []
  }

  /** The reports of a scan for buttons 0..n-1: one per firing button, in id order. */
  function ScanReports(tracks: seq<Matrix.Track>, readings: seq<bool>, now: u32, n: nat): seq<seq<byte>>
    requires n <= |tracks| && n <= |readings|
  {
    if n == 0 then []
    else ScanReports(tracks, readings, now, n - 1) + ButtonReports(tracks[n - 1], n - 1, readings[n - 1], now)
  }

  /** The reports of a sequence of button events, one by one. */
  function EventReports(events: seq<Matrix.Event>): seq<seq<byte>>
  {
    if events == [] then []
    else EventReports(events[..|events| - 1]) + ActionReports(events[|events| - 1].id, events[|events| - 1].pressed)
  }

  lemma EventReportsSnoc(events: seq<Matrix.Event>, e: Matrix.Event)
    ensures EventReports(events + [e]) == EventReports(events) + ActionReports(e.id, e.pressed)
  {
    assert (events + [e])[..|events|] == events;
  }

  /**
   * A scan of this build sends exactly the reports that the callback of
   * main/button_matrix.c would receive as events for the same readings:
   * the two builds debounce alike.
   */
  lemma {:induction false} ScanReportsFollowEvents(tracks: seq<Matrix.Track>, readings: seq<bool>, now: u32, n: nat)
    requires n <= |tracks| && n <= |readings|
    ensures ScanReports(tracks, readings, now, n) == EventReports(Matrix.ScanEvents(tracks, readings, now, n))
  {
    if n > 0 {
      ScanReportsFollowEvents(tracks, readings, now, n - 1);
      ScanStepsAlike(tracks, readings, now, n);
    }
  }

  /** Button n-1 adds to a scan's reports exactly the reports of the events it adds. */
  lemma ScanStepsAlike(tracks: seq<Matrix.Track>, readings: seq<bool>, now: u32, n: nat)
    requires 0 < n <= |tracks| && n <= |readings|
    ensures var extra := ButtonReports(tracks[n - 1], n - 1, readings[n - 1], now);
            ScanReports(tracks, readings, now, n) == ScanReports(tracks, readings, now, n - 1) + extra
            && EventReports(Matrix.ScanEvents(tracks, readings, now, n))
               == EventReports(Matrix.ScanEvents(tracks, readings, now, n - 1)) + extra
  {
    ScanReportsUnfold(tracks, readings, now, n);
    ScanEventsUnfold(tracks, readings, now, n);
    ButtonReportsFollowStep(Matrix.ScanEvents(tracks, readings, now, n - 1), tracks[n - 1], n - 1, readings[n - 1], now);
  }

  lemma ScanReportsUnfold(tracks: seq<Matrix.Track>, readings: seq<bool>, now: u32, n: nat)
    requires 0 < n <= |tracks| && n <= |readings|
    ensures ScanReports(tracks, readings, now, n)
            == ScanReports(tracks, readings, now, n - 1) + ButtonReports(tracks[n - 1], n - 1, readings[n - 1], now)
  {
  }

  lemma ScanEventsUnfold(tracks: seq<Matrix.Track>, readings: seq<bool>, now: u32, n: nat)
    requires 0 < n <= |tracks| && n <= |readings|
    ensures Matrix.ScanEvents(tracks, readings, now, n)
            == Matrix.ScanEvents(tracks, readings, now, n - 1) + Matrix.StepEvents(tracks[n - 1], n - 1, readings[n - 1], now)
  {
  }

  /** One button's step adds to the reports exactly what its events add. */
  lemma ButtonReportsFollowStep(prev: seq<Matrix.Event>, t: Matrix.Track, id: nat, reading: bool, now: u32)
    ensures EventReports(prev + Matrix.StepEvents(t, id, reading, now))
            == EventReports(prev) + ButtonReports(t, id, reading, now)
  {
    if Matrix.Step(t, reading, now).fires {
      EventReportsSnoc(prev, Matrix.Event(id, reading));
    } else {
      assert prev + Matrix.StepEvents(t, id, reading, now) == prev;
    }
  }

  /** The reports of the 0x30 test command for buttons 0..n-1: press then release of each key in turn. */
  function TestReports(n: nat): seq<seq<byte>>
    requires n <= Matrix.TotalButtons
  {
    if n == 0 then []
    else TestReports(n - 1) + [KeyReport(ButtonToFKey[n - 1], true), KeyReport(ButtonToFKey[n - 1], false)]
  }

  /** The test command sends 2n reports: at 2k the press of F(13+k), at 2k+1 the all-zero release. */
  lemma {:induction false} TestReportsShape(n: nat)
    requires n <= Matrix.TotalButtons
    ensures |TestReports(n)| == 2 * n
    ensures forall k :: 0 <= k < n ==> TestReports(n)[2 * k] == KeyReport(0x68 + k, true)
    ensures forall k :: 0 <= k < n ==> TestReports(n)[2 * k + 1] == KeyReport(0, true)
  {
    if n > 0 {
      TestReportsShape(n - 1);
      FKeyIsConsecutive(n - 1);
      KeyReportShape(ButtonToFKey[n - 1], false);
    }
  }

  /** The reports handed to esp_hidd_send_keyboard_value: all of them when connected, none otherwise. */
  function SentIf(connected: bool, rs: seq<seq<byte>>): seq<seq<byte>>
  {
    if connected then rs else []
  }

  lemma SentIfAppend(connected: bool, a: seq<seq<byte>>, b: seq<seq<byte>>)
    ensures SentIf(connected, a + b) == SentIf(connected, a) + SentIf(connected, b)
  {
  }

  class ArmDeckMain {
    const buttonStates: array<bool>
    const lastStates: array<bool>
    const lastChange: array<u32>
    var bleConnected: bool
    /** hid_conn_id, a uint16_t. */
    var hidConnId: nat
    /** The reports passed to esp_hidd_send_keyboard_value, with the length argument applied. */
    var reports: seq<seq<byte>>
    /** esp_restart was called. */
    var restartRequested: bool
    /** Write responses sent. */
    var responses: nat

    ghost predicate Valid()
      reads this
    {
      buttonStates.Length == Matrix.TotalButtons && lastStates.Length == Matrix.TotalButtons
      && lastChange.Length == Matrix.TotalButtons && buttonStates != lastStates
    }

    /** The guard of send_hid_key and send_hid_keep_alive. */
    predicate Connected()
      reads this
    {
      bleConnected && hidConnId != 0
    }

    function TrackOf(i: nat): Matrix.Track
      requires Valid() && i < Matrix.TotalButtons
      reads this, buttonStates, lastStates, lastChange
    {
      Matrix.Track(buttonStates[i], lastStates[i], lastChange[i])
    }

    function Tracks(): (ts: seq<Matrix.Track>)
      requires Valid()
      reads this, buttonStates, lastStates, lastChange
      ensures |ts| == Matrix.TotalButtons && forall i :: 0 <= i < Matrix.TotalButtons ==> ts[i] == TrackOf(i)
    {
      seq(Matrix.TotalButtons, i requires 0 <= i < Matrix.TotalButtons reads this, buttonStates, lastStates, lastChange => TrackOf(i))
    }

    /** The static initialisers: every record released and unchanged since 0, not connected, connection id 0. */
    constructor()
      ensures Valid() && fresh(buttonStates) && fresh(lastStates) && fresh(lastChange)
      ensures forall i :: 0 <= i < Matrix.TotalButtons ==> TrackOf(i) == Matrix.Track(false, false, 0)
      ensures !bleConnected && hidConnId == 0 && !Connected()
      ensures reports == [] && !restartRequested && responses == 0
    {
      buttonStates := new bool[Matrix.TotalButtons](_ => false);
      lastStates := new bool[Matrix.TotalButtons](_ => false);
      lastChange := new u32[Matrix.TotalButtons](_ => 0);
      bleConnected, hidConnId := false, 0;
      reports, restartRequested, responses := [], false, 0;
    }

    /** send_hid_key: nothing unless connected with a non-zero id; otherwise one 8-byte report. */
    method SendHidKey(key: byte, pressed: bool)
      modifies this`reports
      ensures reports == old(reports) + (if Connected() then [KeyReport(key, pressed)] else [])
    {
      if !bleConnected || hidConnId == 0 {
        return;
      }
      var report: seq<byte> := [0, 0, 0, 0, 0, 0, 0, 0];
      if pressed {
        report := report[2 := key];
      }
      assert report == KeyReport(key, pressed);
      reports := reports + [report];
    }

    /** handle_button_action: ids outside 0..11 are ignored; otherwise the button's key is sent. */
    method HandleButtonAction(id: int, pressed: bool)
      modifies this`reports
      ensures reports == old(reports) + (if Connected() then ActionReports(id, pressed) else [])
    {
      if id < 0 || id >= Matrix.TotalButtons {
        return;
      }
      SendHidKey(ButtonToFKey[id], pressed);
    }

    /** send_hid_keep_alive: a report of length 0 when connected. */
    method SendKeepAlive()
      modifies this`reports
      ensures reports == old(reports) + (if Connected() then [[]] else [])
    {
      if bleConnected && hidConnId != 0 {
        reports := reports + [[]];
      }
    }

    /** The body of the column loop of scan_button_matrix for one button. */
    method StepButton(id: nat, current: bool, now: u32)
      requires Valid() && id < Matrix.TotalButtons
      modifies buttonStates, lastStates, lastChange, this`reports
      ensures Valid()
      ensures TrackOf(id) == Matrix.Step(old(TrackOf(id)), current, now).track
      ensures forall i :: 0 <= i < Matrix.TotalButtons && i != id ==> TrackOf(i) == old(TrackOf(i))
      ensures reports == old(reports) + SentIf(Connected(), ButtonReports(old(TrackOf(id)), id, current, now))
    {
      if current != lastStates[id] {
        lastChange[id] := now;
        lastStates[id] := current;
      } else if Matrix.Elapsed(now, lastChange[id]) > Matrix.DebounceDelayMs {
        if current != buttonStates[id] {
          buttonStates[id] := current;
          HandleButtonAction(id, current);
        }
      }
    }

    /**
     * Where a scan stands once the buttons below k have been visited: those
     * took their debounce step from t0, the others still hold t0, and their
     * reports followed r0.
     */
    ghost predicate ScannedUpTo(t0: seq<Matrix.Track>, pressed: seq<bool>, now: u32, r0: seq<seq<byte>>, k: nat)
      reads this, buttonStates, lastStates, lastChange
    {
      && Valid() && |t0| == Matrix.TotalButtons && |pressed| == Matrix.TotalButtons && k <= Matrix.TotalButtons
      && (forall i :: 0 <= i < k ==> TrackOf(i) == Matrix.Step(t0[i], pressed[i], now).track)
      && (forall i :: k <= i < Matrix.TotalButtons ==> TrackOf(i) == t0[i])
      && reports == r0 + SentIf(Connected(), ScanReports(t0, pressed, now, k))
    }

    /** Visiting button id of a scan advances it by one button. */
    method ScanButton(id: nat, now: u32, pressed: seq<bool>, ghost t0: seq<Matrix.Track>, ghost r0: seq<seq<byte>>)
      requires id < Matrix.TotalButtons && ScannedUpTo(t0, pressed, now, r0, id)
      modifies buttonStates, lastStates, lastChange, this`reports
      ensures ScannedUpTo(t0, pressed, now, r0, id + 1)
    {
      ghost var before := ScanReports(t0, pressed, now, id);
      ghost var step := ButtonReports(t0[id], id, pressed[id], now);
      assert ScanReports(t0, pressed, now, id + 1) == before + step;
      ghost var sentBefore := SentIf(Connected(), before);
      ghost var sentStep := SentIf(Connected(), step);
      assert TrackOf(id) == t0[id];
      StepButton(id, pressed[id], now);
      assert reports == r0 + sentBefore + sentStep;
      SentIfAppend(Connected(), before, step);
    }

    /**
     * scan_button_matrix at time now, with pressed[id] the level read for
     * button id = row * 4 + col: every record takes the two-step debounce
     * of main/button_matrix.c, and the firing buttons' reports are sent in
     * id order.
     */
    method Scan(now: u32, pressed: seq<bool>)
      requires Valid() && |pressed| == Matrix.TotalButtons
      modifies buttonStates, lastStates, lastChange, this`reports
      ensures Valid()
      ensures forall i :: 0 <= i < Matrix.TotalButtons ==> TrackOf(i) == Matrix.Step(old(TrackOf(i)), pressed[i], now).track
      ensures reports == old(reports) + SentIf(Connected(), ScanReports(old(Tracks()), pressed, now, Matrix.TotalButtons))
    {
      ghost var t0 := Tracks();
      ghost var r0 := reports;
      var row := 0;
      ghost var base := 0;
      while row < Matrix.MatrixRows
        invariant 0 <= row <= Matrix.MatrixRows && base == row * Matrix.MatrixCols
        invariant ScannedUpTo(t0, pressed, now, r0, base)
      {
        var col := 0;
        while col < Matrix.MatrixCols
          invariant 0 <= col <= Matrix.MatrixCols
          invariant ScannedUpTo(t0, pressed, now, r0, base + col)
        {
          var id := row * Matrix.MatrixCols + col;
          assert id == base + col;
          ScanButton(id, now, pressed, t0, r0);
          col := col + 1;
        }
        row := row + 1;
        base := base + Matrix.MatrixCols;
      }
    }

    /** The 0x30 loop: press and release of every button's key, in id order. */
    method TestAllButtons()
      modifies this`reports
      ensures reports == old(reports) + (if Connected() then TestReports(Matrix.TotalButtons) else [])
    {
      var i := 0;
      while i < Matrix.TotalButtons
        invariant 0 <= i <= Matrix.TotalButtons
        invariant reports == old(reports) + (if Connected() then TestReports(i) else [])
      {
        SendHidKey(ButtonToFKey[i], true);
        SendHidKey(ButtonToFKey[i], false);
        i := i + 1;
      }
    }

    /**
     * The WRITE event: on the command characteristic, a non-empty value is
     * dispatched on its first byte alone (0x01 restart, 0x10 keep-alive,
     * 0x20 status, 0x30 button test, anything else ignored); then a
     * response is sent when one is requested, whatever the handle. A
     * restart does not come back, so it never answers.
     */
    method HandleWrite(onCommandChar: bool, value: seq<byte>, needRsp: bool)
      requires !restartRequested
      modifies this`reports, this`restartRequested, this`responses
      ensures var cmd := if onCommandChar && |value| > 0 then value[0] else 0;
              && restartRequested == (cmd == CmdRestart)
              && reports == old(reports)
                 + (if !Connected() then []
                    else if cmd == CmdKeepAlive then [[]]
                    else if cmd == CmdTestAll then TestReports(Matrix.TotalButtons)
                    else [])
              && responses == old(responses) + (if needRsp && cmd != CmdRestart then 1 else 0)
    {
      if onCommandChar && |value| > 0 {
        var cmd := value[0];
        if cmd == CmdRestart {
          restartRequested := true;
          return;
        } else if cmd == CmdKeepAlive {
          SendKeepAlive();
        } else if cmd == CmdStatus {
        } else if cmd == CmdTestAll {
          TestAllButtons();
        }
      }
      if needRsp {
        responses := responses + 1;
      }
    }
  }
}
