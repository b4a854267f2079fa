// The advertising state machine of the protocol build (main/armdeck_ble.c):
// armdeck_ble_start_advertising configures the advertising data and the
// scan response, and advertising proper is requested from the GAP event
// handler once both configurations have completed. Every call into the
// Bluetooth stack is an outcome given as a parameter; the events the
// handlers forward are recorded in order.
module Advertising {
  import opened Bytes
  import opened Esp

  /** ble_adv_state_t. */
  datatype AdvState = Stopped | Starting | Started

  /** The GAP events gap_event_handler distinguishes, with their success status. */
  datatype GapEvent =
    | AdvDataSetComplete(ok: bool)
    | ScanRspSetComplete(ok: bool)
    | AdvStartComplete(ok: bool)
    | AdvStopComplete
    | OtherGapEvent(code: nat)

  /** The GATTS events: only a registration is looked at. */
  datatype GattsEvent = GattsReg(ok: bool) | OtherGattsEvent(code: nat)

  /** The advertising part of the static state, and how often esp_ble_gap_start_advertising was called. */
  datatype Adv = Adv(state: AdvState, advDataConfigured: bool, scanRspConfigured: bool, startRequests: nat)

  /** A call to esp_ble_gap_start_advertising with result r: STARTING on success, STOPPED otherwise. */
  function RequestStart(m: Adv, r: EspErr): Adv
  {
    m.(startRequests := m.startRequests + 1, state := if r == EspOk then Starting else Stopped)
  }

  /** One configuration completion: on success its flag is set, and once both flags are set advertising is requested. */
  function ConfigDone(m: Adv, ok: bool, scanRsp: bool, r: EspErr): Adv
  {
    if !ok then m
    else
      var m1 := if scanRsp then m.(scanRspConfigured := true) else m.(advDataConfigured := true);
      if m1.advDataConfigured && m1.scanRspConfigured then RequestStart(m1, r) else m1
  }

  /** gap_event_handler's effect on the advertising state, with r the result of a start request it makes. */
  function GapStep(m: Adv, e: GapEvent, r: EspErr): Adv
  {
    match e
    case AdvDataSetComplete(ok) => ConfigDone(m, ok, false, r)
    case ScanRspSetComplete(ok) => ConfigDone(m, ok, true, r)
    case AdvStartComplete(ok) => m.(state := if ok then Started else Stopped)
    case AdvStopComplete => m.(state := Stopped)
    case OtherGapEvent(_) => m
  }

  /**
   * Advertising is requested by an event only when, after it, both the
   * advertising data and the scan response are configured, and then the
   * state is STARTING or STOPPED by the request's result.
   */
  lemma RequestOnlyWhenBothConfigured(m: Adv, e: GapEvent, r: EspErr)
    ensures var m2 := GapStep(m, e, r);
            m2.startRequests != m.startRequests
            ==> m2.advDataConfigured && m2.scanRspConfigured && m2.startRequests == m.startRequests + 1
                && m2.state == (if r == EspOk then Starting else Stopped)
  {
  }

  /** Only a successful ADV_START_COMPLETE makes the state STARTED; ADV_STOP_COMPLETE always stops it. */
  lemma StartedOnlyByStartComplete(m: Adv, e: GapEvent, r: EspErr)
    ensures GapStep(m, e, r).state == Started && m.state != Started ==> e == AdvStartComplete(true)
    ensures GapStep(m, AdvStopComplete, r).state == Stopped
    ensures GapStep(m, AdvStartComplete(false), r).state == Stopped
  {
  }

  /** The model after armdeck_ble_start_advertising from STOPPED with both configure calls accepted. */
  function AfterStart(m: Adv): Adv
  {
    m.(state := Starting, advDataConfigured := false, scanRspConfigured := false)
  }

  /**
   * After a start, advertising is requested exactly once the second of
   * the two completions arrives, in either order: one completion alone
   * requests nothing, and a failed completion never does.
   */
  lemma {:induction false} StartNeedsBothCompletions(m: Adv, first: bool, r1: EspErr, r2: EspErr)
    ensures var a := AfterStart(m);
            var one := GapStep(a, if first then AdvDataSetComplete(true) else ScanRspSetComplete(true), r1);
            var two := GapStep(one, if first then ScanRspSetComplete(true) else AdvDataSetComplete(true), r2);
            && one.startRequests == m.startRequests && one.state == Starting
            && two.startRequests == m.startRequests + 1
            && two.state == (if r2 == EspOk then Starting else Stopped)
    ensures GapStep(AfterStart(m), AdvDataSetComplete(false), r1) == AfterStart(m)
    ensures GapStep(AfterStart(m), ScanRspSetComplete(false), r1) == AfterStart(m)
  {
    var a := AfterStart(m);
    if first {
      var one := ConfigDone(a, true, false, r1);
      assert one == a.(advDataConfigured := true);
      assert GapStep(one, ScanRspSetComplete(true), r2) == RequestStart(one.(scanRspConfigured := true), r2);
    } else {
      var one := ConfigDone(a, true, true, r1);
      assert one == a.(scanRspConfigured := true);
      assert GapStep(one, AdvDataSetComplete(true), r2) == RequestStart(one.(advDataConfigured := true), r2);
    }
  }

  class Ble {
    var advState: AdvState
    var advDataConfigured: bool
    var scanRspConfigured: bool
    /** Calls to esp_ble_gap_start_advertising. */
    var startRequests: nat
    /** user_gap_callback != NULL, user_gatts_callback != NULL. */
    var hasGapCallback: bool
    var hasGattsCallback: bool
    /** gatts_if: None for ESP_GATT_IF_NONE. */
    var gattsIf: Option<nat>
    /** The events forwarded to the user callbacks and to the service handler. */
    var gapForwarded: seq<GapEvent>
    var gattsForwarded: seq<GattsEvent>
    var serviceForwarded: seq<GattsEvent>

    function Model(): Adv
      reads this
    {
      Adv(advState, advDataConfigured, scanRspConfigured, startRequests)
    }

    /** The static initialisers. */
    constructor()
      ensures Model() == Adv(Stopped, false, false, 0)
      ensures !hasGapCallback && !hasGattsCallback && gattsIf == None
      ensures gapForwarded == [] && gattsForwarded == [] && serviceForwarded == []
    {
      advState, advDataConfigured, scanRspConfigured, startRequests := Stopped, false, false, 0;
      hasGapCallback, hasGattsCallback, gattsIf := false, false, None;
      gapForwarded, gattsForwarded, serviceForwarded := [], [], [];
    }

    /** The branch of both configuration completions once their flag is set. */
    method StartIfConfigured(startResult: EspErr)
      modifies this`advState, this`startRequests
      ensures Model() == (if advDataConfigured && scanRspConfigured then RequestStart(old(Model()), startResult) else old(Model()))
    {
      if advDataConfigured && scanRspConfigured {
        startRequests := startRequests + 1;
        if startResult == EspOk {
          advState := Starting;
        } else {
          advState := Stopped;
        }
      }
    }

    /**
     * gap_event_handler: the state follows GapStep, with startResult the
     * result of the start request it may make, and every event is then
     * forwarded to the user callback when one is registered.
     */
    method HandleGapEvent(e: GapEvent, startResult: EspErr)
      modifies this`advState, this`advDataConfigured, this`scanRspConfigured, this`startRequests, this`gapForwarded
      ensures Model() == GapStep(old(Model()), e, startResult)
      ensures gapForwarded == old(gapForwarded) + (if hasGapCallback then [e] else [])
    {
      match e {
      case AdvDataSetComplete(ok) =>
        if ok {
          advDataConfigured := true;
          StartIfConfigured(startResult);
        }
      case ScanRspSetComplete(ok) =>
        if ok {
          scanRspConfigured := true;
          StartIfConfigured(startResult);
        }
      case AdvStartComplete(ok) =>
        if ok {
          advState := Started;
        } else {
          advState := Stopped;
        }
      case AdvStopComplete =>
        advState := Stopped;
      case OtherGapEvent(_) =>
      }
      if hasGapCallback {
        gapForwarded := gapForwarded + [e];
      }
    }

    /** gatts_event_handler: a successful registration stores the interface; every event goes to the service handler, then to the user callback. */
    method HandleGattsEvent(e: GattsEvent, iface: nat)
      modifies this`gattsIf, this`serviceForwarded, this`gattsForwarded
      ensures gattsIf == (if e == GattsReg(true) then Some(iface) else old(gattsIf))
      ensures serviceForwarded == old(serviceForwarded) + [e]
      ensures gattsForwarded == old(gattsForwarded) + (if hasGattsCallback then [e] else [])
    {
      if e.GattsReg? && e.ok {
        gattsIf := Some(iface);
      }
      serviceForwarded := serviceForwarded + [e];
      if hasGattsCallback {
        gattsForwarded := gattsForwarded + [e];
      }
    }

    /**
     * armdeck_ble_init: the two callback registrations, the service
     * initialisation and the application registration in turn; the first
     * failure is returned and the later steps are not attempted.
     */
    static method Init(gapReg: EspErr, gattsReg: EspErr, serviceInit: EspErr, appReg: EspErr) returns (ret: EspErr, attempted: nat)
      ensures attempted == (if gapReg != EspOk then 1 else if gattsReg != EspOk then 2 else if serviceInit != EspOk then 3 else 4)
      ensures ret == (if gapReg != EspOk then gapReg else if gattsReg != EspOk then gattsReg
                      else if serviceInit != EspOk then serviceInit else appReg)
      ensures ret == EspOk <==> gapReg == EspOk && gattsReg == EspOk && serviceInit == EspOk && appReg == EspOk
    {
      if gapReg != EspOk {
        return gapReg, 1;
      }
      if gattsReg != EspOk {
        return gattsReg, 2;
      }
      if serviceInit != EspOk {
        return serviceInit, 3;
      }
      return appReg, 4;
    }

    /**
     * armdeck_ble_start_advertising: INVALID_STATE unless STOPPED; otherwise
     * both flags are cleared, the two configure calls are made in turn (the
     * first failure is returned, the state unchanged), and on success the
     * state becomes STARTING.
     */
    method StartAdvertising(advConfig: EspErr, scanRspConfig: EspErr) returns (ret: EspErr)
      modifies this`advState, this`advDataConfigured, this`scanRspConfigured
      ensures old(advState) != Stopped ==> ret == EspErrInvalidState && Model() == old(Model())
      ensures old(advState) == Stopped ==>
                !advDataConfigured && !scanRspConfigured && startRequests == old(startRequests)
                && ret == (if advConfig != EspOk then advConfig else scanRspConfig)
                && advState == (if ret == EspOk then Starting else Stopped)
      ensures old(advState) == Stopped && ret == EspOk ==> Model() == AfterStart(old(Model()))
    {
      if advState != Stopped {
        return EspErrInvalidState;
      }
      advDataConfigured := false;
      scanRspConfigured := false;
      if advConfig != EspOk {
        return advConfig;
      }
      if scanRspConfig != EspOk {
        return scanRspConfig;
      }
      advState := Starting;
      return EspOk;
    }

    /** armdeck_ble_stop_advertising: INVALID_STATE unless STARTED; otherwise the stop call's result, and the state is left to ADV_STOP_COMPLETE. */
    method StopAdvertising(stopResult: EspErr) returns (ret: EspErr)
      ensures ret == (if advState != Started then EspErrInvalidState else stopResult)
    {
      if advState != Started {
        return EspErrInvalidState;
      }
      return stopResult;
    }

    /** armdeck_ble_get_adv_state. */
    method GetAdvState() returns (s: AdvState)
      ensures s == advState
    {
      return advState;
    }

    /** armdeck_ble_register_gap_callback, with NULL as false; the GATTS callback is kept. */
    method RegisterGapCallback(gap: bool)
      modifies this`hasGapCallback
      ensures hasGapCallback == gap
    {
      hasGapCallback := gap;
    }

    /** armdeck_ble_register_gatts_callback, with NULL as false; the GAP callback is kept. */
    method RegisterGattsCallback(gatts: bool)
      modifies this`hasGattsCallback
      ensures hasGattsCallback == gatts
    {
      hasGattsCallback := gatts;
    }
  }
}
