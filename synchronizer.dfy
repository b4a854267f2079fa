// The web client's button-configuration synchronizer (pwa/src/ble/useBle.ts):
// the list of slots with per-slot and collection dirty flags, the auto-save
// timer, bulk load, saving the dirty slots, and reset. React state and refs
// are fields of Sync; a pending setTimeout is an armed field that
// FireAutoSave and RunSetup discharge; the device is an Exchanger.Link whose
// replies come from its script. Each action reads the current state, except
// saveButtonToDevice, which reads the slots of the render whose closure runs it.
module Synchronizer {
  import opened Bytes
  import opened ClientConstants
  import opened PacketCodec
  import opened ButtonCodec
  import opened ButtonCodecRoundTrip
  import opened Exchanger
  import opened JsText

  /** The slot bound written into updateButton and saveButtonToDevice. */
  const SlotBound: nat := 15

  /** The messages setError receives, by kind. */
  datatype Failure =
    | NotFullyConnected
    | SaveFailed
    | ResetFailed
    | ConnectionError
    | CannotCommunicate
    | SetupFailed

  /** Partial<ButtonConfig>: the fields present in the update. */
  datatype Partial = Partial(id: Option<int>, caption: Option<string>, action: Option<string>, color: Option<string>)

  /** { ...b, ...config, isDirty: true }. */
  function Merge(b: ButtonConfig, p: Partial): (r: ButtonConfig)
    ensures r.isDirty
    ensures r.caption == (if p.caption.Some? then p.caption.value else b.caption)
    ensures r.action == (if p.action.Some? then p.action.value else b.action)
  {
    ButtonConfig(if p.id.Some? then p.id.value else b.id,
                 if p.caption.Some? then p.caption.value else b.caption,
                 if p.action.Some? then p.action.value else b.action,
                 if p.color.Some? then p.color.value else b.color,
                 true)
  }

  /** The slot shown for button i when its GET_BUTTON threw. */
  function ErrorSlot(i: nat): ButtonConfig
  {
    CreateEmptyButton(i).(caption := "Erreur btn " + IntToString(i + 1))
  }

  /** The slot loadConfiguration stores for button i after a GET_BUTTON outcome. */
  function LoadedSlot(o: Outcome, i: nat): ButtonConfig
  {
    match o
    case Thrown => ErrorSlot(i)
    case Null => CreateEmptyButton(i)
    case Frame(bytes) =>
      var parsed := ParseResponse(bytes);
      if parsed.Some? && parsed.value.error == ErrNone && parsed.value.payload.Some?
      then ParseButtonData(parsed.value.payload.value, i)
      else CreateEmptyButton(i)
  }

  /** Every loaded slot carries its index as id and is clean. */
  lemma LoadedSlotClean(o: Outcome, i: nat)
    ensures LoadedSlot(o, i).id == i && !LoadedSlot(o, i).isDirty
  {
  }

  /**
   * A slot saved with buildButtonPayload and answered by the device with
   * that record loads back as it was saved (the colour's hex digits in
   * lower case), for a short ASCII label and a restorable action.
   */
  lemma LoadRestoresSavedSlot(b: ButtonConfig, i: nat)
    requires IsAsciiText(b.caption) && 1 <= |b.caption| <= 7
    requires IsHexColor(b.color) && RestorableAction(b.action)
    ensures BuildButtonPayload(b, i).Some?
    ensures var reply := BuildCommand(CmdGetButton, [ErrNone] + BuildButtonPayload(b, i).value);
            LoadedSlot(Frame(reply), i) == ButtonConfig(i, b.caption, b.action, LowerHex(b.color), false)
  {
    ButtonRoundTrip(b, i, i);
    var p := BuildButtonPayload(b, i).value;
    ParseBuildRoundTrip(CmdGetButton, [ErrNone] + p);
    assert ([ErrNone] + p)[1..] == p;
  }

  /** deviceInfo?.num_buttons || 15. */
  function NumButtons(info: Option<DeviceInfo>): (n: nat)
    ensures 1 <= n <= 255
    ensures info.None? ==> n == 15
  {
    if info.Some? && info.value.numButtons != 0 then info.value.numButtons else 15
  }

  /** One sendCommandStrict call on a link in this state: its outcome and the reads left. */
  function Call(hasCommand: bool, writeFails: bool, script: seq<Read>): (Outcome, seq<Read>)
  {
    if !hasCommand || writeFails then (Thrown, script)
    else
      var (o, n) := Exchange(script);
      (o, if n <= |script| then script[n..] else [])
  }

  /** The reads left after k calls. */
  function RestAfter(hasCommand: bool, writeFails: bool, script: seq<Read>, k: nat): seq<Read>
  {
    if k == 0 then script else Call(hasCommand, writeFails, RestAfter(hasCommand, writeFails, script, k - 1)).1
  }

  /** The outcomes of k successive calls, in order. */
  function Outcomes(hasCommand: bool, writeFails: bool, script: seq<Read>, k: nat): (r: seq<Outcome>)
    ensures |r| == k
  {
    if k == 0 then []
    else Outcomes(hasCommand, writeFails, script, k - 1) + [Call(hasCommand, writeFails, RestAfter(hasCommand, writeFails, script, k - 1)).0]
  }

  /** The GET_BUTTON frames written for buttons 0..k-1. */
  function GetButtonFrames(k: nat): (r: seq<seq<byte>>)
    ensures |r| == k
  {
    if k == 0 then [] else GetButtonFrames(k - 1) + [BuildCommand(CmdGetButton, [(k - 1) % 256])]
  }

  /**
   * Where loadConfiguration stands after buttons 0..i-1 of n: each holds
   * the slot loaded from its reply, the link has consumed i calls from s0,
   * and the GET_BUTTON frames of those buttons follow w0.
   */
  predicate LoadProgress(hasCommand: bool, writeFails: bool, s0: seq<Read>, w0: seq<seq<byte>>, n: nat, i: nat,
                         bs: seq<ButtonConfig>, script: seq<Read>, writes: seq<seq<byte>>)
  {
    && i <= n && |bs| == n
    && (forall j :: 0 <= j < i ==> bs[j] == LoadedSlot(Outcomes(hasCommand, writeFails, s0, i)[j], j))
    && script == RestAfter(hasCommand, writeFails, s0, i)
    && writes == w0 + (if hasCommand then GetButtonFrames(i) else [])
  }

  /** One more GET_BUTTON call, its outcome stored at slot i, advances the load by one button. */
  lemma LoadProgressStep(hasCommand: bool, writeFails: bool, s0: seq<Read>, w0: seq<seq<byte>>, n: nat, i: nat,
                         bs: seq<ButtonConfig>, script: seq<Read>, writes: seq<seq<byte>>, o: Outcome, script2: seq<Read>, writes2: seq<seq<byte>>)
    requires i < n && LoadProgress(hasCommand, writeFails, s0, w0, n, i, bs, script, writes)
    requires (o, script2) == Call(hasCommand, writeFails, script)
    requires writes2 == writes + (if hasCommand then [BuildCommand(CmdGetButton, [i % 256])] else [])
    ensures LoadProgress(hasCommand, writeFails, s0, w0, n, i + 1, bs[i := LoadedSlot(o, i)], script2, writes2)
  {
    var outs := Outcomes(hasCommand, writeFails, s0, i);
    var outs2 := Outcomes(hasCommand, writeFails, s0, i + 1);
    assert outs2 == outs + [o];
    var bs2 := bs[i := LoadedSlot(o, i)];
    forall j | 0 <= j < i + 1
      ensures bs2[j] == LoadedSlot(outs2[j], j)
    {
      if j < i {
        assert outs2[j] == outs[j];
      }
    }
  }

  /** A finished load leaves every slot clean and carrying its own index as id. */
  lemma LoadedSlotsClean(hasCommand: bool, writeFails: bool, s0: seq<Read>, w0: seq<seq<byte>>, n: nat,
                         bs: seq<ButtonConfig>, script: seq<Read>, writes: seq<seq<byte>>)
    requires LoadProgress(hasCommand, writeFails, s0, w0, n, n, bs, script, writes)
    ensures |bs| == n && forall i :: 0 <= i < n ==> bs[i].id == i && !bs[i].isDirty
  {
    forall i | 0 <= i < n
      ensures bs[i].id == i && !bs[i].isDirty
    {
      LoadedSlotClean(Outcomes(hasCommand, writeFails, s0, n)[i], i);
    }
  }

  /** The outcome of a SET_BUTTON or RESET_CONFIG reply as the caller judges it. */
  datatype Verdict = Accepted | Refused | NoReply

  /** Error NONE in a parsable reply accepts; null changes nothing; anything else (a throw included) is refused. */
  function VerdictOf(o: Outcome): Verdict
  {
    match o
    case Null => NoReply
    case Thrown => Refused
    case Frame(bytes) =>
      var parsed := ParseResponse(bytes);
      if parsed.Some? && parsed.value.error == ErrNone then Accepted else Refused
  }

  /** A reply built by the device with error NONE is accepted. */
  lemma NoneReplyAccepted(command: byte, body: seq<byte>)
    requires |body| <= 254
    ensures VerdictOf(Frame(BuildCommand(command, [ErrNone] + body))) == Accepted
    ensures VerdictOf(Frame(BuildCommand(command, [ErrInvalidParam] + body))) == Refused
  {
    ParseBuildRoundTrip(command, [ErrNone] + body);
    ParseBuildRoundTrip(command, [ErrInvalidParam] + body);
  }

  /** Whether a slot other than index is dirty: the stillDirty test. */
  predicate OtherDirty(bs: seq<ButtonConfig>, index: nat)
  {
    exists j :: 0 <= j < |bs| && j != index && bs[j].isDirty
  }

  /** The indices of the dirty slots below k, in increasing order: the filter of saveConfig. */
  function DirtyIndices(bs: seq<ButtonConfig>, k: nat): (r: seq<nat>)
    requires k <= |bs|
    ensures forall j :: 0 <= j < |r| ==> r[j] < k && bs[r[j]].isDirty
    ensures forall j, l :: 0 <= j < l < |r| ==> r[j] < r[l]
  {
    if k == 0 then [] else DirtyIndices(bs, k - 1) + (if bs[k - 1].isDirty then [k - 1] else [])
  }

  /** Every dirty slot below k is listed: the filter keeps all of them. */
  lemma {:induction false} DirtyIndicesComplete(bs: seq<ButtonConfig>, k: nat, i: nat)
    requires k <= |bs| && i < k && bs[i].isDirty
    ensures i in DirtyIndices(bs, k)
  {
    if i < k - 1 {
      DirtyIndicesComplete(bs, k - 1, i);
    }
  }

  /** A slot just updated is among those the next saveConfig sends. */
  lemma UpdatedSlotIsSaved(bs: seq<ButtonConfig>, index: nat, p: Partial)
    requires index < |bs|
    ensures index in DirtyIndices(bs[index := Merge(bs[index], p)], |bs|)
  {
    DirtyIndicesComplete(bs[index := Merge(bs[index], p)], |bs|, index);
  }

  /** No dirty slot means an empty list, and conversely. */
  lemma {:induction false} DirtyIndicesEmpty(bs: seq<ButtonConfig>, k: nat)
    requires k <= |bs|
    ensures DirtyIndices(bs, k) == [] <==> forall i :: 0 <= i < k ==> !bs[i].isDirty
  {
    if k > 0 {
      DirtyIndicesEmpty(bs, k - 1);
      if bs[k - 1].isDirty {
        assert DirtyIndices(bs, k)[|DirtyIndices(bs, k)| - 1] == k - 1;
      }
    }
  }

  /** Two slot lists that differ at most in their dirty flags. */
  predicate SameButIsDirty(a: seq<ButtonConfig>, b: seq<ButtonConfig>)
  {
    |a| == |b| && forall i :: 0 <= i < |a| ==> a[i].(isDirty := false) == b[i].(isDirty := false)
  }

  /** The SET_BUTTON frame for slot b at index, when its payload can be built. */
  function SetButtonFrames(b: ButtonConfig, index: nat): seq<seq<byte>>
  {
    var payload := BuildButtonPayload(b, index);
    if payload.Some? then [BuildCommand(CmdSetButton, payload.value)] else []
  }

  /** The frames SET_BUTTON writes for the listed slots whose payload can be built. */
  function SaveFrames(bs: seq<ButtonConfig>, indices: seq<nat>): seq<seq<byte>>
    requires forall j :: 0 <= j < |indices| ==> indices[j] < |bs|
  {
    if indices == [] then []
    else
      var last := indices[|indices| - 1];
      SaveFrames(bs, indices[..|indices| - 1]) + SetButtonFrames(bs[last], last)
  }

  /** Every index listed is a slot of bs. */
  predicate IndicesWithin(bs: seq<ButtonConfig>, indices: seq<nat>)
  {
    forall j :: 0 <= j < |indices| ==> indices[j] < |bs|
  }

  /** No slot clean in a is dirty in b. */
  predicate CleanStaysClean(a: seq<ButtonConfig>, b: seq<ButtonConfig>)
    requires |a| == |b|
  {
    forall i :: 0 <= i < |b| && !a[i].isDirty ==> !b[i].isDirty
  }

  /**
   * The functional update of an accepted SET_BUTTON: the slot at index, if
   * there is one, loses its dirty flag.
   */
  function ClearFlag(bs: seq<ButtonConfig>, index: nat): seq<ButtonConfig>
  {
    if index < |bs| then bs[index := bs[index].(isDirty := false)] else bs
  }

  /** Clearing one slot's flag, or nothing, changes flags only. */
  lemma ClearingChangesFlagsOnly(bs: seq<ButtonConfig>, index: nat)
    ensures SameButIsDirty(bs, bs) && CleanStaysClean(bs, bs)
    ensures SameButIsDirty(bs, ClearFlag(bs, index))
    ensures CleanStaysClean(bs, ClearFlag(bs, index))
    ensures index < |bs| ==> !ClearFlag(bs, index)[index].isDirty
  {
  }

  /**
   * Where saveConfig stands after the first k listed slots, from slots b0
   * and frames w0: the slots bs differ from b0 only in their flags, no
   * clean slot became dirty, and when frames are sent those k slots'
   * SET_BUTTON frames follow w0.
   */
  predicate SaveProgress(b0: seq<ButtonConfig>, w0: seq<seq<byte>>, dirty: seq<nat>, k: nat,
                         bs: seq<ButtonConfig>, writes: seq<seq<byte>>, sending: bool)
  {
    && k <= |dirty| && IndicesWithin(b0, dirty)
    && SameButIsDirty(b0, bs) && CleanStaysClean(b0, bs)
    && (sending ==> writes == w0 + SaveFrames(b0, dirty[..k]))
  }

  /** Saving the k-th listed slot, which changes at most flags and sends its frame, advances the progress by one. */
  lemma SaveProgressStep(b0: seq<ButtonConfig>, w0: seq<seq<byte>>, dirty: seq<nat>, k: nat,
                         bs: seq<ButtonConfig>, writes: seq<seq<byte>>, bs2: seq<ButtonConfig>, writes2: seq<seq<byte>>, sending: bool)
    requires SaveProgress(b0, w0, dirty, k, bs, writes, sending) && k < |dirty|
    requires SameButIsDirty(bs, bs2) && CleanStaysClean(bs, bs2)
    requires sending ==> writes2 == writes + SetButtonFrames(b0[dirty[k]], dirty[k])
    ensures SaveProgress(b0, w0, dirty, k + 1, bs2, writes2, sending)
  {
    assert dirty[..k + 1][..k] == dirty[..k];
  }

  /** The payload of a slot does not depend on its dirty flag. */
  lemma PayloadIgnoresDirty(b: ButtonConfig, c: ButtonConfig, index: nat)
    requires b.(isDirty := false) == c.(isDirty := false)
    ensures BuildButtonPayload(b, index) == BuildButtonPayload(c, index)
    ensures SetButtonFrames(b, index) == SetButtonFrames(c, index)
  {
    assert b.caption == c.caption && b.action == c.action && b.color == c.color;
  }

  /**
   * An armed auto-save timer: the slot it saves and the slots as the
   * render that armed it saw them. The timer calls that render's
   * saveButtonToDevice, which reads the slot and stillDirty from this
   * view, and whose isFullyConnected was true, since only a fully
   * connected render arms the timer.
   */
  datatype PendingSave = PendingSave(index: int, view: seq<ButtonConfig>)

  /**
   * The auto-save as written loses the edit that armed it. Slot 0 is clean
   * with caption "A"; updateButton(0, {caption: "B"}) arms a save of the
   * pre-edit view, so the device is sent, and reads back, "A", while an
   * accepted reply leaves the slot captioned "B" and clean, so no later
   * saveConfig sends it.
   */
  lemma AutoSaveLosesEdit()
    ensures var before := [ButtonConfig(0, "A", "MACRO", "#607D8B", false)];
            var edited := before[0 := Merge(before[0], Partial(None, Some("B"), None, None))];
            && BuildButtonPayload(before[0], 0).Some?
            && ParseButtonData(BuildButtonPayload(before[0], 0).value, 0).caption == "A"
            && ClearFlag(edited, 0)[0].caption == "B"
            && DirtyIndices(ClearFlag(edited, 0), 1) == []
  {
    var b := ButtonConfig(0, "A", "MACRO", "#607D8B", false);
    ButtonRoundTrip(b, 0, 0);
    var edited := [b][0 := Merge(b, Partial(None, Some("B"), None, None))];
    DirtyIndicesEmpty(ClearFlag(edited, 0), 1);
  }

  class Sync {
    /** The device's command characteristic and its scripted replies. */
    const link: Link
    var buttons: seq<ButtonConfig>
    var isDirty: bool
    /** lastSaved, as the time it was set. */
    var lastSaved: Option<nat>
    var error: Option<Failure>
    var isLoading: bool
    var isConnected: bool
    var isFullyConnected: bool
    /** bleDevice != null. */
    var hasDevice: bool
    var deviceInfo: Option<DeviceInfo>
    /** workingCommandMethodRef.current != null. */
    var hasCommandMethod: bool
    /** loadingConfigRef.current and connectingRef.current. */
    var loadingConfig: bool
    var connecting: bool
    /** autoSaveTimeoutRef: the pending auto-save, if any. */
    var autoSave: Option<PendingSave>
    /** The one-second setup timer armed by a successful connection. */
    var setupPending: bool

    /** The initial state: 15 default slots, nothing connected, no timer. */
    constructor(link: Link)
      ensures this.link == link
      ensures |buttons| == 15 && forall i :: 0 <= i < 15 ==> buttons[i] == CreateEmptyButton(i)
      ensures !isDirty && lastSaved == None && error == None && !isLoading
      ensures !isConnected && !isFullyConnected && !hasDevice && deviceInfo == None && !hasCommandMethod
      ensures !loadingConfig && !connecting && autoSave == None && !setupPending
    {
      this.link := link;
      buttons := seq(15, i requires 0 <= i < 15 => CreateEmptyButton(i));
      isDirty, lastSaved, error, isLoading := false, None, None, false;
      isConnected, isFullyConnected, hasDevice, deviceInfo, hasCommandMethod := false, false, false, None, false;
      loadingConfig, connecting, autoSave, setupPending := false, false, None, false;
    }

    /**
     * updateButton: an index outside 0..14 changes nothing. Otherwise the
     * partial is merged into that slot, which becomes dirty, the others
     * are unchanged, the collection is dirty, and a pending auto-save is
     * cancelled and re-armed for this slot only when fully connected, with
     * the slots as this call found them, before the edit.
     */
    method UpdateButton(index: int, config: Partial)
      modifies this`buttons, this`isDirty, this`autoSave
      ensures !(0 <= index < SlotBound) ==> buttons == old(buttons) && isDirty == old(isDirty) && autoSave == old(autoSave)
      ensures 0 <= index < SlotBound ==>
                && buttons == (if index < |old(buttons)| then old(buttons)[index := Merge(old(buttons)[index], config)] else old(buttons))
                && isDirty
                && autoSave == (if isFullyConnected then Some(PendingSave(index, old(buttons))) else None)
    {
      if index < 0 || index >= SlotBound {
        return;
      }
      var view := buttons;
      if index < |buttons| {
        buttons := buttons[index := Merge(buttons[index], config)];
      }
      isDirty := true;
      autoSave := None;
      if isFullyConnected {
        autoSave := Some(PendingSave(index, view));
      }
    }

    /**
     * saveButtonToDevice, as the closure of one render: view and
     * fullyConnected are that render's buttons and isFullyConnected, while
     * the command method, the replies and the functional update see the
     * current state. Nothing happens unless fullyConnected, index in 0..14,
     * a command method set and a slot of view at index. A payload that
     * cannot be built or a refused reply sets SaveFailed; an accepted reply
     * clears that slot's flag in the current slots, sets lastSaved, and
     * clears the collection flag when no other slot of view is dirty; a
     * null reply changes nothing.
     */
    method SaveButtonToDevice(index: int, view: seq<ButtonConfig>, fullyConnected: bool, now: nat)
      modifies this`buttons, this`isDirty, this`lastSaved, this`error, link`writes, link`script, link`readCount
      ensures ButtonSaved(old(buttons), old(isDirty), old(lastSaved), old(error), old(link.writes), old(link.script),
                          view, fullyConnected, index, now)
      ensures SameButIsDirty(old(buttons), buttons) && CleanStaysClean(old(buttons), buttons)
      ensures fullyConnected && hasCommandMethod && link.hasCommand && 0 <= index < SlotBound && index < |view| ==>
                link.writes == old(link.writes) + SetButtonFrames(view[index], index)
    {
      if !fullyConnected || index < 0 || index >= SlotBound || !hasCommandMethod {
        return;
      }
      if index >= |view| {
        return;
      }
      var payload := BuildButtonPayload(view[index], index);
      if payload.None? {
        error := Some(SaveFailed);
        return;
      }
      SendSlot(index, view, payload.value, now);
    }

    /**
     * The state saveButtonToDevice(index) leaves, from the given one, for a
     * closure seeing view and fullyConnected: nothing changes unless
     * fullyConnected with a command method and a slot of view at an index
     * in 0..14; a slot whose payload cannot be built sets SaveFailed and
     * sends nothing; otherwise SET_BUTTON goes out as SlotSent says.
     */
    ghost predicate ButtonSaved(b0: seq<ButtonConfig>, d0: bool, s0: Option<nat>, e0: Option<Failure>,
                                w0: seq<seq<byte>>, r0: seq<Read>, view: seq<ButtonConfig>, fullyConnected: bool,
                                index: int, now: nat)
      reads this, link
    {
      var active := fullyConnected && 0 <= index < SlotBound && hasCommandMethod && index < |view|;
      && (!active ==> buttons == b0 && isDirty == d0 && lastSaved == s0 && error == e0
                      && link.writes == w0 && link.script == r0)
      && (active && BuildButtonPayload(view[index], index).None? ==>
            buttons == b0 && isDirty == d0 && lastSaved == s0 && error == Some(SaveFailed)
            && link.writes == w0 && link.script == r0)
      && (active && BuildButtonPayload(view[index], index).Some? ==>
            SlotSent(b0, d0, s0, e0, w0, r0, view, index, BuildButtonPayload(view[index], index).value, now))
    }

    /**
     * The state after SET_BUTTON with payload for the slot at index, from
     * the given state, for a closure seeing view: the frame is written when
     * the link has a command characteristic; an accepted reply clears the
     * slot's flag, sets lastSaved, and clears the collection flag when no
     * other slot of view is dirty; a refused one sets SaveFailed; a null
     * one changes nothing.
     */
    ghost predicate SlotSent(b0: seq<ButtonConfig>, d0: bool, s0: Option<nat>, e0: Option<Failure>,
                             w0: seq<seq<byte>>, r0: seq<Read>, view: seq<ButtonConfig>, index: nat,
                             payload: seq<byte>, now: nat)
      reads this, link
    {
      var (o, rest) := Call(link.hasCommand, link.writeFails, r0);
      var v := VerdictOf(o);
      && link.script == rest
      && link.writes == w0 + (if link.hasCommand then [BuildCommand(CmdSetButton, payload)] else [])
      && buttons == (if v == Accepted then ClearFlag(b0, index) else b0)
      && isDirty == (if v == Accepted then d0 && OtherDirty(view, index) else d0)
      && lastSaved == (if v == Accepted then Some(now) else s0)
      && error == (if v == Refused then Some(SaveFailed) else e0)
    }

    /** The send and the reply handling of saveButtonToDevice, once the payload is built. */
    method SendSlot(index: nat, view: seq<ButtonConfig>, payload: seq<byte>, now: nat)
      modifies this`buttons, this`isDirty, this`lastSaved, this`error, link`writes, link`script, link`readCount
      ensures SlotSent(old(buttons), old(isDirty), old(lastSaved), old(error), old(link.writes), old(link.script),
                       view, index, payload, now)
      ensures SameButIsDirty(old(buttons), buttons) && CleanStaysClean(old(buttons), buttons)
    {
      ClearingChangesFlagsOnly(buttons, index);
      var o := link.SendCommandStrict(CmdSetButton, payload);
      var verdict := VerdictOf(o);
      if verdict == Accepted {
        var stillDirty := OtherDirty(view, index);
        buttons := ClearFlag(buttons, index);
        lastSaved := Some(now);
        if !stillDirty {
          isDirty := false;
        }
      } else if verdict == Refused {
        error := Some(SaveFailed);
      }
    }

    /**
     * The auto-save timer firing, as written: it is disarmed and the arming
     * render's saveButtonToDevice runs for its slot, so the payload and
     * stillDirty come from the slots before the edit (AutoSaveLosesEdit).
     */
    method FireAutoSave(now: nat)
      requires autoSave.Some?
      modifies this`autoSave, this`buttons, this`isDirty, this`lastSaved, this`error, link`writes, link`script, link`readCount
      ensures autoSave == None
      ensures ButtonSaved(old(buttons), old(isDirty), old(lastSaved), old(error), old(link.writes), old(link.script),
                          old(autoSave).value.view, true, old(autoSave).value.index, now)
      ensures SameButIsDirty(old(buttons), buttons) && CleanStaysClean(old(buttons), buttons)
      ensures !hasCommandMethod ==> buttons == old(buttons) && isDirty == old(isDirty) && link.writes == old(link.writes)
    {
      var pending := autoSave.value;
      autoSave := None;
      SaveButtonToDevice(pending.index, pending.view, true, now);
    }

    /**
     * The auto-save as evidently intended: the armed slot is saved as it
     * stands when the timer fires. Whatever SET_BUTTON frame goes out is
     * the one of the slot as it is afterwards, so a save never marks clean
     * a slot whose contents the device was not sent.
     */
    method FireAutoSaveCurrent(now: nat)
      requires autoSave.Some?
      modifies this`autoSave, this`buttons, this`isDirty, this`lastSaved, this`error, link`writes, link`script, link`readCount
      ensures autoSave == None
      ensures ButtonSaved(old(buttons), old(isDirty), old(lastSaved), old(error), old(link.writes), old(link.script),
                          old(buttons), isFullyConnected, old(autoSave).value.index, now)
      ensures SameButIsDirty(old(buttons), buttons) && CleanStaysClean(old(buttons), buttons)
      ensures link.writes != old(link.writes) ==>
                var index := old(autoSave).value.index;
                0 <= index < |buttons| && link.writes == old(link.writes) + SetButtonFrames(buttons[index], index)
    {
      var index := autoSave.value.index;
      autoSave := None;
      ghost var b0 := buttons;
      SaveButtonToDevice(index, buttons, isFullyConnected, now);
      if link.writes != old(link.writes) {
        assert 0 <= index < |b0| && BuildButtonPayload(b0[index], index).Some?;
        PayloadIgnoresDirty(b0[index], buttons[index], index);
      }
    }

    /**
     * Where saveConfig stands after the first k dirty slots: the slots
     * differ from b0 only in their flags, no clean slot became dirty, and
     * the SET_BUTTON frames of those k slots follow w0.
     */
    ghost predicate SavedUpTo(b0: seq<ButtonConfig>, w0: seq<seq<byte>>, dirty: seq<nat>, k: nat)
      reads this, link
    {
      && isFullyConnected
      && SaveProgress(b0, w0, dirty, k, buttons, link.writes, hasCommandMethod && link.hasCommand && |b0| <= SlotBound)
    }

    /** One iteration of saveConfig's loop: the k-th dirty slot is saved. */
    method SaveStep(dirty: seq<nat>, k: nat, now: nat, b0: seq<ButtonConfig>, ghost w0: seq<seq<byte>>)
      requires k < |dirty| && SavedUpTo(b0, w0, dirty, k)
      modifies this`buttons, this`isDirty, this`lastSaved, this`error, link`writes, link`script, link`readCount
      ensures SavedUpTo(b0, w0, dirty, k + 1)
    {
      ghost var bs, writes := buttons, link.writes;
      SaveButtonToDevice(dirty[k], b0, true, now);
      SaveProgressStep(b0, w0, dirty, k, bs, writes, buttons, link.writes, hasCommandMethod && link.hasCommand && |b0| <= SlotBound);
    }

    /** The loop of saveConfig: SET_BUTTON for each listed slot, in order. */
    method SaveDirty(dirty: seq<nat>, now: nat)
      requires isFullyConnected && IndicesWithin(buttons, dirty)
      modifies this`buttons, this`isDirty, this`lastSaved, this`error, link`writes, link`script, link`readCount
      ensures SavedUpTo(old(buttons), old(link.writes), dirty, |dirty|)
    {
      var b0 := buttons;
      ghost var w0 := link.writes;
      var k := 0;
      while k < |dirty|
        invariant 0 <= k <= |dirty|
        invariant SavedUpTo(b0, w0, dirty, k)
      {
        SaveStep(dirty, k, now, b0, w0);
        k := k + 1;
      }
    }

    /**
     * Where loadConfiguration stands after buttons 0..i-1, from reads s0
     * and frames w0.
     */
    ghost predicate LoadedUpTo(s0: seq<Read>, w0: seq<seq<byte>>, n: nat, i: nat)
      reads this, link
    {
      LoadProgress(link.hasCommand, link.writeFails, s0, w0, n, i, buttons, link.script, link.writes)
    }

    /** The loop of loadConfiguration over buttons 0..n-1, on the freshly sized slot list. */
    method LoadButtons(n: nat)
      requires |buttons| == n
      modifies this`buttons, link`writes, link`script, link`readCount
      ensures LoadProgress(link.hasCommand, link.writeFails, old(link.script), old(link.writes), n, n, buttons, link.script, link.writes)
    {
      ghost var s0 := link.script;
      ghost var w0 := link.writes;
      var i := 0;
      while i < n
        invariant 0 <= i <= n
        invariant LoadedUpTo(s0, w0, n, i)
      {
        LoadButton(i, s0, w0, n);
        i := i + 1;
      }
    }

    /** One iteration of loadConfiguration's loop: GET_BUTTON for button i. */
    method LoadButton(i: nat, ghost s0: seq<Read>, ghost w0: seq<seq<byte>>, ghost n: nat)
      requires i < n && LoadedUpTo(s0, w0, n, i)
      modifies this`buttons, link`writes, link`script, link`readCount
      ensures LoadedUpTo(s0, w0, n, i + 1)
    {
      ghost var bs, script, writes := buttons, link.script, link.writes;
      var o := link.SendCommandStrict(CmdGetButton, [i % 256]);
      buttons := buttons[i := LoadedSlot(o, i)];
      LoadProgressStep(link.hasCommand, link.writeFails, s0, w0, n, i, bs, script, writes, o, link.script, link.writes);
    }

    /**
     * saveConfig: when not fully connected, NotFullyConnected and no I/O;
     * with no dirty slot, no I/O and lastSaved untouched; otherwise
     * SET_BUTTON for every dirty slot in index order, then the collection
     * flag is cleared and lastSaved set whatever the slots' replies were.
     */
    method SaveConfig(now: nat)
      modifies this`buttons, this`isDirty, this`lastSaved, this`error, this`isLoading, link`writes, link`script, link`readCount
      ensures isLoading == (old(isLoading) && !old(isFullyConnected))
      ensures !old(isFullyConnected) ==>
                error == Some(NotFullyConnected) && buttons == old(buttons)
                && lastSaved == old(lastSaved) && link.writes == old(link.writes)
      ensures old(isFullyConnected) && DirtyIndices(old(buttons), |old(buttons)|) == [] ==>
                error == None && buttons == old(buttons) && lastSaved == old(lastSaved) && isDirty == old(isDirty)
                && link.writes == old(link.writes)
      ensures old(isFullyConnected) && DirtyIndices(old(buttons), |old(buttons)|) != [] ==>
                !isDirty && lastSaved == Some(now) && SameButIsDirty(old(buttons), buttons)
                && (forall i :: 0 <= i < |buttons| && !old(buttons)[i].isDirty ==> !buttons[i].isDirty)
                && (hasCommandMethod && link.hasCommand && |old(buttons)| <= SlotBound ==>
                      link.writes == old(link.writes) + SaveFrames(old(buttons), DirtyIndices(old(buttons), |old(buttons)|)))
    {
      if !isFullyConnected {
        error := Some(NotFullyConnected);
        return;
      }
      isLoading := true;
      error := None;
      var dirty := DirtyIndices(buttons, |buttons|);
      if |dirty| == 0 {
        isLoading := false;
        return;
      }
      SaveDirty(dirty, now);
      assert dirty[..|dirty|] == dirty;
      isDirty := false;
      lastSaved := Some(now);
      isLoading := false;
    }

    /**
     * loadConfiguration: ignored while a load runs. Otherwise GET_BUTTON
     * is sent for buttons 0..n-1, n = num_buttons or 15, and slot i
     * becomes LoadedSlot of the i-th reply (LoadProgress with all n
     * buttons done); the collection ends clean with lastSaved set and the
     * re-entry guard released.
     */
    method LoadConfiguration(info: Option<DeviceInfo>, now: nat)
      modifies this`buttons, this`isDirty, this`lastSaved, this`error, this`isLoading, this`loadingConfig
      modifies link`writes, link`script, link`readCount
      ensures old(loadingConfig) ==>
                buttons == old(buttons) && isDirty == old(isDirty) && lastSaved == old(lastSaved)
                && loadingConfig && link.writes == old(link.writes) && link.script == old(link.script)
      ensures !old(loadingConfig) ==>
                && LoadProgress(link.hasCommand, link.writeFails, old(link.script), old(link.writes),
                                NumButtons(info), NumButtons(info), buttons, link.script, link.writes)
                && !isDirty && lastSaved == Some(now) && error == None && !isLoading && !loadingConfig
    {
      if loadingConfig {
        return;
      }
      loadingConfig := true;
      isLoading := true;
      error := None;
      var n := NumButtons(info);
      buttons := seq(n, i requires 0 <= i < n => CreateEmptyButton(i));
      LoadButtons(n);
      isDirty := false;
      lastSaved := Some(now);
      isLoading := false;
      loadingConfig := false;
    }

    /** fetchButtonConfiguration: a load with the stored device info, only when a device and its info are known. */
    method FetchButtonConfiguration(now: nat)
      modifies this`buttons, this`isDirty, this`lastSaved, this`error, this`isLoading, this`loadingConfig
      modifies link`writes, link`script, link`readCount
      ensures !hasDevice || deviceInfo.None? ==> buttons == old(buttons) && lastSaved == old(lastSaved) && link.writes == old(link.writes)
      ensures hasDevice && deviceInfo.Some? && !old(loadingConfig) ==>
                && LoadProgress(link.hasCommand, link.writeFails, old(link.script), old(link.writes),
                                NumButtons(deviceInfo), NumButtons(deviceInfo), buttons, link.script, link.writes)
                && !isDirty && lastSaved == Some(now)
    {
      if !hasDevice || deviceInfo.None? {
        return;
      }
      LoadConfiguration(deviceInfo, now);
    }

    /**
     * resetConfig: when not fully connected or without a command method,
     * NotFullyConnected and no I/O. Otherwise RESET_CONFIG is sent; an
     * accepted reply reloads (only when device info is known) and clears
     * the collection flag; a refused one sets ResetFailed and leaves the
     * slots unchanged; a null reply changes nothing.
     */
    method ResetConfig(now: nat)
      modifies this`buttons, this`isDirty, this`lastSaved, this`error, this`isLoading, this`loadingConfig
      modifies link`writes, link`script, link`readCount
      ensures isLoading == (old(isLoading) && !(old(isFullyConnected) && hasCommandMethod))
      ensures !(old(isFullyConnected) && hasCommandMethod) ==>
                error == Some(NotFullyConnected) && buttons == old(buttons) && link.writes == old(link.writes)
      ensures old(isFullyConnected) && hasCommandMethod ==>
                var (o, rest) := Call(link.hasCommand, link.writeFails, old(link.script));
                && (VerdictOf(o) == Accepted ==> !isDirty && lastSaved == Some(now))
                && (VerdictOf(o) == Accepted && deviceInfo.None? ==> buttons == old(buttons))
                && (VerdictOf(o) == Accepted && hasDevice && deviceInfo.Some? && !old(loadingConfig) ==>
                      LoadProgress(link.hasCommand, link.writeFails, rest, old(link.writes) + [BuildCommand(CmdResetConfig, [])],
                                   NumButtons(deviceInfo), NumButtons(deviceInfo), buttons, link.script, link.writes))
                && (VerdictOf(o) == Refused ==> error == Some(ResetFailed) && buttons == old(buttons) && isDirty == old(isDirty))
                && (VerdictOf(o) == NoReply ==> error == None && buttons == old(buttons) && isDirty == old(isDirty))
    {
      if !isFullyConnected || !hasCommandMethod {
        error := Some(NotFullyConnected);
        return;
      }
      isLoading := true;
      error := None;
      var o := link.SendCommandStrict(CmdResetConfig, []);
      var verdict := VerdictOf(o);
      if verdict == Accepted {
        FetchButtonConfiguration(now);
        isDirty := false;
        lastSaved := Some(now);
      } else if verdict == Refused {
        error := Some(ResetFailed);
      }
      isLoading := false;
    }

    /**
     * cleanupConnection: every connection flag, the device, its info and
     * the command method are cleared; the slots and a pending auto-save
     * are kept, and that save then stops at its guard.
     */
    method CleanupConnection()
      modifies this`isConnected, this`isFullyConnected, this`hasDevice, this`deviceInfo
      modifies this`hasCommandMethod, this`connecting, this`loadingConfig
      ensures !isConnected && !isFullyConnected && !hasDevice && deviceInfo == None
      ensures !hasCommandMethod && !connecting && !loadingConfig
    {
      isConnected := false;
      isFullyConnected := false;
      hasDevice := false;
      deviceInfo := None;
      hasCommandMethod := false;
      connecting := false;
      loadingConfig := false;
    }

    /**
     * The flags connectToServices sets once the GATT connection and the
     * service lookup (gattOk) are done. getCharacteristic rejects when the
     * command characteristic is missing, so the command method and the
     * device are installed, and both connection flags raised, exactly when
     * the lookup and the characteristic both succeed; otherwise the catch
     * drops both flags and sets the connection error.
     */
    method ConnectToServices(gattOk: bool, hasCmdChar: bool)
      modifies this`error, this`isConnected, this`isFullyConnected, this`hasDevice, this`hasCommandMethod
      modifies this`connecting, this`setupPending
      ensures !connecting
      ensures isFullyConnected <==> gattOk && hasCmdChar
      ensures isConnected == isFullyConnected && setupPending == (isFullyConnected || old(setupPending))
      ensures gattOk && hasCmdChar ==> hasCommandMethod && hasDevice
      ensures !(gattOk && hasCmdChar) ==> hasCommandMethod == old(hasCommandMethod) && hasDevice == old(hasDevice)
      ensures error == (if gattOk && hasCmdChar then None else Some(ConnectionError))
    {
      error := None;
      if gattOk && hasCmdChar {
        hasCommandMethod := true;
        hasDevice := true;
        isConnected := true;
        isFullyConnected := true;
        setupPending := true;
        connecting := false;
        return;
      }
      isConnected := false;
      isFullyConnected := false;
      error := Some(ConnectionError);
      connecting := false;
    }

    /**
     * The setup timer firing: GET_INFO through testCommunication; on success
     * the device info is stored and the configuration loaded with it,
     * otherwise CannotCommunicate.
     */
    method RunSetup(now: nat) returns (info: Option<DeviceInfo>)
      requires setupPending
      modifies this`setupPending, this`deviceInfo, this`buttons, this`isDirty, this`lastSaved, this`error
      modifies this`isLoading, this`loadingConfig, link`writes, link`script, link`readCount
      ensures !setupPending
      ensures !link.hasCommand || link.writeFails ==> info.None?
      ensures info.None? ==> error == Some(CannotCommunicate) && buttons == old(buttons) && deviceInfo == old(deviceInfo)
      ensures info.Some? ==> deviceInfo == info
      ensures info.Some? && !old(loadingConfig) ==> |buttons| == NumButtons(info) && !isDirty && lastSaved == Some(now)
    {
      setupPending := false;
      info := link.TestCommunication();
      if info.Some? {
        deviceInfo := info;
        LoadConfiguration(info, now);
      } else {
        error := Some(CannotCommunicate);
      }
    }
  }
}
