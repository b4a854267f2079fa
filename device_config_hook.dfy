// The older configuration hook of the web client
// (pwa/src/hooks/useDeviceConfig.ts): twelve slots with per-slot and
// collection dirty flags, a two-second auto-save, and load, save and reset
// actions that send a textual command through the hook's sendCommand.
// React state is the fields of Hook; timers are an armed field the caller
// fires; the clock is a parameter.
module DeviceConfigHook {
  import opened Bytes
  import opened JsText
  import opened ButtonCodec
  import Synchronizer
  import MainBuild

  /** The number of slots the hook accepts. */
  const HookSlots: nat := 12

  /** DEFAULT_BUTTONS; an absent isDirty reads as false. */
  const DefaultButtons: seq<ButtonConfig> := [
    ButtonConfig(0, "Play/Pause", "MEDIA_PLAY_PAUSE", "#4CAF50", false),
    ButtonConfig(1, "Next", "MEDIA_NEXT", "#2196F3", false),
    ButtonConfig(2, "Previous", "MEDIA_PREV", "#2196F3", false),
    ButtonConfig(3, "Volume +", "VOLUME_UP", "#FF9800", false),
    ButtonConfig(4, "Volume -", "VOLUME_DOWN", "#FF9800", false),
    ButtonConfig(5, "Mute", "VOLUME_MUTE", "#F44336", false),
    ButtonConfig(6, "Stop", "MEDIA_STOP", "#9C27B0", false),
    ButtonConfig(7, "F20", "KEY_F20", "#607D8B", false),
    ButtonConfig(8, "F21", "KEY_F21", "#607D8B", false),
    ButtonConfig(9, "F22", "KEY_F22", "#607D8B", false),
    ButtonConfig(10, "F23", "KEY_F23", "#607D8B", false),
    ButtonConfig(11, "F24", "KEY_F24", "#607D8B", false)]

  /** The device information loadConfig installs. */
  datatype HookDeviceInfo = HookDeviceInfo(name: string, firmware: string, uptime: nat, heap: nat)

  const LoadedInfo: HookDeviceInfo := HookDeviceInfo("ArmDeck", "1.2.0", 12345, 190000)

  /** The messages the hook's own setError receives, by kind. */
  datatype HookError = NotConnected | SaveFailed | AutoSaveFailed

  /** The command texts sendCommand is given. */
  const ReadConfigText: string := "0x50"
  const WriteConfigText: string := "0x51"
  const ResetConfigText: string := "0x52"

  /** What sendCommand writes for a command text: its TextEncoder bytes. */
  function CommandBytes(text: string): seq<byte>
  {
    EncodeSlice(text, |text|)
  }

  /** DEFAULT_BUTTONS has one clean slot per index 0..11. */
  lemma DefaultButtonsShape()
    ensures |DefaultButtons| == HookSlots
    ensures forall i :: 0 <= i < HookSlots ==> DefaultButtons[i].id == i && !DefaultButtons[i].isDirty
  {
  }

  /** The slots after updateButton(index, config). */
  function Updated(bs: seq<ButtonConfig>, index: int, config: Synchronizer.Partial): (r: seq<ButtonConfig>)
    ensures |r| == |bs|
    ensures !(0 <= index < HookSlots && index < |bs|) ==> r == bs
    ensures 0 <= index < HookSlots && index < |bs| ==>
              r[index] == Synchronizer.Merge(bs[index], config) && r[index].isDirty
              && forall j :: 0 <= j < |bs| && j != index ==> r[j] == bs[j]
  {
    if 0 <= index < HookSlots && index < |bs| then bs[index := Synchronizer.Merge(bs[index], config)] else bs
  }

  /** getButtonConfig on slots bs: None for undefined. */
  function ButtonAt(bs: seq<ButtonConfig>, index: int): (r: Option<ButtonConfig>)
    ensures r.Some? <==> 0 <= index < HookSlots && index < |bs|
    ensures r.Some? ==> r.value == bs[index]
  {
    if 0 <= index < HookSlots && index < |bs| then Some(bs[index]) else None
  }

  /**
   * An update is read back by getButtonConfig with the partial's label and
   * action and the slot dirty; every other index reads as before.
   */
  lemma UpdateThenGet(bs: seq<ButtonConfig>, index: int, config: Synchronizer.Partial, other: int)
    requires |bs| == HookSlots && 0 <= index < HookSlots
    ensures var got := ButtonAt(Updated(bs, index, config), index);
            got.Some? && got.value.isDirty
            && (config.caption.Some? ==> got.value.caption == config.caption.value)
            && (config.action.Some? ==> got.value.action == config.action.value)
    ensures other != index ==> ButtonAt(Updated(bs, index, config), other) == ButtonAt(bs, other)
  {
  }

  /** The number of dirty slots. */
  function DirtyCount(bs: seq<ButtonConfig>): (n: nat)
    ensures n <= |bs|
  {
    if bs == [] then 0 else DirtyCount(bs[..|bs| - 1]) + (if bs[|bs| - 1].isDirty then 1 else 0)
  }

  /** Updating a clean slot adds exactly one dirty slot; updating a dirty one adds none. */
  lemma {:induction false} UpdateAddsOneDirty(bs: seq<ButtonConfig>, index: nat, config: Synchronizer.Partial)
    requires index < |bs| && index < HookSlots
    ensures DirtyCount(Updated(bs, index, config)) == DirtyCount(bs) + (if bs[index].isDirty then 0 else 1)
  {
    var r := Updated(bs, index, config);
    var last := |bs| - 1;
    if index < last {
      assert r[..last] == Updated(bs[..last], index, config);
      UpdateAddsOneDirty(bs[..last], index, config);
    } else {
      assert r[..last] == bs[..last];
    }
  }

  /**
   * Every command text the hook sends starts with the character '0', so a
   * receiver that dispatches on the first byte (the protocol build's WRITE
   * handler does) sees the same opcode 0x30, its button test, for all
   * three, and cannot tell them apart.
   */
  lemma CommandTextsShareFirstByte()
    ensures var texts := [ReadConfigText, WriteConfigText, ResetConfigText];
            forall t :: t in texts ==> |CommandBytes(t)| == 4 && CommandBytes(t)[0] == MainBuild.CmdTestAll
    ensures CommandBytes(ReadConfigText) != CommandBytes(WriteConfigText)
  {
    EncodeAscii(ReadConfigText, 4);
    EncodeAscii(WriteConfigText, 4);
    EncodeAscii(ResetConfigText, 4);
  }

  /** The command bytes the comments name: one opcode byte each. */
  function OpcodeBytes(text: string): (r: seq<byte>)
    requires text in [ReadConfigText, WriteConfigText, ResetConfigText]
    ensures |r| == 1
  {
    if text == ReadConfigText then [0x50] else if text == WriteConfigText then [0x51] else [0x52]
  }

  /** Sent as single opcode bytes, the three commands differ in their first byte, and none is the button test. */
  lemma OpcodesAreDistinct()
    ensures OpcodeBytes(ReadConfigText)[0] != OpcodeBytes(WriteConfigText)[0]
    ensures OpcodeBytes(WriteConfigText)[0] != OpcodeBytes(ResetConfigText)[0]
    ensures OpcodeBytes(ReadConfigText)[0] != OpcodeBytes(ResetConfigText)[0]
    ensures forall t :: t in [ReadConfigText, WriteConfigText, ResetConfigText] ==> OpcodeBytes(t)[0] != MainBuild.CmdTestAll
  {
  }

  /**
   * Whether an auto-save succeeds. debouncedSave is memoised with no
   * dependencies, so it keeps the saveConfigToDevice of the first render,
   * whose connection flag is the one at mount, not the current one.
   */
  function AutoSaveSucceeds(connectedAtMount: bool, connectedNow: bool): bool
  {
    connectedAtMount
  }

  /** An auto-save that consults the current connection, as a manual save does. */
  function AutoSaveSucceedsCorrected(connectedAtMount: bool, connectedNow: bool): bool
  {
    connectedNow
  }

  /**
   * A hook mounted before the device connected never auto-saves, even
   * while connected, when a manual save at the same moment succeeds.
   */
  lemma AutoSaveUsesMountState()
    ensures !AutoSaveSucceeds(false, true)
    ensures AutoSaveSucceeds(true, false)
  {
  }

  /** The corrected auto-save succeeds exactly when a manual save would. */
  lemma CorrectedAutoSaveAgreesWithManual(connectedAtMount: bool, connectedNow: bool)
    ensures AutoSaveSucceedsCorrected(connectedAtMount, connectedNow) == connectedNow
    ensures AutoSaveSucceedsCorrected(false, true) != AutoSaveSucceeds(false, true)
  {
  }

  class Hook {
    var buttons: seq<ButtonConfig>
    var deviceInfo: Option<HookDeviceInfo>
    var isLoading: bool
    var isDirty: bool
    /** lastSaved, as the time it was set. */
    var lastSaved: Option<nat>
    var error: Option<HookError>
    /** isConnected of the hook's useBle instance. */
    var isConnected: bool
    /** isConnected at the first render, the one debouncedSave keeps. */
    const connectedAtMount: bool
    /** bleDevice?.characteristics.cmd is present. */
    var hasCommandChar: bool
    /** The byte strings written to the command characteristic. */
    var written: seq<seq<byte>>
    /** The armed auto-save timer and the slots it will save. */
    var autoSave: Option<seq<ButtonConfig>>

    /** Exactly twelve slots, as every action keeps. */
    ghost predicate Valid()
      reads this
    {
      |buttons| == HookSlots
    }

    /**
     * The first render. The hook calls useBle() for an instance of its own,
     * and nothing in the hook connects that instance or selects a device,
     * so it starts, and stays, disconnected with no command characteristic.
     */
    constructor()
      ensures Valid() && buttons == DefaultButtons && deviceInfo == None
      ensures !isLoading && !isDirty && lastSaved == None && error == None
      ensures Offline() && !connectedAtMount
      ensures written == [] && autoSave == None
    {
      buttons := DefaultButtons;
      deviceInfo, isLoading, isDirty, lastSaved, error := None, false, false, None, None;
      isConnected := false;
      connectedAtMount := false;
      hasCommandChar := false;
      written, autoSave := [], None;
    }

    /** The hook's useBle instance is disconnected and has no command characteristic. */
    ghost predicate Offline()
      reads this
    {
      !isConnected && !hasCommandChar
    }

    /**
     * The hook's sendCommand: the text's bytes are written when the
     * command characteristic exists; it never throws (its failures only
     * reach the useBle instance's own error).
     */
    method SendCommand(text: string)
      modifies this`written
      ensures written == old(written) + (if hasCommandChar then [CommandBytes(text)] else [])
    {
      if hasCommandChar {
        written := written + [CommandBytes(text)];
      }
    }

    /**
     * loadConfig: disconnected, only NotConnected. Connected, READ_CONFIG is
     * sent and, since sendCommand never throws, DEFAULT_BUTTONS and the
     * fixed device information are installed whatever the device holds,
     * the collection is clean and lastSaved set.
     */
    method LoadConfig(now: nat)
      requires Valid()
      modifies this`buttons, this`deviceInfo, this`isLoading, this`isDirty, this`lastSaved, this`error, this`written
      ensures Valid()
      ensures !isConnected ==> error == Some(NotConnected) && buttons == old(buttons) && isDirty == old(isDirty)
                               && lastSaved == old(lastSaved) && written == old(written) && isLoading == old(isLoading)
                               && deviceInfo == old(deviceInfo)
      ensures isConnected ==> buttons == DefaultButtons && deviceInfo == Some(LoadedInfo) && !isDirty
                              && lastSaved == Some(now) && error == None && !isLoading
                              && written == old(written) + (if hasCommandChar then [CommandBytes(ReadConfigText)] else [])
    {
      if !isConnected {
        error := Some(NotConnected);
        return;
      }
      isLoading := true;
      error := None;
      SendCommand(ReadConfigText);
      buttons := DefaultButtons;
      deviceInfo := Some(LoadedInfo);
      isDirty := false;
      lastSaved := Some(now);
      isLoading := false;
    }

    /**
     * saveConfigToDevice: throws (ok false) when disconnected; otherwise
     * WRITE_CONFIG is sent. The JSON text it builds is only logged.
     */
    method SaveConfigToDevice(toSave: seq<ButtonConfig>) returns (ok: bool)
      modifies this`written
      ensures ok == isConnected
      ensures written == old(written) + (if isConnected && hasCommandChar then [CommandBytes(WriteConfigText)] else [])
    {
      if !isConnected {
        return false;
      }
      SendCommand(WriteConfigText);
      return true;
    }

    /**
     * saveConfig: on success the collection is clean and lastSaved set; on
     * failure SaveFailed is set and the error rethrown (thrown). The slots,
     * and so their own flags, are never changed.
     */
    method SaveConfig(toSave: Option<seq<ButtonConfig>>, now: nat) returns (thrown: bool)
      requires Valid()
      modifies this`isLoading, this`isDirty, this`lastSaved, this`error, this`written
      ensures Valid() && !isLoading && thrown == !isConnected
      ensures !thrown ==> !isDirty && lastSaved == Some(now) && error == None
                          && written == old(written) + (if hasCommandChar then [CommandBytes(WriteConfigText)] else [])
      ensures thrown ==> isDirty == old(isDirty) && lastSaved == old(lastSaved) && error == Some(SaveFailed)
                         && written == old(written)
    {
      var configToSave := if toSave.Some? then toSave.value else buttons;
      isLoading := true;
      error := None;
      var ok := SaveConfigToDevice(configToSave);
      if ok {
        isDirty := false;
        lastSaved := Some(now);
      } else {
        error := Some(SaveFailed);
      }
      isLoading := false;
      thrown := !ok;
    }

    /**
     * resetConfig: disconnected, only NotConnected. Connected, RESET_CONFIG
     * is sent and DEFAULT_BUTTONS installed, clean, with lastSaved set.
     */
    method ResetConfig(now: nat)
      requires Valid()
      modifies this`buttons, this`isLoading, this`isDirty, this`lastSaved, this`error, this`written
      ensures Valid()
      ensures !isConnected ==> error == Some(NotConnected) && buttons == old(buttons) && isDirty == old(isDirty)
                               && lastSaved == old(lastSaved) && written == old(written) && isLoading == old(isLoading)
      ensures isConnected ==> buttons == DefaultButtons && !isDirty && lastSaved == Some(now) && error == None && !isLoading
                              && written == old(written) + (if hasCommandChar then [CommandBytes(ResetConfigText)] else [])
    {
      if !isConnected {
        error := Some(NotConnected);
        return;
      }
      isLoading := true;
      error := None;
      SendCommand(ResetConfigText);
      buttons := DefaultButtons;
      isDirty := false;
      lastSaved := Some(now);
      isLoading := false;
    }

    /**
     * updateButton: an index outside 0..11 changes nothing; otherwise the
     * slot takes the merge and the collection becomes dirty.
     */
    method UpdateButton(index: int, config: Synchronizer.Partial)
      requires Valid()
      modifies this`buttons, this`isDirty
      ensures Valid() && buttons == Updated(old(buttons), index, config)
      ensures isDirty == (old(isDirty) || 0 <= index < HookSlots)
    {
      if index < 0 || index >= HookSlots {
        return;
      }
      buttons := buttons[index := Synchronizer.Merge(buttons[index], config)];
      isDirty := true;
    }

    /** getButtonConfig. */
    method GetButtonConfig(index: int) returns (r: Option<ButtonConfig>)
      requires Valid()
      ensures r == ButtonAt(buttons, index)
    {
      if index < 0 || index >= HookSlots {
        return None;
      }
      return Some(buttons[index]);
    }

    /** The auto-save effect: dirty and connected, the timer is re-armed with the current slots. */
    method AutoSaveEffect()
      modifies this`autoSave
      ensures autoSave == (if isDirty && isConnected then Some(buttons) else old(autoSave))
    {
      if isDirty && isConnected {
        autoSave := Some(buttons);
      }
    }

    /**
     * The auto-save timer firing: the first render's saveConfigToDevice
     * runs, so the outcome follows AutoSaveSucceeds. On success the
     * collection is clean and lastSaved set; otherwise AutoSaveFailed.
     */
    method FireAutoSave(now: nat)
      requires autoSave.Some?
      modifies this`autoSave, this`isDirty, this`lastSaved, this`error, this`written
      ensures autoSave == None
      ensures AutoSaveSucceeds(connectedAtMount, isConnected) ==>
                !isDirty && lastSaved == Some(now) && error == old(error)
                && written == old(written) + (if hasCommandChar then [CommandBytes(WriteConfigText)] else [])
      ensures !AutoSaveSucceeds(connectedAtMount, isConnected) ==>
                isDirty == old(isDirty) && lastSaved == old(lastSaved) && error == Some(AutoSaveFailed) && written == old(written)
    {
      autoSave := None;
      if connectedAtMount {
        SendCommand(WriteConfigText);
        isDirty := false;
        lastSaved := Some(now);
      } else {
        error := Some(AutoSaveFailed);
      }
    }
  }

  /**
   * A mounted hook driven through every device action: since its useBle
   * instance never connects, loading and resetting report NotConnected,
   * saving rethrows with the save error, nothing is ever written, and the
   * auto-save effect never arms its timer, so an edit stays dirty.
   */
  method MountedHookNeverReachesDevice(now: nat, toSave: Option<seq<ButtonConfig>>, index: int,
                                       config: Synchronizer.Partial)
    returns (h: Hook, loadError: Option<HookError>, saveThrown: bool, saveError: Option<HookError>)
    ensures loadError == Some(NotConnected)
    ensures saveThrown && saveError == Some(SaveFailed)
    ensures h.error == Some(NotConnected)
    ensures h.written == [] && h.autoSave == None && h.Offline()
    ensures h.buttons == Updated(DefaultButtons, index, config) && h.isDirty == (0 <= index < HookSlots)
    ensures h.deviceInfo == None && h.lastSaved == None
  {
    h := new Hook();
    h.LoadConfig(now);
    loadError := h.error;
    saveThrown := h.SaveConfig(toSave, now);
    saveError := h.error;
    h.ResetConfig(now);
    h.UpdateButton(index, config);
    h.AutoSaveEffect();
  }
}
