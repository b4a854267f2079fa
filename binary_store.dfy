// The binary configuration store of the main firmware (main/armdeck_config.c):
// a 15-button armdeck_config_t kept in memory and saved as one NVS blob.
// NVS is reduced to the committed blob plus injected failure codes.
module BinaryStore {
  import opened Bytes
  import opened Esp
  import opened FwLayout
  import P = FwProtocol

  /** default_buttons[15]: the protocol's twelve defaults, then F13..F15 in indigo. */
  function StoreDefaults(): (bs: seq<Button>)
    ensures |bs| == ConfigButtons && bs[..12] == P.DefaultButtons()
    ensures forall i :: 0 <= i < ConfigButtons ==> WellFormedButton(bs[i]) && bs[i].id == i
  {
    P.DefaultButtons()
    + [Button(12, ActionKey, 0x74, 0, 0x3F, 0x51, 0xB5, 0, P.Label([0x46, 0x31, 0x33])),   // F13
       Button(13, ActionKey, 0x75, 0, 0x3F, 0x51, 0xB5, 0, P.Label([0x46, 0x31, 0x34])),   // F14
       Button(14, ActionKey, 0x76, 0, 0x3F, 0x51, 0xB5, 0, P.Label([0x46, 0x31, 0x35]))]   // F15
  }

  /** What init and reset install: version 1, 15 buttons, reserved 0, the defaults. */
  function DefaultConfig(): (c: Config)
    ensures WellFormedConfig(c)
  {
    Config(ProtocolVersion, 15, 0, StoreDefaults())
  }

  /** The zero-initialised static current_config. */
  function ZeroConfig(): (c: Config)
    ensures WellFormedConfig(c)
  {
    Config(0, 0, 0, seq(ConfigButtons, _ => P.ZeroButton))
  }

  /** The per-button checks of armdeck_config_validate for slot i. */
  predicate ButtonValid(b: Button, i: nat)
  {
    b.id as int == i && b.actionType <= ActionCustom && 0 in b.text
  }

  /** armdeck_config_validate on a non-NULL configuration. */
  predicate ValidConfig(c: Config)
    requires WellFormedConfig(c)
  {
    c.version == ProtocolVersion && c.numButtons == 15
    && forall i :: 0 <= i < ConfigButtons ==> ButtonValid(c.buttons[i], i)
  }

  /**
   * armdeck_config_validate: a NULL pointer is invalid; otherwise the
   * version, the button count and every slot's id, action type and label
   * terminator are checked in order. (The source's action_type < ACTION_NONE
   * test can never hold for an unsigned byte.)
   */
  method Validate(config: Option<Config>) returns (ok: bool)
    requires config.Some? ==> WellFormedConfig(config.value)
    ensures ok <==> config.Some? && ValidConfig(config.value)
  {
    if config.None? {
      return false;
    }
    var c := config.value;
    if c.version != ProtocolVersion || c.numButtons != 15 {
      return false;
    }
    var i := 0;
    while i < 15
      invariant 0 <= i <= 15
      invariant forall k :: 0 <= k < i ==> ButtonValid(c.buttons[k], k)
    {
      var btn := c.buttons[i];
      if btn.id as int != i || btn.actionType > ActionCustom {
        return false;
      }
      var nullFound := false;
      var j := 0;
      while j < 8
        invariant 0 <= j <= 8
        invariant !nullFound && forall k :: 0 <= k < j ==> btn.text[k] != 0
      {
        if btn.text[j] == 0 {
          nullFound := true;
          break;
        }
        j := j + 1;
      }
      if !nullFound {
        return false;
      }
      i := i + 1;
    }
    return true;
  }

  /** Failure codes injected for the NVS calls of armdeck_config_save. */
  datatype SaveFaults = SaveFaults(open: EspErr, setBlob: EspErr, commit: EspErr)

  /** Failure codes injected for nvs_open and nvs_get_blob in armdeck_config_load. */
  datatype LoadFaults = LoadFaults(open: EspErr, getBlob: EspErr)

  /** The first failing step of a save, or ESP_OK. */
  function SaveResult(f: SaveFaults): (ret: EspErr)
    ensures ret == EspOk <==> f.open == EspOk && f.setBlob == EspOk && f.commit == EspOk
  {
    if f.open != EspOk then f.open else if f.setBlob != EspOk then f.setBlob else f.commit
  }

  /** What nvs_get_blob reports: an injected failure, NOT_FOUND when no blob is stored, or ESP_OK. */
  function BlobRead(f: LoadFaults, stored: Option<Config>): EspErr
  {
    if f.getBlob != EspOk then f.getBlob else if stored.None? then EspErrNvsNotFound else EspOk
  }

  /** The code armdeck_config_load returns, given the blob in NVS. */
  function LoadResult(f: LoadFaults, stored: Option<Config>): (ret: EspErr)
    requires stored.Some? ==> WellFormedConfig(stored.value)
  {
    if f.open != EspOk then f.open
    else
      var got := BlobRead(f, stored);
      if got == EspOk then (if ValidConfig(stored.value) then EspOk else EspErrInvalidState)
      else if got == EspErrNvsNotFound then EspOk
      else got
  }

  /** current_config after armdeck_config_load: the blob whenever it was read, valid or not. */
  function LoadedConfig(f: LoadFaults, stored: Option<Config>, before: Config): Config
  {
    if f.open == EspOk && BlobRead(f, stored) == EspOk then stored.value else before
  }

  /** A load reports NOT_FOUND only when opening the namespace did: a missing blob is mapped to ESP_OK. */
  lemma LoadNotFoundOnlyFromOpen(f: LoadFaults, stored: Option<Config>)
    requires stored.Some? ==> WellFormedConfig(stored.value)
    ensures LoadResult(f, stored) == EspErrNvsNotFound <==> f.open == EspErrNvsNotFound
    ensures f.open == EspOk && stored.None? && f.getBlob == EspOk ==> LoadResult(f, stored) == EspOk
  {
  }

  /** A blob that reads but fails validation is already installed when the load reports INVALID_STATE. */
  lemma LoadInvalidOverwrites(stored: Config, before: Config)
    requires WellFormedConfig(stored) && !ValidConfig(stored)
    ensures LoadResult(LoadFaults(EspOk, EspOk), Some(stored)) == EspErrInvalidState
    ensures LoadedConfig(LoadFaults(EspOk, EspOk), Some(stored), before) == stored
  {
  }

  /** The factory configuration passes armdeck_config_validate. */
  lemma DefaultsValid()
    ensures ValidConfig(DefaultConfig())
  {
    var bs := StoreDefaults();
    forall i | 0 <= i < ConfigButtons ensures 0 in bs[i].text {
      assert bs[i].text[7] == 0;
    }
  }

  /** set_button does not check the id it copies, so one call can leave a configuration that fails validation. */
  lemma SetButtonCanInvalidate()
    ensures var c := DefaultConfig();
            var d := c.(buttons := c.buttons[0 := c.buttons[1]]);
            WellFormedConfig(d) && ValidConfig(c) && !ValidConfig(d)
  {
    DefaultsValid();
    var c := DefaultConfig();
    var d := c.(buttons := c.buttons[0 := c.buttons[1]]);
    assert !ButtonValid(d.buttons[0], 0);
  }

  /** main/armdeck_config.c's static state: current_config, config_initialized, and the NVS blob. */
  class Store {
    var current: Config
    var initialized: bool
    var nvs: Option<Config>

    ghost predicate Valid()
      reads this
    {
      WellFormedConfig(current) && (nvs.Some? ==> WellFormedConfig(nvs.value))
    }

    /** Power-on: zeroed configuration, not initialised, whatever blob NVS already holds. */
    constructor(stored: Option<Config>)
      requires stored.Some? ==> WellFormedConfig(stored.value)
      ensures Valid() && current == ZeroConfig() && !initialized && nvs == stored
    {
      current := ZeroConfig();
      initialized := false;
      nvs := stored;
    }

    /** armdeck_config_save: the blob is replaced only when open, set and commit all succeed. */
    method Save(f: SaveFaults) returns (ret: EspErr)
      requires Valid()
      modifies this`nvs
      ensures Valid() && ret == SaveResult(f)
      ensures nvs == if ret == EspOk then Some(current) else old(nvs)
    {
      if f.open != EspOk {
        return f.open;
      }
      if f.setBlob != EspOk {
        return f.setBlob;
      }
      ret := f.commit;
      if ret == EspOk {
        nvs := Some(current);
      }
    }

    /** armdeck_config_load: nvs_get_blob reads straight into current_config, before validation. */
    method Load(f: LoadFaults) returns (ret: EspErr)
      requires Valid()
      modifies this`current
      ensures Valid()
      ensures ret == LoadResult(f, nvs) && current == LoadedConfig(f, nvs, old(current))
    {
      if f.open != EspOk {
        return f.open;
      }
      var got := BlobRead(f, nvs);
      if got == EspOk {
        current := nvs.value;
        var ok := Validate(Some(current));
        if !ok {
          return EspErrInvalidState;
        }
        return EspOk;
      } else if got == EspErrNvsNotFound {
        return EspOk;
      }
      return got;
    }

    /**
     * armdeck_config_init: installs the defaults, marks the store initialised,
     * loads, saves the defaults only when the load reported NOT_FOUND, and
     * returns ESP_OK whatever happened.
     */
    method Init(lf: LoadFaults, sf: SaveFaults) returns (ret: EspErr)
      requires Valid()
      modifies this
      ensures Valid() && ret == EspOk && initialized
      ensures current == LoadedConfig(lf, old(nvs), DefaultConfig())
      ensures nvs == if LoadResult(lf, old(nvs)) == EspErrNvsNotFound && SaveResult(sf) == EspOk
                     then Some(DefaultConfig()) else old(nvs)
    {
      current := DefaultConfig();
      initialized := true;
      var r := Load(lf);
      if r == EspErrNvsNotFound {
        r := Save(sf);
      }
      return EspOk;
    }

    /** armdeck_config_reset: installs the defaults (the flag is left alone) and saves. */
    method Reset(sf: SaveFaults) returns (ret: EspErr)
      requires Valid()
      modifies this`current, this`nvs
      ensures Valid() && current == DefaultConfig() && ValidConfig(current) && ret == SaveResult(sf)
      ensures nvs == if ret == EspOk then Some(DefaultConfig()) else old(nvs)
    {
      DefaultsValid();
      current := DefaultConfig();
      ret := Save(sf);
    }

    /** armdeck_config_get: NULL until initialised. */
    method Get() returns (c: Option<Config>)
      requires Valid()
      ensures c == if initialized then Some(current) else None
    {
      if !initialized {
        return None;
      }
      return Some(current);
    }

    /** armdeck_config_set: a NULL, uninitialised or invalid request changes nothing. */
    method Set(config: Option<Config>, sf: SaveFaults) returns (ret: EspErr)
      requires Valid() && (config.Some? ==> WellFormedConfig(config.value))
      modifies this`current, this`nvs
      ensures Valid()
      ensures config.None? || !initialized || !ValidConfig(config.value)
              ==> ret == EspErrInvalidArg && current == old(current) && nvs == old(nvs)
      ensures config.Some? && initialized && ValidConfig(config.value)
              ==> current == config.value && ret == SaveResult(sf)
                  && nvs == if ret == EspOk then Some(current) else old(nvs)
    {
      if config.None? || !initialized {
        return EspErrInvalidArg;
      }
      var ok := Validate(config);
      if !ok {
        return EspErrInvalidArg;
      }
      current := config.value;
      ret := Save(sf);
    }

    /** armdeck_config_get_button: NULL until initialised or for an id of 15 or more. */
    method GetButton(id: byte) returns (b: Option<Button>)
      requires Valid()
      ensures b == if initialized && id < 15 then Some(current.buttons[id]) else None
    {
      if !initialized || id >= 15 {
        return None;
      }
      return Some(current.buttons[id]);
    }

    /** armdeck_config_set_button: copies the button into slot id without looking at its own id. */
    method SetButton(id: byte, button: Option<Button>, sf: SaveFaults) returns (ret: EspErr)
      requires Valid() && (button.Some? ==> WellFormedButton(button.value))
      modifies this`current, this`nvs
      ensures Valid()
      ensures !initialized || button.None? || id >= 15
              ==> ret == EspErrInvalidArg && current == old(current) && nvs == old(nvs)
      ensures initialized && button.Some? && id < 15
              ==> current == old(current).(buttons := old(current).buttons[id := button.value])
                  && ret == SaveResult(sf) && nvs == if ret == EspOk then Some(current) else old(nvs)
    {
      if !initialized || button.None? || id >= 15 {
        return EspErrInvalidArg;
      }
      current := current.(buttons := current.buttons[id := button.value]);
      ret := Save(sf);
    }
  }
}
