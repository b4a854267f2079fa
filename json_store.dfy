// The older JSON configuration store (components/armdeck_service/armdeck_config.c):
// twelve buttons held as fixed-size C strings, a CRC32 over everything but
// the checksum field, and the 0x50/0x51/0x52 JSON commands. cJSON parsing
// is replaced by the parsed document, CRC32 by a function parameter, and
// NVS by the committed blob plus injected failure codes.
// Strings are sequences of char in which each char stands for one C byte
// (a char array element), so lengths and truncation limits count bytes.
module JsonStore {
  import opened Bytes
  import opened Esp
  import JsText

  const ConfigVersion: byte := 1
  const MaxButtons: nat := 12
  const LabelMaxLen: nat := 16
  const ActionMaxLen: nat := 32
  const ColorMaxLen: nat := 8
  const JsonMaxSize: nat := 1500

  const CmdReadConfig: byte := 0x50
  const CmdWriteConfig: byte := 0x51
  const CmdResetConfig: byte := 0x52

  // ---------------------------------------------------------------------
  // C strings in fixed char arrays

  /** strlen: the characters before the first NUL (all of them when there is none). */
  function StrLen(s: string): (n: nat)
    ensures n <= |s| && (n < |s| ==> s[n] == '\0')
    ensures forall i :: 0 <= i < n ==> s[i] != '\0'
  {
    if s == [] || s[0] == '\0' then 0 else 1 + StrLen(s[1..])
  }

  /** The C string a char pointer designates: everything before the first NUL. */
  function CText(s: string): (t: string)
    ensures '\0' !in t && |t| <= |s|
  {
    s[..StrLen(s)]
  }

  /**
   * A char array as C code reads it: the string before its first NUL, or
   * no NUL at all. The bytes after the NUL are not represented.
   */
  datatype CArray = Str(text: string) | Unterminated

  /** The array has n elements: its string and the NUL fit. */
  predicate FitsIn(a: CArray, n: nat)
  {
    a.Str? ==> |a.text| < n
  }

  /** strncpy(dst, src, n - 1) into a zeroed n-array, then dst[n - 1] = '\0'. */
  function CopyTruncated(src: string, n: nat): (a: CArray)
    requires n >= 1
    ensures FitsIn(a, n) && a.Str? && '\0' !in a.text
  {
    var t := CText(src);
    Str(t[..if |t| < n - 1 then |t| else n - 1])
  }

  /** strlen of a string without NUL is its length. */
  lemma {:induction false} NulFreeStrLen(s: string)
    requires '\0' !in s
    ensures StrLen(s) == |s| && CText(s) == s
  {
    if s != [] {
      assert s[1..] == s[1..] && '\0' !in s[1..] by {
        forall k | 0 <= k < |s| - 1 ensures s[1..][k] != '\0' { assert s[1..][k] == s[k + 1]; }
      }
      NulFreeStrLen(s[1..]);
    }
  }

  /** A NUL-free string that fits is copied whole. */
  lemma CopyShortWhole(s: string, n: nat)
    requires n >= 1 && '\0' !in s && |s| < n
    ensures CopyTruncated(s, n) == Str(s)
  {
    NulFreeStrLen(s);
    var t := CText(s);
    assert t == s;
    assert t[..|t|] == s;
  }

  // ---------------------------------------------------------------------
  // The configuration

  /** button_config_t: id and three char arrays of 16, 32 and 8 elements. */
  datatype JButton = JButton(id: byte, caption: CArray, action: CArray, color: CArray)

  predicate WellFormedJButton(b: JButton)
  {
    FitsIn(b.caption, LabelMaxLen) && FitsIn(b.action, ActionMaxLen) && FitsIn(b.color, ColorMaxLen)
  }

  /** armdeck_config_t. */
  datatype JConfig = JConfig(version: byte, buttons: seq<JButton>, checksum: u32)

  predicate WellFormedJConfig(c: JConfig)
  {
    |c.buttons| == MaxButtons && forall i :: 0 <= i < MaxButtons ==> WellFormedJButton(c.buttons[i])
  }

  /** esp_crc32_le over the version byte and the buttons (every byte but the checksum field). */
  type Crc32 = (byte, seq<JButton>) -> u32

  /** The checks armdeck_config_validate makes on buttons[i]. */
  predicate JButtonValid(b: JButton, i: nat)
    requires WellFormedJButton(b)
  {
    b.id as int == i && b.caption.Str? && b.action.Str? && b.color.Str?
    && |b.color.text| == 7 && b.color.text[0] == '#'
  }

  /** armdeck_config_validate on a non-NULL configuration. */
  predicate ValidConfig(c: JConfig, crc: Crc32)
    requires WellFormedJConfig(c)
  {
    c.version == ConfigVersion && c.checksum == crc(c.version, c.buttons)
    && forall i :: 0 <= i < MaxButtons ==> JButtonValid(c.buttons[i], i)
  }

  /** armdeck_config_validate: NULL, version, checksum, then each button in order. */
  method Validate(config: Option<JConfig>, crc: Crc32) returns (ok: bool)
    requires config.Some? ==> WellFormedJConfig(config.value)
    ensures ok <==> config.Some? && ValidConfig(config.value, crc)
  {
    if config.None? {
      return false;
    }
    var c := config.value;
    if c.version != ConfigVersion || c.checksum != crc(c.version, c.buttons) {
      return false;
    }
    var i := 0;
    while i < MaxButtons
      invariant 0 <= i <= MaxButtons
      invariant forall k :: 0 <= k < i ==> JButtonValid(c.buttons[k], k)
    {
      var btn := c.buttons[i];
      if btn.id as int != i || btn.caption.Unterminated? || btn.action.Unterminated? || btn.color.Unterminated? {
        return false;
      }
      if |btn.color.text| != 7 || btn.color.text[0] != '#' {
        return false;
      }
      i := i + 1;
    }
    return true;
  }

  // ---------------------------------------------------------------------
  // The action table

  /** action_mapping_t. */
  datatype Mapping = Mapping(action: string, hidCode: byte, isConsumer: bool)

  const ActionMap: seq<Mapping> := [
    Mapping("MEDIA_PLAY_PAUSE", 0xCD, true),
    Mapping("MEDIA_NEXT", 0xB5, true),
    Mapping("MEDIA_PREV", 0xB6, true),
    Mapping("VOLUME_UP", 0xE9, true),
    Mapping("VOLUME_DOWN", 0xEA, true),
    Mapping("VOLUME_MUTE", 0xE2, true),
    Mapping("MEDIA_STOP", 0xB7, true),
    Mapping("KEY_F20", 0x6F, false),
    Mapping("KEY_F21", 0x70, false),
    Mapping("KEY_F22", 0x71, false),
    Mapping("KEY_F23", 0x72, false),
    Mapping("KEY_F24", 0x73, false)]

  /** The first entry of table whose name is action. */
  function FirstMapping(action: string, table: seq<Mapping>): Option<Mapping>
  {
    if table == [] then None
    else if table[0].action == action then Some(table[0])
    else FirstMapping(action, table[1..])
  }

  /** A lookup finds an entry carrying the name, and fails exactly when no entry carries it. */
  lemma {:induction false} FirstMappingFound(action: string, table: seq<Mapping>)
    ensures FirstMapping(action, table).Some? ==>
              FirstMapping(action, table).value in table && FirstMapping(action, table).value.action == action
    ensures FirstMapping(action, table).None? <==> forall k :: 0 <= k < |table| ==> table[k].action != action
  {
    if table != [] && table[0].action != action {
      FirstMappingFound(action, table[1..]);
      assert forall k :: 1 <= k < |table| ==> table[k] == table[1..][k - 1];
    }
  }

  /** A table lookup stops at the first entry carrying the name. */
  lemma {:induction false} FirstMappingAt(action: string, table: seq<Mapping>, k: nat)
    requires k < |table| && table[k].action == action
    requires forall j :: 0 <= j < k ==> table[j].action != action
    ensures FirstMapping(action, table) == Some(table[k])
  {
    if k > 0 {
      FirstMappingAt(action, table[1..], k - 1);
    }
  }

  /** Length and last character of a name, which tell the table's names apart. */
  function Signature(s: string): int
  {
    if s == [] then 0 else |s| * 256 + s[|s| - 1] as int
  }

  const Signatures: seq<int> := [4165, 2644, 2646, 2384, 2894, 2885, 2640, 1840, 1841, 1842, 1843, 1844]

  lemma SignatureOf(k: nat)
    requires k < |ActionMap|
    ensures Signature(ActionMap[k].action) == Signatures[k]
  {
    var t := ActionMap;
    if k == 0 { assert t[0].action == "MEDIA_PLAY_PAUSE"; }
    else if k == 1 { assert t[1].action == "MEDIA_NEXT"; }
    else if k == 2 { assert t[2].action == "MEDIA_PREV"; }
    else if k == 3 { assert t[3].action == "VOLUME_UP"; }
    else if k == 4 { assert t[4].action == "VOLUME_DOWN"; }
    else if k == 5 { assert t[5].action == "VOLUME_MUTE"; }
    else if k == 6 { assert t[6].action == "MEDIA_STOP"; }
    else if k == 7 { assert t[7].action == "KEY_F20"; }
    else if k == 8 { assert t[8].action == "KEY_F21"; }
    else if k == 9 { assert t[9].action == "KEY_F22"; }
    else if k == 10 { assert t[10].action == "KEY_F23"; }
    else { assert t[11].action == "KEY_F24"; }
  }

  /** The names are pairwise distinct. */
  lemma ActionNamesDistinct()
    ensures forall j, k :: 0 <= j < k < |ActionMap| ==> ActionMap[j].action != ActionMap[k].action
  {
    var g := Signatures;
    assert forall j, k :: 0 <= j < k < |g| ==> g[j] != g[k];
    forall j, k | 0 <= j < k < |ActionMap| ensures ActionMap[j].action != ActionMap[k].action {
      SignatureOf(j);
      SignatureOf(k);
    }
  }

  /** Looking up any table name yields that entry: consumer codes for the seven media names, keyboard codes for F20..F24. */
  lemma LookupEachName(k: nat)
    requires k < |ActionMap|
    ensures FirstMapping(ActionMap[k].action, ActionMap) == Some(ActionMap[k])
  {
    ActionNamesDistinct();
    FirstMappingAt(ActionMap[k].action, ActionMap, k);
  }

  /** The first seven entries are Consumer Page usages, the last five Keyboard Page usages. */
  lemma ConsumerEntries(k: nat)
    requires k < |ActionMap|
    ensures ActionMap[k].isConsumer <==> k < 7
  {
  }

  /**
   * armdeck_config_get_hid_code: a NULL argument gives INVALID_ARG; a name
   * in the table writes its code and kind; any other name gives NOT_FOUND
   * and leaves both outputs as they were.
   */
  method GetHidCode(action: Option<string>, outputsPresent: bool, code0: byte, consumer0: bool)
    returns (ret: EspErr, hidCode: byte, isConsumer: bool)
    ensures action.None? || !outputsPresent ==> ret == EspErrInvalidArg && hidCode == code0 && isConsumer == consumer0
    ensures action.Some? && outputsPresent ==>
              match FirstMapping(action.value, ActionMap)
              case Some(m) => ret == EspOk && hidCode == m.hidCode && isConsumer == m.isConsumer
              case None => ret == EspErrNotFound && hidCode == code0 && isConsumer == consumer0
  {
    hidCode, isConsumer := code0, consumer0;
    if action.None? || !outputsPresent {
      return EspErrInvalidArg, hidCode, isConsumer;
    }
    var i := 0;
    while i < |ActionMap|
      invariant 0 <= i <= |ActionMap|
      invariant FirstMapping(action.value, ActionMap) == FirstMapping(action.value, ActionMap[i..])
    {
      assert ActionMap[i..][1..] == ActionMap[i + 1..];
      if action.value == ActionMap[i].action {
        return EspOk, ActionMap[i].hidCode, ActionMap[i].isConsumer;
      }
      i := i + 1;
    }
    return EspErrNotFound, hidCode, isConsumer;
  }

  // ---------------------------------------------------------------------
  // Defaults

  /** The labels and colors of default_buttons[12]; their actions are the table's names, in table order. */
  const DefaultCaptions: seq<string> := ["Play/Pause", "Next", "Previous", "Volume +", "Volume -", "Mute", "Stop", "F20", "F21", "F22", "F23", "F24"]
  const DefaultColors: seq<string> := ["#4CAF50", "#2196F3", "#2196F3", "#FF9800", "#FF9800", "#F44336", "#9C27B0", "#607D8B", "#607D8B", "#607D8B", "#607D8B", "#607D8B"]

  /** Every default label, action and color fits its array, and every color is a '#' and six hex digits. */
  lemma DefaultEntryFits(i: nat)
    requires i < MaxButtons
    ensures |DefaultCaptions[i]| < LabelMaxLen && |ActionMap[i].action| < ActionMaxLen
    ensures |DefaultColors[i]| == 7 && DefaultColors[i][0] == '#'
  {
    if i == 0 { assert DefaultCaptions[0] == "Play/Pause" && DefaultColors[0] == "#4CAF50"; }
    else if i == 1 { assert DefaultCaptions[1] == "Next" && DefaultColors[1] == "#2196F3"; }
    else if i == 2 { assert DefaultCaptions[2] == "Previous" && DefaultColors[2] == "#2196F3"; }
    else if i == 3 { assert DefaultCaptions[3] == "Volume +" && DefaultColors[3] == "#FF9800"; }
    else if i == 4 { assert DefaultCaptions[4] == "Volume -" && DefaultColors[4] == "#FF9800"; }
    else if i == 5 { assert DefaultCaptions[5] == "Mute" && DefaultColors[5] == "#F44336"; }
    else if i == 6 { assert DefaultCaptions[6] == "Stop" && DefaultColors[6] == "#9C27B0"; }
    else if i == 7 { assert DefaultCaptions[7] == "F20" && DefaultColors[7] == "#607D8B"; }
    else if i == 8 { assert DefaultCaptions[8] == "F21" && DefaultColors[8] == "#607D8B"; }
    else if i == 9 { assert DefaultCaptions[9] == "F22" && DefaultColors[9] == "#607D8B"; }
    else if i == 10 { assert DefaultCaptions[10] == "F23" && DefaultColors[10] == "#607D8B"; }
    else { assert DefaultCaptions[11] == "F24" && DefaultColors[11] == "#607D8B"; }
  }

  /** default_buttons[12]. */
  function DefaultJButtons(): (bs: seq<JButton>)
    ensures |bs| == MaxButtons && forall i :: 0 <= i < MaxButtons ==> WellFormedJButton(bs[i])
    ensures forall i :: 0 <= i < MaxButtons ==> JButtonValid(bs[i], i) && bs[i].action == Str(ActionMap[i].action)
  {
    DefaultsFit();
    seq(MaxButtons, i requires 0 <= i < MaxButtons =>
      JButton(i as byte, Str(DefaultCaptions[i]), Str(ActionMap[i].action), Str(DefaultColors[i])))
  }

  lemma DefaultsFit()
    ensures forall i :: 0 <= i < MaxButtons ==>
              |DefaultCaptions[i]| < LabelMaxLen && |ActionMap[i].action| < ActionMaxLen
              && |DefaultColors[i]| == 7 && DefaultColors[i][0] == '#'
  {
    forall i | 0 <= i < MaxButtons
      ensures |DefaultCaptions[i]| < LabelMaxLen && |ActionMap[i].action| < ActionMaxLen
              && |DefaultColors[i]| == 7 && DefaultColors[i][0] == '#'
    {
      DefaultEntryFits(i);
    }
  }

  /** armdeck_config_reset_to_default: version 1, the defaults, and their checksum. */
  function DefaultJConfig(crc: Crc32): (c: JConfig)
    ensures WellFormedJConfig(c)
  {
    JConfig(ConfigVersion, DefaultJButtons(), crc(ConfigVersion, DefaultJButtons()))
  }

  /** reset_to_default yields a configuration that validates, whatever the CRC function, and each default action is looked up to its own table entry. */
  lemma DefaultsValid(crc: Crc32)
    ensures ValidConfig(DefaultJConfig(crc), crc)
    ensures forall i :: 0 <= i < MaxButtons ==>
              FirstMapping(DefaultJConfig(crc).buttons[i].action.text, ActionMap) == Some(ActionMap[i])
  {
    forall i | 0 <= i < MaxButtons
      ensures FirstMapping(DefaultJConfig(crc).buttons[i].action.text, ActionMap) == Some(ActionMap[i])
    {
      LookupEachName(i);
    }
  }

  // ---------------------------------------------------------------------
  // parse_json_input over the parsed document

  /** One "buttons" entry's fields; None when the key is missing or has the wrong JSON type. */
  datatype JsonButton = JsonButton(id: Option<int>, caption: Option<string>, action: Option<string>, color: Option<string>)

  datatype JsonItem = ObjectItem(fields: JsonButton) | OtherItem

  /** What cJSON_Parse yields: nothing, or a root with "version" (if a number) and "buttons" (if an array). */
  datatype JsonDoc = Malformed | Doc(version: Option<int>, buttons: Option<seq<JsonItem>>)

  /** (uint8_t) of a cJSON valueint: reduction modulo 256. */
  function Uint8(v: int): byte
  {
    v % 256
  }

  /** snprintf(label, 16, "Button %d", i + 1). */
  function DefaultLabelText(i: nat): (s: string)
    requires i < MaxButtons
    ensures |s| <= 9 && forall k :: 0 <= k < |s| ==> s[k] != '\0'
  {
    var digits := JsText.NatToString(i + 1);
    assert |digits| <= 2 by {
      if i + 1 >= 10 {
        assert digits == JsText.NatToString((i + 1) / 10) + [JsText.DigitChar((i + 1) % 10)];
      }
    }
    "Button " + digits
  }

  /** The id field: the number cast to uint8_t, or the index. */
  function IdField(f: JsonButton, i: nat): byte
    requires i < MaxButtons
  {
    if f.id.Some? then Uint8(f.id.value) else i as byte
  }

  /** The label field: the string cut to 15 characters, or "Button i+1". */
  function CaptionField(f: JsonButton, i: nat): (a: CArray)
    requires i < MaxButtons
    ensures FitsIn(a, LabelMaxLen) && a.Str?
  {
    if f.caption.Some? then CopyTruncated(f.caption.value, LabelMaxLen) else Str(DefaultLabelText(i))
  }

  /** The action field before the table check: the string cut to 31 characters, or KEY_F20. */
  function ActionField(f: JsonButton): (a: CArray)
    ensures FitsIn(a, ActionMaxLen) && a.Str?
  {
    if f.action.Some? then CopyTruncated(f.action.value, ActionMaxLen) else Str("KEY_F20")
  }

  /** Some entry of the table carries the name. */
  predicate KnownAction(s: string)
  {
    exists k :: 0 <= k < |ActionMap| && ActionMap[k].action == s
  }

  /** get_hid_code answers ESP_OK exactly for the names of the table. */
  lemma KnownIffFound(s: string)
    ensures KnownAction(s) <==> FirstMapping(s, ActionMap).Some?
  {
    FirstMappingFound(s, ActionMap);
  }

  /** strcpy of KEY_F20 over an action the table does not know. */
  function CheckedAction(a0: CArray): (a: CArray)
    requires FitsIn(a0, ActionMaxLen) && a0.Str?
    ensures FitsIn(a, ActionMaxLen) && a.Str?
  {
    if KnownAction(a0.text) then a0 else Str("KEY_F20")
  }

  /** The color field: the string cut to 7 characters, or #607D8B. */
  function ColorField(f: JsonButton): (a: CArray)
    ensures FitsIn(a, ColorMaxLen) && a.Str?
  {
    if f.color.Some? then CopyTruncated(f.color.value, ColorMaxLen) else Str("#607D8B")
  }

  /** buttons[i] as the loop body fills it. */
  function ParseButton(f: JsonButton, i: nat): (b: JButton)
    requires i < MaxButtons
    ensures WellFormedJButton(b) && b.caption.Str? && b.action.Str? && b.color.Str?
  {
    JButton(IdField(f, i), CaptionField(f, i), CheckedAction(ActionField(f)), ColorField(f))
  }

  /** The version parse_json_input installs: the number given, or 1. */
  function DocVersion(doc: JsonDoc): byte
    requires doc.Doc?
  {
    if doc.version.Some? then Uint8(doc.version.value) else ConfigVersion
  }

  /** The document has a 12-element "buttons" array of objects. */
  predicate HasTwelveObjects(doc: JsonDoc)
  {
    doc.Doc? && doc.buttons.Some? && |doc.buttons.value| == MaxButtons
    && forall i :: 0 <= i < MaxButtons ==> doc.buttons.value[i].ObjectItem?
  }

  /**
   * The configuration parse_json_input fills from doc, or None for ESP_ERR_INVALID_ARG:
   * unparsable, no array, a count other than 12, a non-object entry, or a
   * result that fails validation once its checksum is set.
   */
  function ParsedConfig(doc: JsonDoc, crc: Crc32): (r: Option<JConfig>)
    ensures r.Some? ==> WellFormedJConfig(r.value) && ValidConfig(r.value, crc)
  {
    if !HasTwelveObjects(doc) then None
    else
      var bs := seq(MaxButtons, i requires 0 <= i < MaxButtons => ParseButton(doc.buttons.value[i].fields, i));
      var c := JConfig(DocVersion(doc), bs, crc(DocVersion(doc), bs));
      if ValidConfig(c, crc) then Some(c) else None
  }

  /** The loop over the "buttons" array: None at the first entry that is not an object. */
  method FillButtons(items: seq<JsonItem>) returns (buttons: Option<seq<JButton>>)
    requires |items| == MaxButtons
    ensures buttons.Some? <==> forall k :: 0 <= k < MaxButtons ==> items[k].ObjectItem?
    ensures buttons.Some? ==> |buttons.value| == MaxButtons
    ensures buttons.Some? ==> forall k :: 0 <= k < MaxButtons ==> buttons.value[k] == ParseButton(items[k].fields, k)
  {
    var bs: seq<JButton> := [];
    var i := 0;
    while i < MaxButtons
      invariant 0 <= i <= MaxButtons && |bs| == i
      invariant forall k :: 0 <= k < i ==> items[k].ObjectItem?
      invariant forall k :: 0 <= k < i ==> bs[k] == ParseButton(items[k].fields, k)
    {
      if !items[i].ObjectItem? {
        return None;
      }
      var b := ParseButton(items[i].fields, i);
      bs := bs + [b];
      i := i + 1;
    }
    return Some(bs);
  }

  /** ParsedConfig of a document with twelve objects, given its filled buttons. */
  lemma ParsedConfigOf(d: JsonDoc, crc: Crc32, buttons: seq<JButton>)
    requires HasTwelveObjects(d) && |buttons| == MaxButtons
    requires forall k :: 0 <= k < MaxButtons ==> buttons[k] == ParseButton(d.buttons.value[k].fields, k)
    ensures var c := JConfig(DocVersion(d), buttons, crc(DocVersion(d), buttons));
            WellFormedJConfig(c) && ParsedConfig(d, crc) == if ValidConfig(c, crc) then Some(c) else None
  {
    assert buttons == seq(MaxButtons, k requires 0 <= k < MaxButtons => ParseButton(d.buttons.value[k].fields, k));
  }

  /**
   * armdeck_config_parse_json_input: NULL arguments and unusable documents
   * give INVALID_ARG; otherwise the twelve entries are filled in order and
   * the checksummed result must validate.
   */
  method ParseJsonInput(doc: Option<JsonDoc>, crc: Crc32) returns (ret: EspErr, config: Option<JConfig>)
    ensures doc.None? ==> ret == EspErrInvalidArg && config.None?
    ensures doc.Some? ==> config == ParsedConfig(doc.value, crc)
    ensures ret == EspOk <==> config.Some?
    ensures ret != EspOk ==> ret == EspErrInvalidArg
  {
    if doc.None? || doc.value.Malformed? {
      return EspErrInvalidArg, None;
    }
    var d := doc.value;
    var version := DocVersion(d);
    if d.buttons.None? || |d.buttons.value| != MaxButtons {
      return EspErrInvalidArg, None;
    }
    var filled := FillButtons(d.buttons.value);
    if filled.None? {
      return EspErrInvalidArg, None;
    }
    var buttons := filled.value;
    var c := JConfig(version, buttons, crc(version, buttons));
    ParsedConfigOf(d, crc, buttons);
    var ok := Validate(Some(c), crc);
    if !ok {
      return EspErrInvalidArg, None;
    }
    return EspOk, Some(c);
  }

  /** A color string is accepted iff it starts with '#' and has at least 7 characters before any NUL; longer ones are cut to 7. */
  lemma ColorAccepted(s: string)
    ensures var c := CopyTruncated(s, ColorMaxLen);
            |c.text| == 7 && c.text[0] == '#' <==> StrLen(s) >= 7 && s[0] == '#'
  {
  }

  /** The field conditions under which a parsed entry passes validation. */
  predicate EntryAccepted(f: JsonButton, i: nat)
  {
    (f.id.None? || Uint8(f.id.value) == i)
    && (f.color.None? || (StrLen(f.color.value) >= 7 && f.color.value[0] == '#'))
  }

  /** One parsed entry validates iff its id (or index) is its index and its color (or #607D8B) is accepted. */
  lemma ParsedEntryValid(f: JsonButton, i: nat)
    requires i < MaxButtons
    ensures JButtonValid(ParseButton(f, i), i) <==> EntryAccepted(f, i)
  {
    if f.color.Some? {
      ColorAccepted(f.color.value);
    } else {
      ColorAccepted("#607D8B");
    }
  }

  /**
   * Exactly which documents are accepted: a document parses iff it has twelve objects, its
   * version (or the default 1) is 1, and every entry is accepted.
   */
  lemma ParseAcceptsIff(doc: JsonDoc, crc: Crc32)
    ensures ParsedConfig(doc, crc).Some? <==>
              HasTwelveObjects(doc) && DocVersion(doc) == ConfigVersion
              && forall i :: 0 <= i < MaxButtons ==> EntryAccepted(doc.buttons.value[i].fields, i)
  {
    if HasTwelveObjects(doc) {
      var bs := seq(MaxButtons, i requires 0 <= i < MaxButtons => ParseButton(doc.buttons.value[i].fields, i));
      var c := JConfig(DocVersion(doc), bs, crc(DocVersion(doc), bs));
      assert ParsedConfig(doc, crc) == if ValidConfig(c, crc) then Some(c) else None;
      forall i | 0 <= i < MaxButtons
        ensures JButtonValid(bs[i], i) <==> EntryAccepted(doc.buttons.value[i].fields, i)
      {
        ParsedEntryValid(doc.buttons.value[i].fields, i);
      }
    }
  }

  /** Missing fields take their defaults: the index, "Button i+1", KEY_F20 and #607D8B. */
  lemma ParseDefaults(i: nat)
    requires i < MaxButtons
    ensures ParseButton(JsonButton(None, None, None, None), i)
            == JButton(i as byte, Str(DefaultLabelText(i)), Str("KEY_F20"), Str("#607D8B"))
  {
    LookupEachName(7);
  }

  /** A NUL-free action name shorter than 32 characters that the table does not know is stored as KEY_F20. */
  lemma UnknownActionReplaced(a: string, i: nat)
    requires i < MaxButtons && '\0' !in a && |a| < ActionMaxLen && FirstMapping(a, ActionMap).None?
    ensures ParseButton(JsonButton(None, None, Some(a), None), i).action == Str("KEY_F20")
  {
    CopyShortWhole(a, ActionMaxLen);
    KnownIffFound(a);
  }

  /** A known action name is stored as given. */
  lemma KnownActionKept(k: nat, i: nat)
    requires k < |ActionMap| && i < MaxButtons
    ensures ParseButton(JsonButton(None, None, Some(ActionMap[k].action), None), i).action == Str(ActionMap[k].action)
  {
    var a := ActionMap[k].action;
    assert '\0' !in a && |a| < ActionMaxLen;
    CopyShortWhole(a, ActionMaxLen);
    LookupEachName(k);
  }

  // ---------------------------------------------------------------------
  // NVS and the BLE commands

  /** Failure codes injected for nvs_open / nvs_set_blob / nvs_commit. */
  datatype SaveFaults = SaveFaults(open: EspErr, setBlob: EspErr, commit: EspErr)

  /** Failure codes injected for nvs_open / nvs_get_blob. */
  datatype LoadFaults = LoadFaults(open: EspErr, getBlob: EspErr)

  /**
   * Whether armdeck_config_load_from_nvs answers ESP_ERR_NOT_FOUND for these
   * faults and this stored blob: nvs_open itself says so, or the blob is
   * missing (ESP_ERR_NVS_NOT_FOUND), or nvs_get_blob passes that code on.
   */
  predicate LoadsNotFound(lf: LoadFaults, stored: Option<JConfig>)
  {
    if lf.open != EspOk then lf.open == EspErrNotFound
    else lf.getBlob == EspErrNvsNotFound || lf.getBlob == EspErrNotFound || (lf.getBlob == EspOk && stored.None?)
  }

  /**
   * The environment of one handle_ble_command call: the NVS outcomes, the
   * nvs_flash_init result, whether malloc fails, and the text
   * generate_json_response produces (None when it fails).
   */
  datatype Env = Env(flashInit: EspErr, load: LoadFaults, save: SaveFaults, outOfMemory: bool, generated: Option<string>)

  /** The first failing NVS step of a save, or ESP_OK. */
  function SaveSteps(f: SaveFaults): (ret: EspErr)
    ensures ret == EspOk <==> f.open == EspOk && f.setBlob == EspOk && f.commit == EspOk
  {
    if f.open != EspOk then f.open else if f.setBlob != EspOk then f.setBlob else f.commit
  }

  /**
   * What armdeck_config_init answers for these outcomes and this stored
   * blob: the NVS init failure; ESP_OK after a NOT_FOUND load, whatever the
   * save of the defaults gives; for a stored blob ESP_OK exactly when it
   * validates, INVALID_STATE otherwise; any other load failure as it is.
   */
  function InitResult(flashInit: EspErr, lf: LoadFaults, stored: Option<JConfig>, crc: Crc32): (ret: EspErr)
    requires stored.Some? ==> WellFormedJConfig(stored.value)
    ensures flashInit != EspOk ==> ret == flashInit
    ensures flashInit == EspOk && LoadsNotFound(lf, stored) ==> ret == EspOk
    ensures (flashInit == EspOk && lf.open == EspOk && lf.getBlob == EspOk && stored.Some?) ==>
              (ret == EspOk <==> ValidConfig(stored.value, crc)) && (ret != EspOk ==> ret == EspErrInvalidState)
  {
    if flashInit != EspOk then flashInit
    else if LoadsNotFound(lf, stored) then EspOk
    else if lf.open != EspOk then lf.open
    else if lf.getBlob != EspOk then lf.getBlob
    else if ValidConfig(stored.value, crc) then EspOk
    else EspErrInvalidState
  }

  /** The answer of READ_CONFIG once the store is initialised. */
  function ReadAnswer(env: Env, responseMaxLen: nat): string
  {
    if env.outOfMemory then ReadOutOfMemory
    else if env.generated.None? then ReadGenerationFailed
    else if |env.generated.value| >= responseMaxLen then ReadTooLarge
    else env.generated.value
  }

  const ReadNotInitialized: string := "{\"cmd\":\"0x50\",\"status\":\"error\",\"error\":\"Config not initialized\"}"
  const ReadOutOfMemory: string := "{\"cmd\":\"0x50\",\"status\":\"error\",\"error\":\"Out of memory\"}"
  const ReadGenerationFailed: string := "{\"cmd\":\"0x50\",\"status\":\"error\",\"error\":\"JSON generation failed\"}"
  const ReadTooLarge: string := "{\"cmd\":\"0x50\",\"status\":\"error\",\"error\":\"Response too large\"}"
  const WriteNoData: string := "{\"cmd\":\"0x51\",\"status\":\"error\",\"error\":\"No data provided\"}"
  const WriteOutOfMemory: string := "{\"cmd\":\"0x51\",\"status\":\"error\",\"error\":\"Out of memory\"}"
  const WriteParseFailed: string := "{\"cmd\":\"0x51\",\"status\":\"error\",\"error\":\"JSON parsing failed\"}"
  const WriteNvsFailed: string := "{\"cmd\":\"0x51\",\"status\":\"error\",\"error\":\"NVS write failed\"}"
  const WriteOk: string := "{\"cmd\":\"0x51\",\"status\":\"ok\",\"message\":\"Config saved to NVS\"}"
  const ResetNvsFailed: string := "{\"cmd\":\"0x52\",\"status\":\"error\",\"error\":\"NVS save failed\"}"
  const ResetOk: string := "{\"cmd\":\"0x52\",\"status\":\"ok\",\"message\":\"Config reset to default\"}"

  /** The unknown-command text before snprintf truncation: the command as two upper-case hex digits. */
  function UnknownCommandText(command: byte): string
  {
    "{\"cmd\":\"0x" + [JsText.HexDigitUpper(command / 16), JsText.HexDigitUpper(command % 16)]
    + "\",\"status\":\"error\",\"error\":\"Unknown command\"}"
  }

  /** snprintf(response, maxLen, ...): at most maxLen - 1 characters; nothing written when maxLen is 0. */
  function Snprintf(text: string, maxLen: nat, before: string): string
  {
    if maxLen == 0 then before else if |text| < maxLen then text else text[..maxLen - 1]
  }

  /** The component's static state: current_config, config_initialized, the NVS blob, and the CRC in use. */
  class JsonConfigStore {
    var current: JConfig
    var initialized: bool
    var nvs: Option<JConfig>
    const crc: Crc32

    ghost predicate Valid()
      reads this
    {
      WellFormedJConfig(current) && (nvs.Some? ==> WellFormedJConfig(nvs.value))
    }

    constructor(stored: Option<JConfig>, crc: Crc32)
      requires stored.Some? ==> WellFormedJConfig(stored.value)
      ensures Valid() && !initialized && nvs == stored && this.crc == crc
      ensures current == JConfig(0, seq(MaxButtons, _ => JButton(0, Str(""), Str(""), Str(""))), 0)
    {
      current := JConfig(0, seq(MaxButtons, _ => JButton(0, Str(""), Str(""), Str(""))), 0);
      initialized := false;
      nvs := stored;
      this.crc := crc;
    }

    /** armdeck_config_save_to_nvs: an invalid configuration is refused before NVS is touched. */
    method SaveToNvs(config: JConfig, f: SaveFaults) returns (ret: EspErr)
      requires Valid() && WellFormedJConfig(config)
      modifies this`nvs
      ensures Valid()
      ensures !ValidConfig(config, crc) ==> ret == EspErrInvalidArg && nvs == old(nvs)
      ensures ValidConfig(config, crc) ==> ret == SaveSteps(f) && nvs == if ret == EspOk then Some(config) else old(nvs)
    {
      var ok := Validate(Some(config), crc);
      if !ok {
        return EspErrInvalidArg;
      }
      if f.open != EspOk {
        return f.open;
      }
      if f.setBlob != EspOk {
        return f.setBlob;
      }
      ret := f.commit;
      if ret == EspOk {
        nvs := Some(config);
      }
    }

    /**
     * armdeck_config_load_from_nvs(&current_config): a missing blob is
     * reported as ESP_ERR_NOT_FOUND, and a blob that reads is installed
     * before it is validated.
     */
    method LoadFromNvs(f: LoadFaults) returns (ret: EspErr)
      requires Valid()
      modifies this`current
      ensures Valid()
      ensures f.open != EspOk ==> ret == f.open && current == old(current)
      ensures f.open == EspOk && (f.getBlob == EspErrNvsNotFound || (f.getBlob == EspOk && nvs.None?))
              ==> ret == EspErrNotFound && current == old(current)
      ensures f.open == EspOk && f.getBlob != EspOk && f.getBlob != EspErrNvsNotFound
              ==> ret == f.getBlob && current == old(current)
      ensures f.open == EspOk && f.getBlob == EspOk && nvs.Some?
              ==> current == nvs.value && (ret == EspOk <==> ValidConfig(current, crc))
                  && (ret != EspOk ==> ret == EspErrInvalidState)
    {
      if f.open != EspOk {
        return f.open;
      }
      var got := if f.getBlob != EspOk then f.getBlob else if nvs.None? then EspErrNvsNotFound else EspOk;
      if got == EspErrNvsNotFound {
        return EspErrNotFound;
      } else if got != EspOk {
        return got;
      }
      current := nvs.value;
      var ok := Validate(Some(current), crc);
      if !ok {
        return EspErrInvalidState;
      }
      return EspOk;
    }

    /**
     * armdeck_config_init: NVS init, then load; a missing blob installs and
     * saves the defaults (a failed save is ignored); any other load failure
     * is returned with the store still uninitialised.
     */
    method Init(flashInit: EspErr, lf: LoadFaults, sf: SaveFaults) returns (ret: EspErr)
      requires Valid()
      modifies this
      ensures Valid()
      ensures flashInit != EspOk ==> ret == flashInit && initialized == old(initialized) && current == old(current) && nvs == old(nvs)
      ensures ret == EspOk ==> initialized
      ensures ret != EspOk ==> initialized == old(initialized)
      ensures flashInit == EspOk && lf.open != EspOk && lf.open != EspErrNotFound ==> ret == lf.open
      ensures (flashInit == EspOk && LoadsNotFound(lf, old(nvs))) ==>
                && ret == EspOk && initialized && current == DefaultJConfig(crc)
                && nvs == (if SaveSteps(sf) == EspOk then Some(DefaultJConfig(crc)) else old(nvs))
      ensures (flashInit == EspOk && lf.open == EspOk && lf.getBlob == EspOk && old(nvs).Some?) ==>
                && current == old(nvs).value && nvs == old(nvs)
                && (ret == EspOk <==> ValidConfig(old(nvs).value, crc))
                && (ret != EspOk ==> ret == EspErrInvalidState)
      ensures (flashInit == EspOk && !LoadsNotFound(lf, old(nvs)) && !(lf.open == EspOk && lf.getBlob == EspOk)) ==>
                && ret == (if lf.open != EspOk then lf.open else lf.getBlob)
                && current == old(current) && nvs == old(nvs)
      ensures ret == InitResult(flashInit, lf, old(nvs), crc)
    {
      if flashInit != EspOk {
        return flashInit;
      }
      ret := LoadFromNvs(lf);
      if ret == EspErrNotFound {
        DefaultsValid(crc);
        current := DefaultJConfig(crc);
        ret := SaveToNvs(current, sf);
      } else if ret != EspOk {
        return ret;
      }
      initialized := true;
      return EspOk;
    }

    /**
     * armdeck_config_handle_ble_command. Only missing output pointers give
     * an error code; every other outcome is ESP_OK with the result in the
     * JSON text.
     */
    method HandleBleCommand(command: byte, data: Option<seq<byte>>, doc: JsonDoc, outputsPresent: bool,
                            responseMaxLen: nat, before: string, env: Env)
      returns (ret: EspErr, response: string)
      requires Valid()
      modifies this
      ensures Valid()
      ensures !outputsPresent ==> ret == EspErrInvalidArg && current == old(current) && nvs == old(nvs)
      ensures outputsPresent ==> ret == EspOk
      ensures outputsPresent && command == CmdWriteConfig ==>
                if data.None? || |data.value| == 0 then response == WriteNoData && current == old(current) && nvs == old(nvs)
                else if env.outOfMemory then response == WriteOutOfMemory && current == old(current) && nvs == old(nvs)
                else if ParsedConfig(doc, crc).None? then response == WriteParseFailed && current == old(current) && nvs == old(nvs)
                else if SaveSteps(env.save) != EspOk then response == WriteNvsFailed && current == old(current) && nvs == old(nvs)
                else response == WriteOk && current == ParsedConfig(doc, crc).value && nvs == Some(current)
      ensures outputsPresent && command == CmdResetConfig ==>
                current == DefaultJConfig(crc)
                && (SaveSteps(env.save) == EspOk ==> response == ResetOk && nvs == Some(current))
                && (SaveSteps(env.save) != EspOk ==> response == ResetNvsFailed && nvs == old(nvs))
      ensures outputsPresent && command !in {CmdReadConfig, CmdWriteConfig, CmdResetConfig} ==>
                response == Snprintf(UnknownCommandText(command), responseMaxLen, before)
                && current == old(current) && nvs == old(nvs) && initialized == old(initialized)
      ensures outputsPresent && command == CmdReadConfig && old(initialized) ==>
                current == old(current) && nvs == old(nvs)
                && response == if env.outOfMemory then ReadOutOfMemory
                               else if env.generated.None? then ReadGenerationFailed
                               else if |env.generated.value| >= responseMaxLen then ReadTooLarge
                               else env.generated.value
      ensures (outputsPresent && command == CmdReadConfig && !old(initialized)) ==>
                var r := InitResult(env.flashInit, env.load, old(nvs), crc);
                && initialized == (r == EspOk)
                && response == (if r != EspOk then ReadNotInitialized else ReadAnswer(env, responseMaxLen))
                && ((env.flashInit == EspOk && LoadsNotFound(env.load, old(nvs))) ==>
                      current == DefaultJConfig(crc)
                      && nvs == (if SaveSteps(env.save) == EspOk then Some(DefaultJConfig(crc)) else old(nvs)))
                && ((env.flashInit == EspOk && env.load.open == EspOk && env.load.getBlob == EspOk && old(nvs).Some?) ==>
                      current == old(nvs).value && nvs == old(nvs))
                && ((env.flashInit != EspOk || (!LoadsNotFound(env.load, old(nvs))
                                                && !(env.load.open == EspOk && env.load.getBlob == EspOk))) ==>
                      current == old(current) && nvs == old(nvs))
    {
      if !outputsPresent {
        return EspErrInvalidArg, before;
      }
      ret := EspOk;
      if command == CmdReadConfig {
        if !initialized {
          var r := Init(env.flashInit, env.load, env.save);
          if r != EspOk {
            return EspOk, ReadNotInitialized;
          }
        }
        if env.outOfMemory {
          return EspOk, ReadOutOfMemory;
        }
        if env.generated.None? {
          return EspOk, ReadGenerationFailed;
        }
        if |env.generated.value| >= responseMaxLen {
          return EspOk, ReadTooLarge;
        }
        response := env.generated.value;
      } else if command == CmdWriteConfig {
        if data.None? || |data.value| == 0 {
          return EspOk, WriteNoData;
        }
        if env.outOfMemory {
          return EspOk, WriteOutOfMemory;
        }
        var r, parsed := ParseJsonInput(Some(doc), crc);
        if r != EspOk {
          return EspOk, WriteParseFailed;
        }
        r := SaveToNvs(parsed.value, env.save);
        if r != EspOk {
          return EspOk, WriteNvsFailed;
        }
        current := parsed.value;
        response := WriteOk;
      } else if command == CmdResetConfig {
        DefaultsValid(crc);
        current := DefaultJConfig(crc);
        var r := SaveToNvs(current, env.save);
        if r != EspOk {
          return EspOk, ResetNvsFailed;
        }
        response := ResetOk;
      } else {
        response := Snprintf(UnknownCommandText(command), responseMaxLen, before);
      }
    }

    /** armdeck_config_get_current: NULL until initialised. */
    method GetCurrent() returns (c: Option<JConfig>)
      requires Valid()
      ensures c == if initialized then Some(current) else None
    {
      if !initialized {
        return None;
      }
      return Some(current);
    }
  }
}
