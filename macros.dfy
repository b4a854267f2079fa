// The macro catalogue of the web configurator (pwa/src/data/macros.ts):
// three constant lists, their concatenation, the per-category filter and
// the category list; and what buildButtonPayload makes of each action.
module Macros {
  import opened Bytes
  import opened JsText
  import opened ClientConstants
  import opened ButtonCodec
  import opened ButtonCodecRoundTrip

  datatype Macro = Macro(id: string, caption: string, action: string, category: string)

  datatype Category = Category(id: string, caption: string)

  /** keyboardKeys. */
  const KeyboardKeys: seq<Macro> := [
    Macro("key-a", "A", "KEY_A", "keyboard"),
    Macro("key-b", "B", "KEY_B", "keyboard"),
    Macro("key-c", "C", "KEY_C", "keyboard"),
    Macro("key-d", "D", "KEY_D", "keyboard"),
    Macro("key-e", "E", "KEY_E", "keyboard"),
    Macro("key-f", "F", "KEY_F", "keyboard"),
    Macro("key-enter", "Enter", "KEY_ENTER", "keyboard"),
    Macro("key-esc", "Esc", "KEY_ESC", "keyboard"),
    Macro("key-tab", "Tab", "KEY_TAB", "keyboard"),
    Macro("key-space", "Space", "KEY_SPACE", "keyboard"),
    Macro("key-backspace", "Backspace", "KEY_BACKSPACE", "keyboard"),
    Macro("key-shift", "Shift", "KEY_SHIFT", "keyboard"),
    Macro("key-ctrl", "Ctrl", "KEY_CTRL", "keyboard"),
    Macro("key-alt", "Alt", "KEY_ALT", "keyboard"),
    Macro("key-win", "Win", "KEY_WIN", "keyboard")]

  /** windowsMacros. */
  const WindowsMacros: seq<Macro> := [
    Macro("win-explorer", "Explorer", "WIN+E", "windows"),
    Macro("win-run", "Run", "WIN+R", "windows"),
    Macro("win-search", "Search", "WIN+S", "windows"),
    Macro("win-settings", "Settings", "WIN+I", "windows"),
    Macro("win-lock", "Lock", "WIN+L", "windows"),
    Macro("win-desktop", "Desktop", "WIN+D", "windows"),
    Macro("win-snap-left", "Snap Left", "WIN+LEFT", "windows"),
    Macro("win-snap-right", "Snap Right", "WIN+RIGHT", "windows"),
    Macro("win-task-view", "Task View", "WIN+TAB", "windows"),
    Macro("win-clipboard", "Clipboard", "WIN+V", "windows")]

  /** editableMacros. */
  const EditableMacros: seq<Macro> := [
    Macro("edit-1", "Copy All", "CTRL+A, CTRL+C", "editable"),
    Macro("edit-2", "Paste Special", "CTRL+ALT+V", "editable"),
    Macro("edit-3", "Save All", "CTRL+SHIFT+S", "editable")]

  /** allMacros: the three lists spread in order. */
  const AllMacros: seq<Macro> := KeyboardKeys + WindowsMacros + EditableMacros

  /** categories. */
  const Categories: seq<Category> := [
    Category("keyboard", "Keyboard Keys"),
    Category("windows", "Windows Macros"),
    Category("editable", "Editable Macros")]

  // ---------------------------------------------------------------------
  // getMacrosByCategory

  /** Array.prototype.filter with the test macro.category === category. */
  function Filter(ms: seq<Macro>, category: string): seq<Macro>
  {
    if ms == [] then []
    else Filter(ms[..|ms| - 1], category) + (if ms[|ms| - 1].category == category then [ms[|ms| - 1]] else [])
  }

  /** getMacrosByCategory. */
  function MacrosByCategory(category: string): (r: seq<Macro>)
    ensures forall m :: m in r <==> m in AllMacros && m.category == category
  {
    FilterMembers(AllMacros, category);
    Filter(AllMacros, category)
  }

  /** The filter keeps exactly the entries of the category. */
  lemma {:induction false} FilterMembers(ms: seq<Macro>, category: string)
    ensures forall m :: m in Filter(ms, category) <==> m in ms && m.category == category
  {
    if ms != [] {
      var init := ms[..|ms| - 1];
      FilterMembers(init, category);
      assert ms == init + [ms[|ms| - 1]];
    }
  }

  /** The filter of a concatenation is the concatenation of the filters, so it keeps the original order. */
  lemma {:induction false} FilterAppend(a: seq<Macro>, b: seq<Macro>, category: string)
    ensures Filter(a + b, category) == Filter(a, category) + Filter(b, category)
  {
    if b == [] {
      assert a + b == a;
    } else {
      var init := b[..|b| - 1];
      FilterAppend(a, init, category);
      assert (a + b)[..|a + b| - 1] == a + init;
    }
  }

  /** Whether every entry of a list has the category. */
  predicate AllOf(ms: seq<Macro>, category: string)
  {
    forall i :: 0 <= i < |ms| ==> ms[i].category == category
  }

  /** A list wholly of the category is kept whole; a list wholly of another is dropped. */
  lemma {:induction false} FilterUniform(ms: seq<Macro>, own: string, category: string)
    requires AllOf(ms, own)
    ensures Filter(ms, category) == if own == category then ms else []
  {
    if ms != [] {
      var init := ms[..|ms| - 1];
      FilterUniform(init, own, category);
      assert ms == init + [ms[|ms| - 1]];
    }
  }

  /** Each constant list holds one category. */
  lemma ListCategories()
    ensures AllOf(KeyboardKeys, "keyboard") && AllOf(WindowsMacros, "windows") && AllOf(EditableMacros, "editable")
  {
  }

  /** getMacrosByCategory of a category is the three lists' filters, in list order. */
  lemma ByCategorySplits(category: string)
    ensures MacrosByCategory(category)
            == (if category == "keyboard" then KeyboardKeys else [])
             + (if category == "windows" then WindowsMacros else [])
             + (if category == "editable" then EditableMacros else [])
  {
    ListCategories();
    FilterAppend(KeyboardKeys + WindowsMacros, EditableMacros, category);
    FilterAppend(KeyboardKeys, WindowsMacros, category);
    FilterUniform(KeyboardKeys, "keyboard", category);
    FilterUniform(WindowsMacros, "windows", category);
    FilterUniform(EditableMacros, "editable", category);
  }

  /** Each category's tab lists its own constant list, in order, and a "media" tab lists nothing. */
  lemma CategoryContents()
    ensures MacrosByCategory("keyboard") == KeyboardKeys
    ensures MacrosByCategory("windows") == WindowsMacros
    ensures MacrosByCategory("editable") == EditableMacros
    ensures MacrosByCategory("media") == []
  {
    ByCategorySplits("keyboard");
    ByCategorySplits("windows");
    ByCategorySplits("editable");
    ByCategorySplits("media");
  }

  /** Every macro's category is one of the listed categories, and no category is "media". */
  lemma CategoriesCoverMacros()
    ensures forall i :: 0 <= i < |AllMacros| ==> exists k :: 0 <= k < |Categories| && Categories[k].id == AllMacros[i].category
    ensures forall k :: 0 <= k < |Categories| ==> Categories[k].id != "media"
  {
    ListCategories();
    forall i | 0 <= i < |AllMacros|
      ensures exists k :: 0 <= k < |Categories| && Categories[k].id == AllMacros[i].category
    {
      var k, w := |KeyboardKeys|, |WindowsMacros|;
      if i < k {
        assert AllMacros[i] == KeyboardKeys[i];
        assert Categories[0].id == AllMacros[i].category;
      } else if i < k + w {
        assert AllMacros[i] == WindowsMacros[i - k];
        assert Categories[1].id == AllMacros[i].category;
      } else {
        assert AllMacros[i] == EditableMacros[i - k - w];
        assert Categories[2].id == AllMacros[i].category;
      }
    }
    forall k | 0 <= k < |Categories|
      ensures Categories[k].id != "media"
    {
      assert Categories[k].id[0] != 'm';
    }
  }

  /** No two entries of a list share an id. */
  predicate DistinctIds(ms: seq<Macro>)
  {
    forall i, j :: 0 <= i < j < |ms| ==> ms[i].id != ms[j].id
  }

  /** A cheap fingerprint of an id: its length and its last character. */
  function IdKey(id: string): int
  {
    if id == [] then 0 else |id| * 256 + id[|id| - 1] as int
  }

  /** Ids with different fingerprints differ. */
  lemma DistinctByKey(ms: seq<Macro>)
    requires forall i, j :: 0 <= i < j < |ms| ==> IdKey(ms[i].id) != IdKey(ms[j].id)
    ensures DistinctIds(ms)
  {
  }

  lemma KeyboardIdsDistinct()
    ensures DistinctIds(KeyboardKeys)
  {
    LetterKeyPrints();
    NamedKeyPrints();
    ModifierKeyPrints();
    DistinctByKey(KeyboardKeys);
  }

  lemma LetterKeyPrints()
    ensures forall i :: 0 <= i < 6 ==> IdKey(KeyboardKeys[i].id) == 5 * 256 + 'a' as int + i
  {
  }

  lemma NamedKeyPrints()
    ensures IdKey(KeyboardKeys[6].id) == 9 * 256 + 'r' as int
    ensures IdKey(KeyboardKeys[7].id) == 7 * 256 + 'c' as int
    ensures IdKey(KeyboardKeys[8].id) == 7 * 256 + 'b' as int
    ensures IdKey(KeyboardKeys[9].id) == 9 * 256 + 'e' as int
    ensures IdKey(KeyboardKeys[10].id) == 13 * 256 + 'e' as int
  {
  }

  lemma ModifierKeyPrints()
    ensures IdKey(KeyboardKeys[11].id) == 9 * 256 + 't' as int
    ensures IdKey(KeyboardKeys[12].id) == 8 * 256 + 'l' as int
    ensures IdKey(KeyboardKeys[13].id) == 7 * 256 + 't' as int
    ensures IdKey(KeyboardKeys[14].id) == 7 * 256 + 'n' as int
  {
  }

  lemma WindowsIdsDistinct()
    ensures DistinctIds(WindowsMacros)
  {
    DistinctByKey(WindowsMacros);
  }

  lemma EditableIdsDistinct()
    ensures DistinctIds(EditableMacros)
  {
  }

  /** Whether every id of a list starts with the character. */
  predicate IdsStartWith(ms: seq<Macro>, c: char)
  {
    forall i :: 0 <= i < |ms| ==> |ms[i].id| > 0 && ms[i].id[0] == c
  }

  /** Two lists of distinct ids whose ids start with different characters concatenate to distinct ids. */
  lemma DistinctConcat(a: seq<Macro>, b: seq<Macro>, ca: char, cb: char)
    requires DistinctIds(a) && DistinctIds(b) && ca != cb
    requires forall i :: 0 <= i < |a| ==> |a[i].id| > 0 && a[i].id[0] == ca
    requires IdsStartWith(b, cb)
    ensures DistinctIds(a + b)
  {
    forall i, j | 0 <= i < j < |a + b|
      ensures (a + b)[i].id != (a + b)[j].id
    {
      if j < |a| {
        assert (a + b)[i] == a[i] && (a + b)[j] == a[j];
      } else if i >= |a| {
        assert (a + b)[i] == b[i - |a|] && (a + b)[j] == b[j - |a|];
      } else {
        assert (a + b)[i].id[0] == ca && (a + b)[j] == b[j - |a|];
      }
    }
  }

  /** Whether no id of a list starts with the character. */
  predicate IdsAvoid(ms: seq<Macro>, c: char)
  {
    forall i :: 0 <= i < |ms| ==> |ms[i].id| > 0 && ms[i].id[0] != c
  }

  /** The keyboard, Windows and editable ids start with 'k', 'w' and 'e'. */
  lemma ListIdPrefixes()
    ensures IdsStartWith(KeyboardKeys, 'k') && IdsStartWith(WindowsMacros, 'w') && IdsStartWith(EditableMacros, 'e')
  {
  }

  lemma AvoidConcat(a: seq<Macro>, b: seq<Macro>, ca: char, cb: char, c: char)
    requires IdsStartWith(a, ca) && IdsStartWith(b, cb) && ca != c && cb != c
    ensures IdsAvoid(a + b, c)
  {
    forall i | 0 <= i < |a + b| ensures |(a + b)[i].id| > 0 && (a + b)[i].id[0] != c {
      if i < |a| {
        assert (a + b)[i] == a[i];
      } else {
        assert (a + b)[i] == b[i - |a|];
      }
    }
  }

  /** The ids of allMacros are pairwise distinct. */
  lemma MacroIdsDistinct()
    ensures DistinctIds(AllMacros)
  {
    KeyboardIdsDistinct();
    WindowsIdsDistinct();
    EditableIdsDistinct();
    ListIdPrefixes();
    DistinctConcat(KeyboardKeys, WindowsMacros, 'k', 'w');
    AvoidConcat(KeyboardKeys, WindowsMacros, 'k', 'w', 'e');
    DistinctConcatOther(KeyboardKeys + WindowsMacros, EditableMacros, 'e');
  }

  /** A list of distinct ids none of which starts with c, followed by a list of distinct ids all starting with c. */
  lemma DistinctConcatOther(a: seq<Macro>, b: seq<Macro>, cb: char)
    requires DistinctIds(a) && DistinctIds(b)
    requires IdsAvoid(a, cb) && IdsStartWith(b, cb)
    ensures DistinctIds(a + b)
  {
    forall i, j | 0 <= i < j < |a + b|
      ensures (a + b)[i].id != (a + b)[j].id
    {
      if j < |a| {
        assert (a + b)[i] == a[i] && (a + b)[j] == a[j];
      } else if i >= |a| {
        assert (a + b)[i] == b[i - |a|] && (a + b)[j] == b[j - |a|];
      } else {
        assert (a + b)[i] == a[i] && (a + b)[j] == b[j - |a|];
      }
    }
  }

  // ---------------------------------------------------------------------
  // What buildButtonPayload stores for each action

  /** A string none of whose media terms can start at an allowed position is not a media action. */
  lemma NotMedia(s: string)
    requires s != "MUTE"
    requires !CharWithin(s, 'M', |s| - 4) && !CharWithin(s, 'V', |s| - 7) && !CharWithin(s, 'B', |s| - 11)
    ensures !IsMediaAction(s)
  {
    if Includes(s, "MEDIA_") {
      IncludesStartChar(s, "MEDIA_");
    }
    if Includes(s, "VOLUME_") {
      IncludesStartChar(s, "VOLUME_");
    }
    if Includes(s, "BRIGHTNESS_") {
      IncludesStartChar(s, "BRIGHTNESS_");
    }
    if Includes(s, "MUTE") {
      IncludesStartChar(s, "MUTE");
    }
  }

  /** A name with no KEY_MAP code is not in KEY_REVERSE_MAP. */
  lemma NotAKeyName(n: string)
    requires KeyCodeOfName(n) < 0
    ensures n !in KeyReverseMap()
  {
    if n in KeyReverseMap() {
      var c := KeyReverseMap()[n];
      KeyReverseMapInverts(c, n);
      KeyNameDeterminesCode(c);
    }
  }

  /** A KEY_ action whose name is in KEY_MAP stores that name's code. */
  lemma KnownKey(action: string, c: byte)
    requires StartsWith(action, "KEY_") && KeyMap(c) == Some(action[4..])
    ensures ActionCode(action) == (ActionKey, c)
  {
    KeyReverseMapInverts(c, action[4..]);
    assert action == "KEY_" + action[4..];
    NoKeyNameIsMedia(c);
  }

  /** A KEY_ action whose name has no KEY_MAP code falls back to 0x04, the code of A. */
  lemma UnknownKey(action: string)
    requires StartsWith(action, "KEY_") && KeyCodeOfName(action[4..]) < 0 && action[4..] !in InheritedNames
    requires !IsMediaAction(action)
    ensures ActionCode(action) == (ActionKey, 0x04)
  {
    NotAKeyName(action[4..]);
  }

  /** Esc, Shift, Ctrl, Alt and Win name no KEY_MAP entry and store 0x04, the code of A. */
  lemma FallbackKeyboardActions()
    ensures ActionCode("KEY_ESC") == (ActionKey, 0x04) && ActionCode("KEY_SHIFT") == (ActionKey, 0x04)
    ensures ActionCode("KEY_CTRL") == (ActionKey, 0x04) && ActionCode("KEY_ALT") == (ActionKey, 0x04)
    ensures ActionCode("KEY_WIN") == (ActionKey, 0x04)
  {
    FallbackKey("KEY_ESC");
    FallbackKey("KEY_SHIFT");
    FallbackKey("KEY_CTRL");
    FallbackKey("KEY_ALT");
    FallbackKey("KEY_WIN");
  }

  lemma FallbackKey(action: string)
    requires action in {"KEY_ESC", "KEY_SHIFT", "KEY_CTRL", "KEY_ALT", "KEY_WIN"}
    ensures ActionCode(action) == (ActionKey, 0x04)
  {
    assert StartsWith(action, "KEY_");
    NotMedia(action);
    UnknownKey(action);
  }

  /** A non-empty action that is neither media, KEY_, MACRO nor CUSTOM stores type NONE and code 0. */
  lemma PlainAction(action: string)
    requires action != [] && action[0] != 'K' && action != "MACRO" && action != "CUSTOM"
    requires !IsMediaAction(action)
    ensures ActionCode(action) == (ActionNone, 0)
  {
  }

  /** Every Windows and editable macro stores action type NONE: pressing it sends nothing. */
  lemma ShortcutEncodings()
    ensures forall i :: 0 <= i < |WindowsMacros| ==> ActionCode(WindowsMacros[i].action) == (ActionNone, 0)
    ensures forall i :: 0 <= i < |EditableMacros| ==> ActionCode(EditableMacros[i].action) == (ActionNone, 0)
  {
    forall i | 0 <= i < |WindowsMacros|
      ensures ActionCode(WindowsMacros[i].action) == (ActionNone, 0)
    {
      NotMedia(WindowsMacros[i].action);
      PlainAction(WindowsMacros[i].action);
    }
    forall i | 0 <= i < |EditableMacros|
      ensures ActionCode(EditableMacros[i].action) == (ActionNone, 0)
    {
      NotMedia(EditableMacros[i].action);
      PlainAction(EditableMacros[i].action);
    }
  }

  /** The Esc entry as written: its action does not round-trip and stores the code of A. */
  lemma EscapeMacroAsWritten()
    ensures KeyboardKeys[7].caption == "Esc"
    ensures ActionCode(KeyboardKeys[7].action) == (ActionKey, 0x04)
    ensures ActionName(ActionKey, 0x04) == "KEY_A"
  {
    FallbackKey(KeyboardKeys[7].action);
  }

  /** The Esc entry with the KEY_MAP name of Escape. */
  const CorrectedEscape: Macro := Macro("key-esc", "Esc", "KEY_ESCAPE", "keyboard")

  /** The corrected entry stores Escape's code (Keyboard/Keypad page 0x29) and reads back as itself. */
  lemma EscapeMacroCorrected()
    ensures ActionCode(CorrectedEscape.action) == (ActionKey, 0x29)
    ensures ActionName(ActionKey, 0x29) == CorrectedEscape.action
  {
    KnownKey(CorrectedEscape.action, 0x29);
  }
}
