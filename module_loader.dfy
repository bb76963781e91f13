/**
 * The module loader: the object another extension configures to register
 * a list module. It holds the module's settings, the component class names
 * of every slot of the module's layout and two lists of additional files;
 * `register` publishes them in the module registry, from where the
 * configuration of the current module is read back.
 */
module ModuleLoading {
  import opened Outcomes
  import opened Strings

  // ------------------------------------------------------------ slots

  /** The leaves of the nested `components` array. */
  datatype Slot =
    | DocHeaderTopLeft | DocHeaderTopRight | DocHeaderBottomLeft | DocHeaderBottomRight
    | GridTop | GridButtons | GridBottom
    | MenuSelectedRows | MenuAllRows

  /** The keys that lead to a slot in the nested array. */
  function SlotPath(slot: Slot): seq<string> {
    match slot
    case DocHeaderTopLeft => ["doc-header", "top", "left"]
    case DocHeaderTopRight => ["doc-header", "top", "right"]
    case DocHeaderBottomLeft => ["doc-header", "bottom", "left"]
    case DocHeaderBottomRight => ["doc-header", "bottom", "right"]
    case GridTop => ["grid", "top"]
    case GridButtons => ["grid", "buttons"]
    case GridBottom => ["grid", "bottom"]
    case MenuSelectedRows => ["selected-rows"]
    case MenuAllRows => ["all-rows"]
  }

  /**
   * No slot lies inside another: the path of one slot is never a prefix of
   * the path of a different slot, so writing one leaf never touches another
   * and the nested array is faithfully a table indexed by slot.
   */
  lemma SlotsAreSeparate(a: Slot, b: Slot)
    requires a != b
    ensures exists i :: 0 <= i < |SlotPath(a)| && i < |SlotPath(b)| && SlotPath(a)[i] != SlotPath(b)[i]
  {
    var p, q := SlotPath(a), SlotPath(b);
    if p[0] != q[0] {
      assert p[0] != q[0];
    } else if p[1] != q[1] {
      assert p[1] != q[1];
    } else {
      assert p[2] != q[2];
    }
  }

  lemma EverySlotPresent()
    ensures forall slot: Slot :: slot in DefaultComponents
  {
    forall slot: Slot ensures slot in DefaultComponents {
      match slot
      case DocHeaderTopLeft =>
      case DocHeaderTopRight =>
      case DocHeaderBottomLeft =>
      case DocHeaderBottomRight =>
      case GridTop =>
      case GridButtons =>
      case GridBottom =>
      case MenuSelectedRows =>
      case MenuAllRows =>
    }
  }

  /** The components every module starts with. */
  const DefaultComponents: map<Slot, seq<string>> := map[
    DocHeaderTopLeft := ["TYPO3\\CMS\\Vidi\\View\\Tab\\DataTypeTab"],
    DocHeaderTopRight := [],
    DocHeaderBottomLeft := ["TYPO3\\CMS\\Vidi\\View\\Button\\NewButton",
                            "TYPO3\\CMS\\Vidi\\ViewHelpers\\Link\\BackViewHelper"],
    DocHeaderBottomRight := [],
    GridTop := ["TYPO3\\CMS\\Vidi\\View\\Check\\PidCheck",
                "TYPO3\\CMS\\Vidi\\View\\Check\\RelationsCheck"],
    GridButtons := ["TYPO3\\CMS\\Vidi\\View\\Button\\EditButton",
                    "TYPO3\\CMS\\Vidi\\View\\Button\\DeleteButton"],
    GridBottom := [],
    MenuSelectedRows := MenuItems,
    MenuAllRows := MenuItems]

  const MenuItems: seq<string> := [
    "TYPO3\\CMS\\Vidi\\View\\MenuItem\\ExportXlsMenuItem",
    "TYPO3\\CMS\\Vidi\\View\\MenuItem\\ExportXmlMenuItem",
    "TYPO3\\CMS\\Vidi\\View\\MenuItem\\ExportCsvMenuItem",
    "TYPO3\\CMS\\Vidi\\View\\MenuItem\\DividerMenuItem",
    "TYPO3\\CMS\\Vidi\\View\\MenuItem\\MassDeleteMenuItem"]

  /** What the `add*Components` methods accept: one class name or a list of them. */
  datatype ComponentArgument = One(name: string) | Many(names: seq<string>)

  // ------------------------------------------------------- module code

  /**
   * `GeneralUtility::underscoredToUpperCamelCase`: the string is lower-cased,
   * every '_' becomes a word break, the first letter of every word is
   * upper-cased and the breaks are removed.
   */
  function UpperCamel(s: string): (r: string)
    ensures '_' !in r && ' ' !in r
  {
    CamelFrom(Lower(s), true)
  }

  /** `ucwords` after `str_replace('_', ' ', ..)`, followed by the removal of the spaces. */
  function CamelFrom(s: string, capital: bool): (r: string)
    ensures '_' !in r && ' ' !in r
    ensures |r| <= |s|
  {
    if s == [] then ""
    else if s[0] == '_' || s[0] == ' ' then CamelFrom(s[1..], true)
    else if IsWordBreak(s[0]) then [s[0]] + CamelFrom(s[1..], true)
    else [if capital then UpperChar(s[0]) else s[0]] + CamelFrom(s[1..], false)
  }

  /** The other characters after which `ucwords` starts a word. */
  predicate IsWordBreak(c: char) {
    c == '\t' || c == '\r' || c == '\n' || c == '\U{C}' || c == '\U{B}'
  }

  lemma {:induction false} CamelJoin(a: string, b: string, capital: bool)
    ensures CamelFrom(a + "_" + b, capital) == CamelFrom(a, capital) + CamelFrom(b, true)
  {
    if a == [] {
      assert a + "_" + b == "_" + b;
      assert ("_" + b)[1..] == b;
    } else {
      assert (a + "_" + b)[1..] == a[1..] + "_" + b;
      assert (a + "_" + b)[0] == a[0];
      CamelJoin(a[1..], b, a[0] == '_' || a[0] == ' ' || IsWordBreak(a[0]));
    }
  }

  lemma LowerJoin(a: string, b: string)
    ensures Lower(a + "_" + b) == Lower(a) + "_" + Lower(b)
  {
    var l, r := Lower(a + "_" + b), Lower(a) + "_" + Lower(b);
    forall i | 0 <= i < |l| ensures l[i] == r[i] {
      if i < |a| {
        assert (a + "_" + b)[i] == a[i];
      } else if i == |a| {
        assert (a + "_" + b)[i] == '_';
      } else {
        assert (a + "_" + b)[i] == b[i - |a| - 1];
      }
    }
  }

  /** An underscore joins two words: each is camel-cased on its own. */
  lemma UpperCamelJoin(a: string, b: string)
    ensures UpperCamel(a + "_" + b) == UpperCamel(a) + UpperCamel(b)
  {
    LowerJoin(a, b);
    CamelJoin(Lower(a), Lower(b), true);
  }

  // ------------------------------------------------------------ registry

  /** The registry entry `register` writes under the internal module code. */
  datatype Entry = Entry(
    dataType: string,
    defaultPid: int,
    additionalJavaScriptFiles: seq<string>,
    additionalStyleSheetFiles: seq<string>,
    components: map<Slot, seq<string>>)

  /** The module configuration handed to `ExtensionUtility::registerModule`. */
  datatype ModuleSettings = ModuleSettings(
    access: string,
    icon: string,
    labels: string,
    inheritNavigationComponentFromMainModule: bool,
    navigationComponentId: Option<string>)

  /** The arguments of `ExtensionUtility::registerModule`. */
  datatype BackendModule = BackendModule(
    extensionName: string,
    mainModuleName: string,
    subModuleName: string,
    position: string,
    controllerActions: seq<(string, string)>,
    configuration: ModuleSettings)

  const ControllerActions: seq<(string, string)> :=
    [("Content", "index, list, delete, update, edit"), ("Facet", "suggest")]

  /** The value `Access::USER`. */
  const UserAccess := "user,group"

  /** Every field of the loader at once. */
  datatype Settings = Settings(
    dataType: string,
    defaultPid: Option<int>,
    showPageTree: Option<bool>,
    isShown: bool,
    access: string,
    mainModule: string,
    position: string,
    icon: string,
    moduleLanguageFile: string,
    moduleKey: string,
    additionalJavaScriptFiles: seq<string>,
    additionalStyleSheetFiles: seq<string>,
    components: map<Slot, seq<string>>)

  class ModuleLoader {
    var dataType: string
    var defaultPid: Option<int>
    var showPageTree: Option<bool>
    var isShown: bool
    var access: string
    var mainModule: string
    var position: string
    var icon: string
    var moduleLanguageFile: string
    var moduleKey: string
    var additionalJavaScriptFiles: seq<string>
    var additionalStyleSheetFiles: seq<string>
    var components: map<Slot, seq<string>>

    /** Every slot is present, as in the initial nested array. */
    predicate Valid()
      reads this
    {
      forall slot: Slot :: slot in components
    }

    function State(): Settings
      reads this
    {
      Settings(dataType, defaultPid, showPageTree, isShown, access, mainModule, position, icon,
               moduleLanguageFile, moduleKey, additionalJavaScriptFiles, additionalStyleSheetFiles, components)
    }

    constructor (dataType: string)
      ensures Valid()
      ensures State() == Settings(dataType, None, None, true, UserAccess, "user", "", "EXT:vidi/ext_icon.gif",
                                  "LLL:EXT:vidi/Resources/Private/Language/locallang_module.xlf", "m1",
                                  [], [], DefaultComponents)
    {
      this.dataType := dataType;
      defaultPid := None;
      showPageTree := None;
      isShown := true;
      access := UserAccess;
      mainModule := "user";
      position := "";
      icon := "EXT:vidi/ext_icon.gif";
      moduleLanguageFile := "LLL:EXT:vidi/Resources/Private/Language/locallang_module.xlf";
      moduleKey := "m1";
      additionalJavaScriptFiles := [];
      additionalStyleSheetFiles := [];
      components := DefaultComponents;
      EverySlotPresent();
    }

    // ------------------------------------------------------ components

    /** `set*Components`: the slot holds exactly the given list; nothing else changes. */
    method SetComponents(slot: Slot, list: seq<string>)
      requires Valid()
      modifies this
      ensures Valid()
      ensures State() == old(State()).(components := old(components)[slot := list])
      ensures components[slot] == list
      ensures forall other :: other != slot ==> components[other] == old(components[other])
    {
      components := components[slot := list];
    }

    /**
     * `add*Components`: a single name is appended as a one-element list, a
     * list is appended in order; nothing else changes.
     */
    method AddComponents(slot: Slot, c: ComponentArgument)
      requires Valid()
      modifies this
      ensures Valid()
      ensures c.One? ==> components[slot] == old(components[slot]) + [c.name]
      ensures c.Many? ==> components[slot] == old(components[slot]) + c.names
      ensures forall other :: other != slot ==> components[other] == old(components[other])
      ensures State() == old(State()).(components := components)
    {
      var names := if c.One? then [c.name] else c.names;
      components := components[slot := components[slot] + names];
    }

    // ----------------------------------------------------------- files

    /** `addJavaScriptFiles`: every file in order, at the end of the script list only. */
    method AddJavaScriptFiles(files: seq<string>)
      modifies this
      ensures State() == old(State()).(additionalJavaScriptFiles := old(additionalJavaScriptFiles) + files)
    {
      for i := 0 to |files|
        invariant State() == old(State()).(additionalJavaScriptFiles := old(additionalJavaScriptFiles) + files[..i])
      {
        assert files[..i + 1] == files[..i] + [files[i]];
        additionalJavaScriptFiles := additionalJavaScriptFiles + [files[i]];
      }
      assert files[..|files|] == files;
    }

    /** `addStyleSheetFiles`: every file in order, at the end of the style sheet list only. */
    method AddStyleSheetFiles(files: seq<string>)
      modifies this
      ensures State() == old(State()).(additionalStyleSheetFiles := old(additionalStyleSheetFiles) + files)
    {
      for i := 0 to |files|
        invariant State() == old(State()).(additionalStyleSheetFiles := old(additionalStyleSheetFiles) + files[..i])
      {
        assert files[..i + 1] == files[..i] + [files[i]];
        additionalStyleSheetFiles := additionalStyleSheetFiles + [files[i]];
      }
      assert files[..|files|] == files;
    }

    // --------------------------------------------------------- setters

    method SetDataType(dataType: string)
      modifies this
      ensures State() == old(State()).(dataType := dataType)
    {
      this.dataType := dataType;
    }

    method SetDefaultPid(defaultPid: Option<int>)
      modifies this
      ensures State() == old(State()).(defaultPid := defaultPid)
    {
      this.defaultPid := defaultPid;
    }

    /** `showPageTree($isPageTreeShown)`. */
    method ShowPageTree(isPageTreeShown: bool)
      modifies this
      ensures State() == old(State()).(showPageTree := Some(isPageTreeShown))
    {
      showPageTree := Some(isPageTreeShown);
    }

    /** `isShown($isShown)`, the setter. */
    method SetShown(isShown: bool)
      modifies this
      ensures State() == old(State()).(isShown := isShown)
    {
      this.isShown := isShown;
    }

    method SetAccess(access: string)
      modifies this
      ensures State() == old(State()).(access := access)
    {
      this.access := access;
    }

    method SetMainModule(mainModule: string)
      modifies this
      ensures State() == old(State()).(mainModule := mainModule)
    {
      this.mainModule := mainModule;
    }

    method SetPosition(position: string)
      modifies this
      ensures State() == old(State()).(position := position)
    {
      this.position := position;
    }

    method SetIcon(icon: string)
      modifies this
      ensures State() == old(State()).(icon := icon)
    {
      this.icon := icon;
    }

    method SetModuleLanguageFile(moduleLanguageFile: string)
      modifies this
      ensures State() == old(State()).(moduleLanguageFile := moduleLanguageFile)
    {
      this.moduleLanguageFile := moduleLanguageFile;
    }

    // ---------------------------------------------------- registration

    /**
     * `getInternalModuleCode`: "Vidi" followed by the camel-cased data type
     * (the stored one when none is given) and the camel-cased module key.
     */
    function InternalModuleCode(dataType: Option<string>): (code: string)
      reads this
      ensures code == "Vidi" + UpperCamel(dataType.GetOr(this.dataType)) + UpperCamel(moduleKey)
      ensures '_' !in code
    {
      var d := if dataType.None? then this.dataType else dataType.value;
      UpperCamelJoin(d, moduleKey);
      "Vidi" + UpperCamel(d + "_" + moduleKey)
    }

    /** The navigation settings of the backend module. */
    function Navigation(): (s: ModuleSettings)
      reads this
      ensures s.navigationComponentId.Some? <==> showPageTree == Some(true)
      ensures s.navigationComponentId.Some? ==> s.navigationComponentId.value == "typo3-pagetree"
      ensures s.inheritNavigationComponentFromMainModule <==> showPageTree != Some(false)
    {
      var s := ModuleSettings(access, icon, moduleLanguageFile, true, None);
      if showPageTree.None? then s
      else if showPageTree.value then s.(navigationComponentId := Some("typo3-pagetree"))
      else s.(inheritNavigationComponentFromMainModule := false)
    }

    /**
     * `register`: the registry with this module's entry written under its
     * internal code, and the backend module registered when the module is
     * shown.
     */
    function Register(registry: map<string, Entry>): (r: (map<string, Entry>, Option<BackendModule>))
      reads this
      ensures var code := InternalModuleCode(None);
              && code in r.0
              && r.0[code] == Entry(dataType, defaultPid.GetOr(0), additionalJavaScriptFiles,
                                    additionalStyleSheetFiles, components)
              && (forall c :: c != code ==> (c in r.0 <==> c in registry))
              && (forall c :: c != code && c in registry ==> r.0[c] == registry[c])
      ensures r.1.Some? <==> isShown
      ensures r.1.Some? ==>
                var m := r.1.value;
                && m.extensionName == "vidi" && m.mainModuleName == mainModule
                && m.subModuleName == dataType + "_" + moduleKey && m.position == position
                && m.controllerActions == ControllerActions
                && "Vidi" + UpperCamel(m.subModuleName) == InternalModuleCode(None)
                && m.configuration.access == access && m.configuration.icon == icon
                && m.configuration.labels == moduleLanguageFile
                && (m.configuration.navigationComponentId.Some? <==> showPageTree == Some(true))
                && (m.configuration.inheritNavigationComponentFromMainModule <==> showPageTree != Some(false))
    {
      var code := InternalModuleCode(None);
      var entry := Entry(dataType, if defaultPid.None? then 0 else defaultPid.value,
                         additionalJavaScriptFiles, additionalStyleSheetFiles, components);
      var backendModule := if isShown
        then Some(BackendModule("vidi", mainModule, dataType + "_" + moduleKey, position, ControllerActions, Navigation()))
        else None;
      UpperCamelJoin(dataType, moduleKey);
      (registry[code := entry], backendModule)
    }
  }

  // -------------------------------------------- reading the configuration

  /** A value read from a registry entry. */
  datatype ConfigValue =
    | WholeEntry(entry: Entry)
    | Text(text: string)
    | Number(number: int)
    | Files(files: seq<string>)
    | Components(table: map<Slot, seq<string>>)

  datatype LookupError =
    | InvalidModuleCode(code: string)  // 1375092053
    | InvalidKey(key: string)          // 1375092054

  /** `$entry[key]` for the keys `register` writes; no entry value is NULL, so `isset` holds for each. */
  function EntryField(e: Entry, key: string): Option<ConfigValue> {
    if key == "dataType" then Some(Text(e.dataType))
    else if key == "defaultPid" then Some(Number(e.defaultPid))
    else if key == "additionalJavaScriptFiles" then Some(Files(e.additionalJavaScriptFiles))
    else if key == "additionalStyleSheetFiles" then Some(Files(e.additionalStyleSheetFiles))
    else if key == "components" then Some(Components(e.components))
    else None
  }

  /**
   * `getModuleConfiguration`: the entry of the current module, or one of
   * its values when a key is given.
   */
  function Configuration(registry: map<string, Entry>, vidiModuleCode: string, key: string): (r: Result<ConfigValue, LookupError>)
    ensures vidiModuleCode !in registry ==> r == Err(InvalidModuleCode(vidiModuleCode))
    ensures vidiModuleCode in registry && PhpEmpty(key) ==> r == Ok(WholeEntry(registry[vidiModuleCode]))
    ensures vidiModuleCode in registry && !PhpEmpty(key) ==>
              && (r.Err? <==> EntryField(registry[vidiModuleCode], key).None?)
              && (r.Err? ==> r.error == InvalidKey(key))
              && (r.Ok? ==> r.value == EntryField(registry[vidiModuleCode], key).value)
  {
    if vidiModuleCode !in registry then Err(InvalidModuleCode(vidiModuleCode))
    else
      var entry := registry[vidiModuleCode];
      if PhpEmpty(key) then Ok(WholeEntry(entry))
      else match EntryField(entry, key)
        case None => Err(InvalidKey(key))
        case Some(v) => Ok(v)
  }

  /**
   * The non-list branch of `getVidiModuleCode`: what follows the first '_'
   * of the module code. Without a '_' the position PHP computes is 1
   * (FALSE plus one), so the first character is dropped.
   */
  function SubModuleCode(moduleCode: string): (r: string)
    ensures '_' in moduleCode ==>
              var k := IndexOf(moduleCode, '_').value;
              moduleCode == moduleCode[..k] + "_" + r
    ensures '_' !in moduleCode ==> r == if moduleCode == "" then "" else moduleCode[1..]
  {
    var delimiter := match IndexOf(moduleCode, '_') case None => 1 case Some(k) => k + 1;
    var r := Substr(moduleCode, delimiter);
    if '_' in moduleCode then
      var k := IndexOf(moduleCode, '_').value;
      assert moduleCode == moduleCode[..k] + "_" + moduleCode[k + 1..];
      r
    else r
  }

  /** `getParameterPrefix` for the given module code. */
  function ParameterPrefix(moduleCode: string): string {
    "tx_vidi_" + Lower(moduleCode)
  }

  lemma LowerIdempotent(s: string)
    ensures Lower(Lower(s)) == Lower(s)
  {
    assert forall i :: 0 <= i < |s| ==> LowerChar(LowerChar(s[i])) == LowerChar(s[i]);
  }

  /** The prefix does not depend on the letter case of the module code. */
  lemma ParameterPrefixIgnoresCase(moduleCode: string)
    ensures ParameterPrefix(Lower(moduleCode)) == ParameterPrefix(moduleCode)
    ensures |ParameterPrefix(moduleCode)| == 8 + |moduleCode|
  {
    LowerIdempotent(moduleCode);
  }

  // ----------------------------------------------------- round trips

  /**
   * What `register` writes is what `getModuleConfiguration` reads back: the
   * whole entry and every one of its keys.
   */
  lemma RegisteredConfiguration(l: ModuleLoader, registry: map<string, Entry>)
    ensures var reg := l.Register(registry).0;
            var code := l.InternalModuleCode(None);
            && Configuration(reg, code, "") == Ok(WholeEntry(reg[code]))
            && Configuration(reg, code, "dataType") == Ok(Text(l.dataType))
            && Configuration(reg, code, "defaultPid") == Ok(Number(l.defaultPid.GetOr(0)))
            && Configuration(reg, code, "additionalJavaScriptFiles") == Ok(Files(l.additionalJavaScriptFiles))
            && Configuration(reg, code, "additionalStyleSheetFiles") == Ok(Files(l.additionalStyleSheetFiles))
            && Configuration(reg, code, "components") == Ok(Components(l.components))
  {
  }

  /**
   * A backend module is addressed by the main module, '_', and the internal
   * code; the sub-module code of that address finds the registered entry.
   */
  lemma RegisteredModuleFound(l: ModuleLoader, registry: map<string, Entry>)
    requires '_' !in l.mainModule
    ensures var code := l.InternalModuleCode(None);
            && SubModuleCode(l.mainModule + "_" + code) == code
            && Configuration(l.Register(registry).0, SubModuleCode(l.mainModule + "_" + code), "").Ok?
  {
    var code := l.InternalModuleCode(None);
    var moduleCode := l.mainModule + "_" + code;
    assert moduleCode[|l.mainModule|] == '_';
    var k := IndexOf(moduleCode, '_').value;
    assert moduleCode[..|l.mainModule|] == l.mainModule;
    assert k == |l.mainModule|;
    assert moduleCode[k + 1..] == code;
  }

  /** A word without breaks is only capitalised. */
  lemma {:induction false} PlainWord(w: string, capital: bool)
    requires w != []
    requires forall i :: 0 <= i < |w| ==> w[i] != '_' && w[i] != ' ' && !IsWordBreak(w[i])
    ensures CamelFrom(w, capital) == [if capital then UpperChar(w[0]) else w[0]] + w[1..]
    decreases |w|
  {
    if |w| > 1 {
      PlainWord(w[1..], false);
      assert w[1..] == [w[1..][0]] + w[1..][1..];
    }
  }

  lemma LowerKeeps(s: string)
    requires forall i :: 0 <= i < |s| ==> !('A' <= s[i] <= 'Z')
    ensures Lower(s) == s
  {
  }

  /** A lower-case word without breaks is camel-cased by capitalising its first letter. */
  lemma WordCamel(w: string)
    requires w != []
    requires forall i :: 0 <= i < |w| ==> 'a' <= w[i] <= 'z' || '0' <= w[i] <= '9'
    ensures UpperCamel(w) == [UpperChar(w[0])] + w[1..]
  {
    LowerKeeps(w);
    PlainWord(w, true);
  }

  /** Two lower-case words joined by an underscore: both capitalised, the underscore dropped. */
  lemma TwoWordCamel(a: string, b: string)
    requires a != [] && b != []
    requires forall i :: 0 <= i < |a| ==> 'a' <= a[i] <= 'z' || '0' <= a[i] <= '9'
    requires forall i :: 0 <= i < |b| ==> 'a' <= b[i] <= 'z' || '0' <= b[i] <= '9'
    ensures UpperCamel(a + "_" + b) == [UpperChar(a[0])] + a[1..] + [UpperChar(b[0])] + b[1..]
  {
    UpperCamelJoin(a, b);
    WordCamel(a);
    WordCamel(b);
  }

  lemma ContentCamel(d: string)
    requires d == "tt_content"
    ensures UpperCamel(d) == "TtContent"
  {
    var a, b := d[..2], d[3..];
    assert d == a + "_" + b;
    TwoWordCamel(a, b);
    assert [UpperChar(a[0])] + a[1..] + [UpperChar(b[0])] + b[1..] == "TtContent";
  }

  lemma KeyCamel(k: string)
    requires k == "m1"
    ensures UpperCamel(k) == "M1"
  {
    WordCamel(k);
    assert [UpperChar(k[0])] + k[1..] == "M1";
  }

  /** The list module's hard-coded default sub-module is the code of a `tt_content` module with the default key. */
  lemma ContentModuleCode(l: ModuleLoader)
    requires l.dataType == "tt_content" && l.moduleKey == "m1"
    ensures l.InternalModuleCode(None) == "VidiTtContentM1"
  {
    ContentCamel(l.dataType);
    KeyCamel(l.moduleKey);
    assert l.InternalModuleCode(None) == "Vidi" + "TtContent" + "M1";
  }
}
