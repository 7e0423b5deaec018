/** The imports code-style panel: a draft held by the panel's widgets and
    three list models, kept in step with the persisted Scala code-style
    settings by `resetImpl`, `isModified` and `apply`. */
module ImportsSync {
  import opened StringOrder

  /** The import-related part of the persisted Scala code-style settings, as a value. */
  datatype Settings = Settings(
    addImportMostCloseToReference: bool,
    addFullQualifiedImports: bool,
    doNotChangeLocalImportsOnOptimize: bool,
    sortImports: bool,
    sortAsScalastyle: bool,
    collectImports: bool,
    classCountToUseImportOnDemand: int,
    importShortestPathForAmbiguousReferences: bool,
    importsWithPrefix: seq<string>,
    alwaysUsedImports: seq<string>,
    importLayout: seq<string>)

  /** What the panel's widgets and list models hold, as a value. */
  datatype DraftState = DraftState(
    addImportStatementIn: bool,
    addFullQualifiedImports: bool,
    doNotChangePath: bool,
    sortImports: bool,
    sortLexicographically: bool,
    sortScalastyle: bool,
    collectImports: bool,
    classCount: int,
    importTheShortestPath: bool,
    referencesWithPrefix: seq<string>,
    alwaysUsedImports: seq<string>,
    importLayout: seq<string>)

  /** One of the eight scalar settings differs from its widget. */
  predicate ScalarsDiffer(s: Settings, d: DraftState) {
    || s.classCountToUseImportOnDemand != d.classCount
    || s.addImportMostCloseToReference != d.addImportStatementIn
    || s.addFullQualifiedImports != d.addFullQualifiedImports
    || s.doNotChangeLocalImportsOnOptimize != d.doNotChangePath
    || s.sortImports != d.sortImports
    || s.collectImports != d.collectImports
    || s.importShortestPathForAmbiguousReferences != d.importTheShortestPath
    || s.sortAsScalastyle != d.sortScalastyle
  }

  /** What `isModified` reports: a scalar differs, a stored prefix or
      always-used list differs from the SORTED draft list, or the stored
      layout differs from the draft layout as it stands. Settings that do
      not differ from any draft hold sorted prefix and always-used lists. */
  predicate Differs(s: Settings, d: DraftState): (r: bool)
    ensures !r ==> Sorted(s.importsWithPrefix) && Sorted(s.alwaysUsedImports)
  {
    || ScalarsDiffer(s, d)
    || s.importsWithPrefix != SortStrings(d.referencesWithPrefix)
    || s.alwaysUsedImports != SortStrings(d.alwaysUsedImports)
    || s.importLayout != d.importLayout
  }

  /** The settings `apply` writes from a draft: the two lists sorted
      permutations of the drafted ones. */
  function Written(d: DraftState): (r: Settings)
    ensures Sorted(r.importsWithPrefix) && multiset(r.importsWithPrefix) == multiset(d.referencesWithPrefix)
    ensures Sorted(r.alwaysUsedImports) && multiset(r.alwaysUsedImports) == multiset(d.alwaysUsedImports)
  {
    Settings(
      d.addImportStatementIn, d.addFullQualifiedImports, d.doNotChangePath,
      d.sortImports, d.sortScalastyle, d.collectImports, d.classCount,
      d.importTheShortestPath,
      SortStrings(d.referencesWithPrefix), SortStrings(d.alwaysUsedImports),
      d.importLayout)
  }

  /** The settings after `apply`: untouched unless the draft differs, and
      never differing from the draft afterwards. */
  function Applied(s: Settings, d: DraftState): (r: Settings)
    ensures !Differs(r, d)
  {
    if Differs(s, d) then Written(d) else s
  }

  /** The draft `resetImpl` loads from the settings: the two sort radios
      are complementary, whatever the settings hold. */
  function Reset(s: Settings): (r: DraftState)
    ensures r.sortLexicographically == !r.sortScalastyle
  {
    DraftState(
      s.addImportMostCloseToReference, s.addFullQualifiedImports,
      s.doNotChangeLocalImportsOnOptimize, s.sortImports,
      !s.sortAsScalastyle, s.sortAsScalastyle, s.collectImports,
      s.classCountToUseImportOnDemand, s.importShortestPathForAmbiguousReferences,
      s.importsWithPrefix, s.alwaysUsedImports, s.importLayout)
  }

  /** The settings are unmodified exactly when they already are what `apply` would write. */
  lemma UnmodifiedIffWritten(s: Settings, d: DraftState)
    ensures !Differs(s, d) <==> s == Written(d)
  {
  }

  /** After `apply`, `isModified` is false. */
  lemma ApplyEstablishesUnmodified(s: Settings, d: DraftState)
    ensures !Differs(Applied(s, d), d)
  {
    UnmodifiedIffWritten(s, d);
  }

  /** When nothing differs, `apply` changes no setting; otherwise it stores
      every scalar, the two sorted lists and the layout as drafted. */
  lemma ApplyResult(s: Settings, d: DraftState)
    ensures !Differs(s, d) ==> Applied(s, d) == s
    ensures Differs(s, d) ==> Applied(s, d) == Written(d)
    ensures Sorted(Applied(s, d).importsWithPrefix) && Sorted(Applied(s, d).alwaysUsedImports)
    ensures multiset(Applied(s, d).importsWithPrefix) == multiset(d.referencesWithPrefix)
    ensures multiset(Applied(s, d).alwaysUsedImports) == multiset(d.alwaysUsedImports)
    ensures Applied(s, d).importLayout == d.importLayout
  {
  }

  /** What `apply` leaves when it writes: the written settings, which no
      longer differ from the draft. */
  lemma ApplyEstablishes(before: Settings, after: Settings, d: DraftState)
    requires Differs(before, d)
    requires after.importsWithPrefix == SortStrings(d.referencesWithPrefix)
    requires after.alwaysUsedImports == SortStrings(d.alwaysUsedImports)
    requires after.importLayout == d.importLayout
    requires !ScalarsDiffer(after, d)
    ensures after == Applied(before, d)
    ensures !Differs(after, d)
  {
  }

  /** A second `apply` with the same draft does nothing. */
  lemma ApplyIdempotent(s: Settings, d: DraftState)
    ensures Applied(Applied(s, d), d) == Applied(s, d)
  {
    ApplyEstablishesUnmodified(s, d);
  }

  /** Right after `resetImpl`, `isModified` is false exactly when the stored
      prefix and always-used lists are already sorted: the draft list is
      sorted before the comparison, the stored one is not. */
  lemma ResetUnmodifiedIffSorted(s: Settings)
    ensures !Differs(s, Reset(s)) <==> Sorted(s.importsWithPrefix) && Sorted(s.alwaysUsedImports)
  {
    SortFixedIffSorted(s.importsWithPrefix);
    SortFixedIffSorted(s.alwaysUsedImports);
  }

  /** A stored prefix list b, a (as a settings file may hold it) makes the
      panel report a modification straight after `resetImpl`. */
  lemma ResetUnsortedModified(s: Settings)
    requires s.importsWithPrefix == ["b", "a"]
    ensures Differs(s, Reset(s))
  {
    assert !LessEq("b", "a");
    ResetUnmodifiedIffSorted(s);
  }

  /** What a draft loaded by `resetImpl` satisfies: complementary sort
      radios, and no modification when the stored lists are sorted. */
  lemma ResetEstablishes(s: Settings, d: DraftState)
    requires d == Reset(s)
    ensures d.sortLexicographically == !d.sortScalastyle
    ensures Sorted(s.importsWithPrefix) && Sorted(s.alwaysUsedImports) ==> !Differs(s, d)
  {
    ResetUnmodifiedIffSorted(s);
  }

  /** `apply` straight after `resetImpl` leaves everything but the order of
      the prefix and always-used lists, which it sorts. */
  lemma ResetThenApplySortsLists(s: Settings)
    ensures Applied(s, Reset(s)) ==
      s.(importsWithPrefix := SortStrings(s.importsWithPrefix),
         alwaysUsedImports := SortStrings(s.alwaysUsedImports))
  {
    ResetUnmodifiedIffSorted(s);
    if !Differs(s, Reset(s)) {
      SortKeepsSorted(s.importsWithPrefix);
      SortKeepsSorted(s.alwaysUsedImports);
    }
  }

  /** Reordering the draft prefix or always-used list never changes what `isModified` reports. */
  lemma ListOrderIgnored(s: Settings, d: DraftState, prefix: seq<string>, alwaysUsed: seq<string>)
    requires multiset(prefix) == multiset(d.referencesWithPrefix)
    requires multiset(alwaysUsed) == multiset(d.alwaysUsedImports)
    ensures Differs(s, d.(referencesWithPrefix := prefix, alwaysUsedImports := alwaysUsed)) == Differs(s, d)
    ensures Applied(s, d.(referencesWithPrefix := prefix, alwaysUsedImports := alwaysUsed)) == Applied(s, d)
  {
    SortIgnoresOrder(prefix, d.referencesWithPrefix);
    SortIgnoresOrder(alwaysUsed, d.alwaysUsedImports);
  }

  /** With sorted stored lists, a user who only reorders the prefix and
      always-used lists after a reset sees no modification. */
  lemma ReorderedPrefixUnmodified(s: Settings, prefix: seq<string>, alwaysUsed: seq<string>)
    requires Sorted(s.importsWithPrefix) && Sorted(s.alwaysUsedImports)
    requires multiset(prefix) == multiset(s.importsWithPrefix)
    requires multiset(alwaysUsed) == multiset(s.alwaysUsedImports)
    ensures !Differs(s, Reset(s).(referencesWithPrefix := prefix, alwaysUsedImports := alwaysUsed))
  {
    ResetUnmodifiedIffSorted(s);
    ListOrderIgnored(s, Reset(s), prefix, alwaysUsed);
  }

  /** Any draft layout other than the stored one, a mere reordering included, is a modification. */
  lemma ReorderedLayoutModified(s: Settings, d: DraftState)
    requires d.importLayout != s.importLayout
    ensures Differs(s, d)
    ensures Applied(s, d).importLayout == d.importLayout
  {
  }

  /** The lexicographic radio button plays no part in `isModified` or `apply`. */
  lemma LexicographicRadioIgnored(s: Settings, d: DraftState, selected: bool)
    ensures Differs(s, d.(sortLexicographically := selected)) == Differs(s, d)
    ensures Applied(s, d.(sortLexicographically := selected)) == Applied(s, d)
  {
  }

  /** A drafted prefix list z, a, m is stored as a, m, z; a drafted layout
      java, scala, project is stored as it is. */
  lemma ApplyExample(s: Settings, d: DraftState)
    requires d.referencesWithPrefix == ["z", "a", "m"]
    requires d.importLayout == ["java", "scala", "project"]
    ensures Applied(s, d).importsWithPrefix == ["a", "m", "z"]
    ensures Applied(s, d).importLayout == ["java", "scala", "project"]
  {
    SortExample(d.referencesWithPrefix);
  }

  /** `Arrays.sort` on the prefix list ["z", "a", "m"] yields ["a", "m", "z"]. */
  lemma SortExample(p: seq<string>)
    requires p == ["z", "a", "m"]
    ensures SortStrings(p) == ["a", "m", "z"]
  {
    var sorted := ["a", "m", "z"];
    assert Sorted(sorted) by {
      assert LessEq(sorted[0], sorted[1]) && LessEq(sorted[1], sorted[2]);
    }
    assert multiset(sorted) == multiset(p);
    SortedPermutationUnique(SortStrings(p), sorted);
  }

  /** The list model behind one of the panel's list editors: a mutable
      sequence of strings. */
  class ListModel {
    var items: seq<string>

    constructor ()
      ensures items == []
    {
      items := [];
    }

    function Size(): nat
      reads this
    {
      |items|
    }

    function ElementAt(i: nat): string
      requires i < |items|
      reads this
    {
      items[i]
    }

    method Clear()
      modifies this
      ensures items == []
    {
      items := [];
    }

    /** Inserts `element` at `index`, shifting the later entries up. */
    method Add(index: nat, element: string)
      requires index <= |items|
      modifies this
      ensures items == old(items[..index]) + [element] + old(items[index..])
    {
      items := items[..index] + [element] + items[index..];
    }
  }

  /** Copies a list model into a fresh array by an index loop. */
  method ToArray(model: ListModel) returns (a: array<string>)
    ensures fresh(a) && a[..] == model.items
  {
    a := new string[model.Size()];
    var i := 0;
    while i < model.Size()
      invariant 0 <= i <= a.Length == |model.items|
      invariant a[..i] == model.items[..i]
    {
      a[i] := model.ElementAt(i);
      i := i + 1;
    }
  }

  /** Clears a list model, then appends `items` one by one at its end. */
  method Reload(model: ListModel, items: seq<string>)
    modifies model
    ensures model.items == items
  {
    model.Clear();
    for i := 0 to |items|
      invariant model.items == items[..i]
    {
      model.Add(model.Size(), items[i]);
    }
  }

  /** The persisted Scala code-style settings object. */
  class ScalaCodeStyleSettings {
    var addImportMostCloseToReference: bool
    var addFullQualifiedImports: bool
    var doNotChangeLocalImportsOnOptimize: bool
    var sortImports: bool
    var sortAsScalastyle: bool
    var collectImports: bool
    var classCountToUseImportOnDemand: int
    var importShortestPathForAmbiguousReferences: bool
    var importsWithPrefix: seq<string>
    var alwaysUsedImports: seq<string>
    var importLayout: seq<string>

    function Value(): Settings
      reads this
    {
      Settings(
        addImportMostCloseToReference, addFullQualifiedImports,
        doNotChangeLocalImportsOnOptimize, sortImports, sortAsScalastyle,
        collectImports, classCountToUseImportOnDemand,
        importShortestPathForAmbiguousReferences,
        importsWithPrefix, alwaysUsedImports, importLayout)
    }

    /** The eleven setter calls of `apply`, one after another: afterwards
        the record holds exactly `v`. */
    method Store(v: Settings)
      modifies this
      ensures Value() == v
    {
      addImportMostCloseToReference := v.addImportMostCloseToReference;
      addFullQualifiedImports := v.addFullQualifiedImports;
      doNotChangeLocalImportsOnOptimize := v.doNotChangeLocalImportsOnOptimize;
      sortImports := v.sortImports;
      sortAsScalastyle := v.sortAsScalastyle;
      collectImports := v.collectImports;
      classCountToUseImportOnDemand := v.classCountToUseImportOnDemand;
      importShortestPathForAmbiguousReferences := v.importShortestPathForAmbiguousReferences;
      importsWithPrefix := v.importsWithPrefix;
      alwaysUsedImports := v.alwaysUsedImports;
      importLayout := v.importLayout;
    }
  }

  /** The panel: check boxes, radio buttons and the spinner as fields, and
      its three list models. */
  class ImportsPanel {
    var addImportStatementInCheckBox: bool
    var addFullQualifiedImportsCheckBox: bool
    var doNotChangePathCheckBox: bool
    var sortImportsCheckBox: bool
    var sortLexicographicallyRb: bool
    var sortScalastyleRb: bool
    var collectImportsWithTheCheckBox: bool
    var classCountSpinner: int
    var importTheShortestPathCheckBox: bool
    const referencesWithPrefixModel: ListModel
    const alwaysUsedImportsModel: ListModel
    const importLayoutModel: ListModel

    /** The three list models are separate objects. */
    ghost predicate Valid() {
      && referencesWithPrefixModel != alwaysUsedImportsModel
      && referencesWithPrefixModel != importLayoutModel
      && alwaysUsedImportsModel != importLayoutModel
    }

    constructor ()
      ensures Valid()
      ensures fresh(referencesWithPrefixModel) && fresh(alwaysUsedImportsModel) && fresh(importLayoutModel)
      ensures referencesWithPrefixModel.items == alwaysUsedImportsModel.items == importLayoutModel.items == []
    {
      referencesWithPrefixModel := new ListModel();
      alwaysUsedImportsModel := new ListModel();
      importLayoutModel := new ListModel();
    }

    function Draft(): DraftState
      reads this, referencesWithPrefixModel, alwaysUsedImportsModel, importLayoutModel
    {
      DraftState(
        addImportStatementInCheckBox, addFullQualifiedImportsCheckBox,
        doNotChangePathCheckBox, sortImportsCheckBox, sortLexicographicallyRb,
        sortScalastyleRb, collectImportsWithTheCheckBox, classCountSpinner,
        importTheShortestPathCheckBox,
        referencesWithPrefixModel.items, alwaysUsedImportsModel.items, importLayoutModel.items)
    }

    /** The prefix list model's entries, sorted. */
    method GetPrefixPackages() returns (prefixPackages: seq<string>)
      ensures Sorted(prefixPackages)
      ensures multiset(prefixPackages) == multiset(referencesWithPrefixModel.items)
      ensures prefixPackages == SortStrings(referencesWithPrefixModel.items)
    {
      var a := ToArray(referencesWithPrefixModel);
      prefixPackages := SortStrings(a[..]);
    }

    /** The always-used list model's entries, sorted. */
    method GetAlwaysUsedImports() returns (alwaysUsedImports: seq<string>)
      ensures Sorted(alwaysUsedImports)
      ensures multiset(alwaysUsedImports) == multiset(alwaysUsedImportsModel.items)
      ensures alwaysUsedImports == SortStrings(alwaysUsedImportsModel.items)
    {
      var a := ToArray(alwaysUsedImportsModel);
      alwaysUsedImports := SortStrings(a[..]);
    }

    /** The layout list model's entries, in model order. */
    method GetImportLayout() returns (importLayout: seq<string>)
      ensures importLayout == importLayoutModel.items
    {
      var a := ToArray(importLayoutModel);
      importLayout := a[..];
    }

    /** Compares the settings with the draft, changing nothing. */
    method IsModified(settings: ScalaCodeStyleSettings) returns (modified: bool)
      ensures modified == Differs(settings.Value(), Draft())
    {
      if || settings.classCountToUseImportOnDemand != classCountSpinner
         || settings.addImportMostCloseToReference != addImportStatementInCheckBox
         || settings.addFullQualifiedImports != addFullQualifiedImportsCheckBox
         || settings.doNotChangeLocalImportsOnOptimize != doNotChangePathCheckBox
         || settings.sortImports != sortImportsCheckBox
         || settings.collectImports != collectImportsWithTheCheckBox
         || settings.importShortestPathForAmbiguousReferences != importTheShortestPathCheckBox
         || settings.sortAsScalastyle != sortScalastyleRb
      {
        return true;
      }
      var prefixPackages := GetPrefixPackages();
      if settings.importsWithPrefix != prefixPackages { return true; }
      var alwaysUsedImports := GetAlwaysUsedImports();
      if settings.alwaysUsedImports != alwaysUsedImports { return true; }
      var importLayout := GetImportLayout();
      if settings.importLayout != importLayout { return true; }
      return false;
    }

    /** Writes the draft into the settings, but only when `IsModified` says it differs. */
    method Apply(settings: ScalaCodeStyleSettings)
      modifies settings
      ensures settings.Value() == Applied(old(settings.Value()), Draft())
      ensures !Differs(settings.Value(), Draft())
      ensures !old(Differs(settings.Value(), Draft())) ==> unchanged(settings)
    {
      var modified := IsModified(settings);
      if !modified { return; }
      ghost var d := Draft();
      var prefixPackages := GetPrefixPackages();
      var alwaysUsedImports := GetAlwaysUsedImports();
      var importLayout := GetImportLayout();
      settings.Store(Settings(
        addImportStatementInCheckBox, addFullQualifiedImportsCheckBox,
        doNotChangePathCheckBox, sortImportsCheckBox, sortScalastyleRb,
        collectImportsWithTheCheckBox, classCountSpinner,
        importTheShortestPathCheckBox,
        prefixPackages, alwaysUsedImports, importLayout));
      ApplyEstablishes(old(settings.Value()), settings.Value(), d);
    }

    /** Loads the draft from the settings: every scalar verbatim, the two
        sort radios complementary, and each list model cleared and refilled
        in stored order. */
    method ResetImpl(settings: ScalaCodeStyleSettings)
      requires Valid()
      modifies this, referencesWithPrefixModel, alwaysUsedImportsModel, importLayoutModel
      ensures Draft() == Reset(settings.Value())
      ensures sortLexicographicallyRb == !sortScalastyleRb
      ensures Sorted(settings.importsWithPrefix) && Sorted(settings.alwaysUsedImports)
              ==> !Differs(settings.Value(), Draft())
    {
      ghost var v := settings.Value();
      addImportStatementInCheckBox := settings.addImportMostCloseToReference;
      addFullQualifiedImportsCheckBox := settings.addFullQualifiedImports;
      doNotChangePathCheckBox := settings.doNotChangeLocalImportsOnOptimize;
      sortImportsCheckBox := settings.sortImports;
      sortScalastyleRb := settings.sortAsScalastyle;
      sortLexicographicallyRb := !settings.sortAsScalastyle;
      collectImportsWithTheCheckBox := settings.collectImports;
      classCountSpinner := settings.classCountToUseImportOnDemand;
      importTheShortestPathCheckBox := settings.importShortestPathForAmbiguousReferences;
      Reload(referencesWithPrefixModel, settings.importsWithPrefix);
      Reload(alwaysUsedImportsModel, settings.alwaysUsedImports);
      Reload(importLayoutModel, settings.importLayout);
      assert settings.Value() == v;
      ResetEstablishes(v, Draft());
    }
  }
}
