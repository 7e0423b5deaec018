# ImportsPanel: draft/settings synchronisation and mnemonic text

This project models the logic behind the Scala plugin's imports code-style
panel (`ImportsPanel.java`) and proves properties of it in Dafny.

The panel holds a **draft** of the import settings:
- nine scalar values in its six check boxes, two radio buttons and the class-count spinner; eight of them mirror a setting, and the lexicographic radio has none;
- three string lists in `DefaultListModel`s: the prefix packages, the always-used imports and the import layout.

It keeps the draft in step with the persisted `ScalaCodeStyleSettings` through three operations:
- `resetImpl` loads the draft from the settings;
- `isModified` compares the draft with the settings;
- `apply` writes the draft back, but only when `isModified` says something differs.

`getPrefixPackages` and `getAlwaysUsedImports` copy their list model into a
fresh array and sort it with `Arrays.sort`. `getImportLayout` copies the
layout model unsorted. As a result, change detection ignores the order of the
draft prefix and always-used lists but not the order of the draft layout. The
stored lists are compared as they stand, so their order does matter.

The second piece of logic is the text loader of the generated
`$$$loadLabelText$$$` and `$$$loadButtonText$$$`. It reads a bundle string in
which `&c` marks `c` as the mnemonic, `&&` stands for a literal `&`, and a
final lone `&` is dropped.

The project has three modules:
- `StringOrder` (`string_order.dfy`) models Java's `String.compareTo`. It also
  models the result `Arrays.sort` leaves: the unique sorted permutation of its input.
- `ImportsSync` (`imports_sync.dfy`) has value types and the classes that hold the state:
  - `Settings` and `DraftState` are the two records as values, and
    `Differs`, `Written`, `Applied` and `Reset` say what the operations do to
    them. The lemmas about the operations are stated over these values.
  - `ImportsPanel` is a class whose fields are the panel's widgets and list
    models. Its `IsModified`, `Apply` and `ResetImpl` are proved against
    `Differs`, `Applied` and `Reset` through `Value()` and `Draft()`.
  - `ScalaCodeStyleSettings` stands in for the settings class, which is not
    part of this model; its `Store` is proved against `Value()`.
  - `ListModel` stands in for Swing's `DefaultListModel`. Its `Clear` and
    `Add` are proved against its `items`. The methods `ToArray` and `Reload`
    over a `ListModel`, and the panel's three getters, are proved against
    `items` and `SortStrings`.
- `Mnemonic` (`mnemonic.dfy`) has four specification functions and the scanning loop:
  - `StripMarkers` gives the shown text and `FindMnemonic` gives the mnemonic and its index.
  - `ShownFrom` and `MarkFrom` restate those two by index, reading from a
    position of the string. `FromIndex` proves them equal to the first two on
    the suffix from that position. They are the form the loop invariant uses.
  - `ParseText` is the scanning loop, proved against both functions.

`isModified` sorts only the draft list before it compares the prefix and
always-used lists (lines 146-147). The stored list is compared as it stands.
Two consequences follow, and both are proved:
- `reset` followed by `isModified` is false exactly when the two stored lists
  are already sorted (`ResetUnmodifiedIffSorted`);
- a stored unsorted list makes a freshly reset panel report a modification
  (`ResetUnsortedModified`).

## Model

Source paths are relative to the repository root. `ImportsPanel.java` stands for
`scala/scala-impl/src/org/jetbrains/plugins/scala/lang/formatting/settings/ImportsPanel.java`.
The table cells give the path in full.

| member | source | states |
|---|---|---|
| StringOrder.CompareTo | scala/scala-impl/src/org/jetbrains/plugins/scala/lang/formatting/settings/ImportsPanel.java:86 | The comparison `Arrays.sort` uses on strings is zero exactly when the two strings are equal. |
| StringOrder.CompareToAntisymmetric | scala/scala-impl/src/org/jetbrains/plugins/scala/lang/formatting/settings/ImportsPanel.java:86 | Swapping the two strings negates the comparison. |
| StringOrder.CompareToTransitive | scala/scala-impl/src/org/jetbrains/plugins/scala/lang/formatting/settings/ImportsPanel.java:86 | "At most" under the comparison is transitive, so it is a total preorder that can be sorted by. |
| StringOrder.SortedPairwise | scala/scala-impl/src/org/jetbrains/plugins/scala/lang/formatting/settings/ImportsPanel.java:86 | In an ascending sequence every element is at most every later one. |
| StringOrder.Insert | scala/scala-impl/src/org/jetbrains/plugins/scala/lang/formatting/settings/ImportsPanel.java:86 | Inserting into a sorted sequence keeps it sorted and adds exactly that one string. |
| StringOrder.SortStrings | scala/scala-impl/src/org/jetbrains/plugins/scala/lang/formatting/settings/ImportsPanel.java:86 | The result of `Arrays.sort` is sorted ascending, is a permutation of its input and has its input's length. |
| StringOrder.SortedHeadLeast | scala/scala-impl/src/org/jetbrains/plugins/scala/lang/formatting/settings/ImportsPanel.java:86 | The first element of a sorted sequence is at most each of its elements. |
| StringOrder.SortedPermutationUnique | scala/scala-impl/src/org/jetbrains/plugins/scala/lang/formatting/settings/ImportsPanel.java:86 | Two sorted sequences holding the same strings are equal, so the sorted result does not depend on how the sort works. |
| StringOrder.SortKeepsSorted | scala/scala-impl/src/org/jetbrains/plugins/scala/lang/formatting/settings/ImportsPanel.java:86 | Sorting an already sorted array leaves it as it is. |
| StringOrder.SortIgnoresOrder | scala/scala-impl/src/org/jetbrains/plugins/scala/lang/formatting/settings/ImportsPanel.java:86 | Two arrays holding the same strings in any order sort to the same result. |
| StringOrder.SortFixedIffSorted | scala/scala-impl/src/org/jetbrains/plugins/scala/lang/formatting/settings/ImportsPanel.java:86 | A list equals its own sorted form exactly when it is already sorted, in both directions. |
| ImportsSync.Differs | scala/scala-impl/src/org/jetbrains/plugins/scala/lang/formatting/settings/ImportsPanel.java:130-149 | The value-level `isModified`. Settings that do not differ from some draft always hold sorted prefix and always-used lists. |
| ImportsSync.Written | scala/scala-impl/src/org/jetbrains/plugins/scala/lang/formatting/settings/ImportsPanel.java:113-123 | The record the setters of `apply` produce. Its prefix and always-used lists are sorted permutations of the drafted lists. |
| ImportsSync.Applied | scala/scala-impl/src/org/jetbrains/plugins/scala/lang/formatting/settings/ImportsPanel.java:108-124 | The value-level `apply`. Its result never differs from the draft. |
| ImportsSync.Reset | scala/scala-impl/src/org/jetbrains/plugins/scala/lang/formatting/settings/ImportsPanel.java:162-185 | The value-level `resetImpl`. The two sort radios of the loaded draft are complementary whatever the settings hold. The round trip through `apply` is in `ResetThenApplySortsLists` and `ResetUnmodifiedIffSorted`. |
| ImportsSync.ListModel.constructor | scala/scala-impl/src/org/jetbrains/plugins/scala/lang/formatting/settings/ImportsPanel.java:54 | A new `DefaultListModel` is empty. |
| ImportsSync.ListModel.Clear | scala/scala-impl/src/org/jetbrains/plugins/scala/lang/formatting/settings/ImportsPanel.java:172 | `clear()` leaves the model empty. |
| ImportsSync.ListModel.Add | scala/scala-impl/src/org/jetbrains/plugins/scala/lang/formatting/settings/ImportsPanel.java:174 | `add(index, e)` inserts `e` at `index` and shifts the later entries up by one. |
| ImportsSync.ToArray | scala/scala-impl/src/org/jetbrains/plugins/scala/lang/formatting/settings/ImportsPanel.java:82-85 | The index loop of each getter fills a fresh array with exactly the model's entries, in model order. |
| ImportsSync.Reload | scala/scala-impl/src/org/jetbrains/plugins/scala/lang/formatting/settings/ImportsPanel.java:172-175 | Clearing a model and then appending each stored element at its end leaves the model equal to the stored list, in stored order. |
| ImportsSync.ScalaCodeStyleSettings.Store | scala/scala-impl/src/org/jetbrains/plugins/scala/lang/formatting/settings/ImportsPanel.java:113-123 | After the eleven setter calls, the settings record holds exactly the values passed. |
| ImportsSync.ImportsPanel.constructor | scala/scala-impl/src/org/jetbrains/plugins/scala/lang/formatting/settings/ImportsPanel.java:49-79 | The panel starts with three distinct, empty list models. |
| ImportsSync.ImportsPanel.GetPrefixPackages | scala/scala-impl/src/org/jetbrains/plugins/scala/lang/formatting/settings/ImportsPanel.java:81-88 | The result is sorted ascending and is a permutation of the prefix model's entries. |
| ImportsSync.ImportsPanel.GetAlwaysUsedImports | scala/scala-impl/src/org/jetbrains/plugins/scala/lang/formatting/settings/ImportsPanel.java:90-97 | The result is sorted ascending and is a permutation of the always-used model's entries. |
| ImportsSync.ImportsPanel.GetImportLayout | scala/scala-impl/src/org/jetbrains/plugins/scala/lang/formatting/settings/ImportsPanel.java:99-105 | The result is exactly the layout model's entries, in model order and unsorted. |
| ImportsSync.ImportsPanel.IsModified | scala/scala-impl/src/org/jetbrains/plugins/scala/lang/formatting/settings/ImportsPanel.java:127-150 | It changes no state. It returns true iff a scalar differs from its widget, a stored prefix or always-used list differs from the sorted draft list, or the stored layout differs from the draft layout. The lexicographic radio plays no part. |
| ImportsSync.ImportsPanel.Apply | scala/scala-impl/src/org/jetbrains/plugins/scala/lang/formatting/settings/ImportsPanel.java:108-124 | It leaves the settings untouched when nothing differs. Otherwise the settings become what the draft writes. Either way `isModified` is false afterwards. |
| ImportsSync.ImportsPanel.ResetImpl | scala/scala-impl/src/org/jetbrains/plugins/scala/lang/formatting/settings/ImportsPanel.java:159-186 | The draft becomes the settings' values: scalars verbatim, the two sort radios complementary, and each list model equal to the stored list in order. `isModified` is then false if the stored prefix and always-used lists are sorted. |
| ImportsSync.UnmodifiedIffWritten | scala/scala-impl/src/org/jetbrains/plugins/scala/lang/formatting/settings/ImportsPanel.java:108-150 | `isModified` is false exactly when the settings already equal what `apply` would write. |
| ImportsSync.ApplyEstablishesUnmodified | scala/scala-impl/src/org/jetbrains/plugins/scala/lang/formatting/settings/ImportsPanel.java:108-150 | After `apply`, `isModified` is false. |
| ImportsSync.ApplyResult | scala/scala-impl/src/org/jetbrains/plugins/scala/lang/formatting/settings/ImportsPanel.java:109-123 | If nothing differs, `apply` is a no-op. Otherwise it stores every scalar, the two lists sorted, and the layout verbatim. The stored lists are permutations of the draft lists, and either way they are sorted. |
| ImportsSync.ApplyEstablishes | scala/scala-impl/src/org/jetbrains/plugins/scala/lang/formatting/settings/ImportsPanel.java:113-123 | When `apply` writes, a record holding the draft's scalars, the sorted lists and the verbatim layout is the applied result, and it no longer differs from the draft. |
| ImportsSync.ApplyIdempotent | scala/scala-impl/src/org/jetbrains/plugins/scala/lang/formatting/settings/ImportsPanel.java:108-124 | A second `apply` with the same draft changes nothing. |
| ImportsSync.ResetUnmodifiedIffSorted | scala/scala-impl/src/org/jetbrains/plugins/scala/lang/formatting/settings/ImportsPanel.java:146-147 | Right after `resetImpl`, `isModified` is false iff the stored prefix and always-used lists are sorted. |
| ImportsSync.ResetUnsortedModified | scala/scala-impl/src/org/jetbrains/plugins/scala/lang/formatting/settings/ImportsPanel.java:146 | A stored prefix list `["b", "a"]` is reported as modified straight after `resetImpl`. |
| ImportsSync.ResetEstablishes | scala/scala-impl/src/org/jetbrains/plugins/scala/lang/formatting/settings/ImportsPanel.java:166-167 | A draft loaded by `resetImpl` has complementary sort radios. It does not differ from sorted stored lists. |
| ImportsSync.ResetThenApplySortsLists | scala/scala-impl/src/org/jetbrains/plugins/scala/lang/formatting/settings/ImportsPanel.java:159-186 | `apply` straight after `resetImpl` leaves every setting as it was, except that the prefix and always-used lists come out sorted. |
| ImportsSync.ListOrderIgnored | scala/scala-impl/src/org/jetbrains/plugins/scala/lang/formatting/settings/ImportsPanel.java:146-147 | Reordering the draft prefix or always-used list changes neither what `isModified` reports nor what `apply` stores. |
| ImportsSync.ReorderedPrefixUnmodified | scala/scala-impl/src/org/jetbrains/plugins/scala/lang/formatting/settings/ImportsPanel.java:146-147 | With sorted stored lists, reordering the prefix or always-used list after a reset is not reported as modified. |
| ImportsSync.ReorderedLayoutModified | scala/scala-impl/src/org/jetbrains/plugins/scala/lang/formatting/settings/ImportsPanel.java:148 | Any draft layout other than the stored one is reported as modified, a mere reordering included, and `apply` stores it verbatim. |
| ImportsSync.LexicographicRadioIgnored | scala/scala-impl/src/org/jetbrains/plugins/scala/lang/formatting/settings/ImportsPanel.java:127-150 | The lexicographic radio button affects neither `isModified` nor `apply`. |
| ImportsSync.ApplyExample | scala/scala-impl/src/org/jetbrains/plugins/scala/lang/formatting/settings/ImportsPanel.java:121-123 | For any stored settings, whether or not `apply` returns early, a drafted prefix list z, a, m ends up stored as a, m, z. A drafted layout java, scala, project is stored unchanged. |
| ImportsSync.SortExample | scala/scala-impl/src/org/jetbrains/plugins/scala/lang/formatting/settings/ImportsPanel.java:86 | `Arrays.sort` turns z, a, m into a, m, z. |
| Mnemonic.FindMnemonic | scala/scala-impl/src/org/jetbrains/plugins/scala/lang/formatting/settings/ImportsPanel.java:324-328 | The mnemonic is never `&`, and its index is below the bundle string's length. |
| Mnemonic.StripMarkers | scala/scala-impl/src/org/jetbrains/plugins/scala/lang/formatting/settings/ImportsPanel.java:316-331 | The shown text is never longer than the bundle string. |
| Mnemonic.NoMarkersUnchanged | scala/scala-impl/src/org/jetbrains/plugins/scala/lang/formatting/settings/ImportsPanel.java:316-331 | A string without `&` is shown unchanged and sets no mnemonic. |
| Mnemonic.StripShortensIffMarker | scala/scala-impl/src/org/jetbrains/plugins/scala/lang/formatting/settings/ImportsPanel.java:321-323 | The shown text is shorter than the bundle string iff the string holds a `&`, in both directions. |
| Mnemonic.EscapedMarker | scala/scala-impl/src/org/jetbrains/plugins/scala/lang/formatting/settings/ImportsPanel.java:321-330 | `&&` shows a single `&` and sets no mnemonic. A later mnemonic moves one position right. |
| Mnemonic.MnemonicInShownText | scala/scala-impl/src/org/jetbrains/plugins/scala/lang/formatting/settings/ImportsPanel.java:324-328 | The mnemonic index is within the shown text and names the mnemonic character, which is never `&`. |
| Mnemonic.ConcatComplete | scala/scala-impl/src/org/jetbrains/plugins/scala/lang/formatting/settings/ImportsPanel.java:320-331 | After a prefix that leaves no `&` dangling, the shown texts concatenate. The mnemonic is the prefix's, or else the rest's, moved past the prefix's shown text. |
| Mnemonic.TrailingMarkerDropped | scala/scala-impl/src/org/jetbrains/plugins/scala/lang/formatting/settings/ImportsPanel.java:322-323 | A final lone `&` is dropped and adds no mnemonic. |
| Mnemonic.FirstMarkerIsMnemonic | scala/scala-impl/src/org/jetbrains/plugins/scala/lang/formatting/settings/ImportsPanel.java:324-328 | The first `&c` with `c` other than `&` makes `c` the mnemonic, at the index where the prefix's shown text ends, whatever follows. |
| Mnemonic.MnemonicHasMarker | scala/scala-impl/src/org/jetbrains/plugins/scala/lang/formatting/settings/ImportsPanel.java:324-328 | Conversely, every mnemonic comes from such a first unescaped `&c`. |
| Mnemonic.FromIndex | scala/scala-impl/src/org/jetbrains/plugins/scala/lang/formatting/settings/ImportsPanel.java:320-331 | What the loop still produces reading from position `i` is what the suffix from `i` produces. |
| Mnemonic.ReadStep | scala/scala-impl/src/org/jetbrains/plugins/scala/lang/formatting/settings/ImportsPanel.java:320-331 | One turn of the loop appends the character after a `&`, or the character itself. A `&c` with `c` other than `&` is the mark at that turn. Otherwise the mark still to come moves one position right. |
| Mnemonic.ParseText | scala/scala-impl/src/org/jetbrains/plugins/scala/lang/formatting/settings/ImportsPanel.java:315-337 | The loop's text is the shown text. It has a mnemonic iff the string marks one, and then the mnemonic and its index are that mark, with `result[mnemonicIndex] == mnemonic`. Without one, they stay `'\0'` and `-1`. The same loop appears in `$$$loadButtonText$$$` (lines 342-364). |

## Left out

- The generated layout code `$$$setupUI$$$` and `$$$getRootComponent$$$` are left out, because they are Swing layout with no stateable behaviour. `getPanel` is left out for the same reason.
- The constructor's widget wiring is left out: the `JBList`s, the `ScalaProjectSettingsUtil` pattern-list panels and the empty-text labels are foreign UI helpers. `ImportsSync.ImportsPanel.constructor` keeps only the creation of the three list models.
- The `ButtonGroup` that makes the two sort radios exclusive is not modelled. The radios are two booleans, and `ResetImpl` proves they are complementary after a reset.
- `$$$getMessageFromBundle$$$` is left out: it does reflection, class loading and resource-bundle lookup against the host. The mnemonic loop takes the bundle string as a parameter.
- The `setText`, `setDisplayedMnemonic`, `setMnemonic` and `setDisplayedMnemonicIndex` calls on the Swing component are left out. `ParseText` returns the values they would receive.
- `SpinnerNumberModel` bounds are not modelled. The spinner is a plain `int`, because `setValue` in `resetImpl` does not enforce the minimum of 1.
- How `Arrays.sort` works is not modelled. Only its result is modelled: the sorted permutation under `String.compareTo`, taken over `char` values. Java `char` is a UTF-16 code unit; a Dafny `char` is compared by its code point.
- Mnemonic.ParseText and Mnemonic.FindMnemonic count Unicode scalar values, not UTF-16 code units. In Java, `mnemonicIndex = result.length()` counts UTF-16 units, and after `&` a character outside the Basic Multilingual Plane contributes only its high surrogate as the mnemonic. For such text the model's index and character differ from Java's.
- ImportsSync.ScalaCodeStyleSettings.Store assumes the eleven setters and getters of `ScalaCodeStyleSettings` are plain field stores and reads. That class is not part of this model. "`apply` establishes not-modified" (`ImportsSync.ImportsPanel.Apply`) rests on this assumption.
- `ConfigurationException` is not modelled: `apply` declares it but never throws it.
- `getCustomSettings(ScalaCodeStyleSettings.class)` is not modelled: the settings object is passed to the methods directly. The stored arrays are assumed non-null.
- ImportsSync.ImportsPanel.Apply: the three getters are called before the eleven setters rather than interleaved with them. The setters are gathered into one `Store` of the new record. The getters only read the list models and the setters only write the settings, so the stored result is the same.
- ImportsSync.ImportsPanel.IsModified: the eight scalar comparisons are one short-circuit disjunction rather than eight separate early returns. They are evaluated in the same order with the same result.
- `TestScalaVersion.java` (the version-label switch) is not part of this model. It maps a closed enumeration to singletons of Scala classes that are not part of this model.
