# Proofs about the preset graph, the argument parser and their neighbours

This project models the parts of the repository that do the most with the least room for error, and proves what
they are for. It covers, in CMake's source tree, the reading of preset files with their includes, the inheritance of
presets, the expansion of macros and environments, the condition language, two in-place range algorithms, the argument
parser, the scan for runtime dependencies of ELF files and the base-32 encoder; and, in SkillBuddy, the query builder's
flat table and the CSV printer and parser.

`dafny verify dfyconfig.toml` checks everything.

## How it is built

Code that works step by step is modelled step by step: classes with the source's fields, loops with invariants, arrays
updated in place. Each such method is proved against a specification that does not follow its steps, and what the source
promises is proved of the specification.

- `IncludeGraph`: `ReadJSONFile` as a depth-first walk with its stack. A reading succeeds exactly when every file
  reached is in order, no file reached lies on an include cycle, and no two presets of a kind share a name; each file's
  reachable set is then the reflexive-transitive closure of the includes.
- `Presets`, `Inheritance`, `PresetGraph`, `InheritedConditions`, `PresetOrigins`: inheritance. The status map of
  `VisitPreset` is passed by value, so presets are revisited by every child; the walk is mirrored by the function
  `Visit`, about which idempotence, order independence and the graph meaning are proved.
- `PresetChecks`: which presets inheritance refuses, in terms of the fields they end up with.
- `MacroScanner`, `Environment`: the character-level scanner, and environment expansion: the walk over a shared status
  map gives each variable what it expands to without one, and that is the unique solution of equations.
- `BuiltInMacros`: what every built-in macro stands for, and which names there are.
- `VendorMacros`: what becomes of an environment with a vendor's macro, exactly.
- `ConditionTree`, `Conditions`: the condition language against a reading with three outcomes.
- `RangeAlgorithms`: `cmRemoveIndices` and `cmRemoveDuplicates` on arrays.
- `QueryTable`: the query builder's rows and a decoder that reads them back, operators included.
- `ActionMaps`, `ArgumentSegments`, `ArgumentParser`: the sorted vectors, the unique split of the arguments at keywords,
  and the parser that refines it.
- `ArgumentKinds`: what each kind of variable takes, holds and is blamed for.
- `ElfScan`, `ElfSearch`: the worklist of the dependency scan, and the order in which directories are searched.
- `Digits`, `Base32`: positional numbers in any base, and the encoder, bit by bit, with a reference decoder.
- `Csv`: the unique cut of a line, and the round trip through printer and parser.
- `Options`, `Sequences`, `Digraph`: optional values, sequences, and walks, cycles and topological orders.

## Findings

- An explicit null condition is meant to stop a condition from being inherited. It is dropped at the end of a visit
  (`cmCMakePresetsGraph.cxx:155-157`), and the next child's visit then inherits after all. `ConditionsIntendedIff` says
  exactly when the result is the intended one, and `ExplicitNullForgotten` gives presets on which it goes wrong. So a
  second full pass is not always idle either: `SecondPassKeepsConditionsIff` says exactly when it is, for all presets,
  and `ThirdPassIsIdle` that nothing changes after two.
- The manual promises that a preset with a `$vendor{...}` macro is ignored and that the other presets of its file can
  still be used (`cmake-presets.7.rst:1306-1309`). The code does not keep this for environments: what a variable ignores
  is an error to the variables that refer to it (`cmCMakePresetsGraph.cxx:569-580`), and an error fails the whole
  reading (`cmCMakePresetsGraph.cxx:432-437`). Which of the two happens depends on the order of the keys, so renaming a
  variable can turn an ignored preset into an invalid file (`PromiseBroken`). `IgnoredForVendor` and
  `EnvironmentIgnoredIff` say exactly when a variable and an environment are ignored, and `PromiseKeptIff` reads from the
  texts alone when the promise is kept.
- In `$${x}` the second dollar sign belongs to the text before the brace, so no macro is expanded
  (`DoubleDollarHidesMacro`).
- The Verified case of `VisitPreset` is never reached: its branch in `PresetGraph` is proved dead.
- `CsvParser` never returns a field with a qualifier or with white space at its ends, so exactly the rows without such
  fields survive `DataTableToCsv` (`RowRoundTripIff`); a final empty field never does.
- A keyword that is the empty string is never reported as missing its value (`MissingReported`).
- The nesting of a query builder that comes from `FromJson` is gone before the table is written (`FromJsonFlattens`,
  `NoGroupsFromJson`); `TreeSurvivesIff` says exactly when the rules get through unchanged.

## Model

The main results come first, module by module. The rows from `PresetChecks.VisiblePresetsAreUsable` on pin down the
tables and helpers that the main results are stated with; from `Presets.ResolvesStep` on, they are single steps.

| member | source | states |
|---|---|---|
| `Presets.InheritFields` | skillbuddy/cmake-4.0.3/Source/cmCMakePresetsGraph.cxx:766-798 | after inheriting from one parent every slot of a configure preset (its strings, strategies, optional values, environment and cache entries) holds the child's value if set, else the parent's |
| `Presets.ResolvesUnique` | skillbuddy/cmake-4.0.3/Source/cmCMakePresetsGraph.cxx:139-148 | own value and parents' values determine every field |
| `Presets.InheritAgain` | skillbuddy/cmake-4.0.3/Source/cmCMakePresetsGraph.cxx:139-148 | inheriting again from a parent already taken into account changes nothing |
| `Presets.ResolvesAgain` | skillbuddy/cmake-4.0.3/Source/cmCMakePresetsGraph.cxx:139-148 | resolving a resolved preset changes nothing |
| `PresetGraph.Graph.VisitPreset` | skillbuddy/cmake-4.0.3/Source/cmCMakePresetsGraph.cxx:91-168 | the in-place walk with the status map passed by value: computes `Visit`, terminates on the presets not in progress, and never meets a Verified status |
| `PresetGraph.Graph.ComputePresetInheritance` | skillbuddy/cmake-4.0.3/Source/cmCMakePresetsGraph.cxx:171-188 | true exactly when inheritance is well defined (parents exist and are reachable, no cycle, checks hold on the resolved presets), and then every field has its graph meaning, for any order of presets |
| `Inheritance.InheritanceIsResolution` | skillbuddy/cmake-4.0.3/Source/cmCMakePresetsGraph.cxx:84-188 | the walk succeeds iff `Inheritable`; it then leaves the one and only resolution |
| `Inheritance.VisitSettles` | skillbuddy/cmake-4.0.3/Source/cmCMakePresetsGraph.cxx:91-168 | a successful visit settles the preset and everything above it and keeps all that was settled |
| `Inheritance.RevisitKeeps` | skillbuddy/cmake-4.0.3/Source/cmCMakePresetsGraph.cxx:91-168 | a finished preset visited again: succeeds, and no field of any preset changes |
| `Inheritance.VisitFails` | skillbuddy/cmake-4.0.3/Source/cmCMakePresetsGraph.cxx:96-165 | a failed visit means there is no resolution at all |
| `Inheritance.VisitOrderIrrelevant` | skillbuddy/cmake-4.0.3/Source/cmCMakePresetsGraph.cxx:180-185 | any two orders of visiting succeed alike and leave the same fields |
| `Inheritance.SecondPassKeeps` | skillbuddy/cmake-4.0.3/Source/cmCMakePresetsGraph.cxx:171-188 | a second full pass over the resolved fields succeeds and changes none |
| `Inheritance.AncestorsReachable` | skillbuddy/cmake-4.0.3/Source/cmCMakePresetsGraph.cxx:128-133 | with transitive reachability every ancestor, not only a parent, comes from a reachable file |
| `PresetChecks.InheritableIff` | skillbuddy/cmake-4.0.3/Source/cmCMakePresetsGraph.cxx:84-188 | exactly when inheritance succeeds, said of the fields alone: no preset is its own ancestor, every parent may be inherited from, no environment variable lacks a name, and every preset that is not hidden has, with what it inherits, a generator and a binary directory before version 3, no error that is switched off as a warning, and no cache variable without a name |
| `PresetChecks.UnusableIsRefused` | skillbuddy/cmake-4.0.3/Source/cmCMakePresetsGraph.cxx:811-843 | a preset that is not hidden and would not be usable makes every order of visiting fail |
| `InheritedConditions.ConditionsIntendedIff` | skillbuddy/cmake-4.0.3/Source/cmCMakePresetsGraph.cxx:150-157 | the conditions left behind are the intended ones iff no preset with an explicit null condition has both a child and a parent with a condition |
| `InheritedConditions.SecondPassKeepsConditionsIff` | skillbuddy/cmake-4.0.3/Source/cmCMakePresetsGraph.cxx:150-157 | over every set of presets and any two orders: whatever a first pass has left, a second full pass changes no condition iff no preset without a condition has a parent with one |
| `InheritedConditions.SecondPassConditionsIff` | skillbuddy/cmake-4.0.3/Source/cmCMakePresetsGraph.cxx:150-157 | the case of a first pass that has left the intended conditions: a second full pass changes none of them iff no explicit null blocks one |
| `InheritedConditions.ThirdPassIsIdle` | skillbuddy/cmake-4.0.3/Source/cmCMakePresetsGraph.cxx:150-157 | after two full passes, in any orders, a third changes no condition and no field |
| `InheritedConditions.RevisitIsIdle` | skillbuddy/cmake-4.0.3/Source/cmCMakePresetsGraph.cxx:135-157 | where no block is lost, visiting a finished preset again does nothing at all |
| `InheritedConditions.MeaningExists` | skillbuddy/cmake-4.0.3/Source/cmCMakePresetsGraph.cxx:150-157 | the intended conditions exist whenever inheritance is well defined |
| `InheritedConditions.ExplicitNullForgotten` | skillbuddy/cmake-4.0.3/Source/cmCMakePresetsGraph.cxx:150-157 | three presets on which the block is lost: the middle one ends up with the condition it refused |
| `IncludeGraph.PresetsReader.ReadJSONFile` | skillbuddy/cmake-4.0.3/Source/cmCMakePresetsGraphReadJSON.cxx:457-786 | depth-first reading: on success the file is finished and all that was known is kept; on failure the root is not readable |
| `IncludeGraph.PresetsReader.ReadProjectPresets` | skillbuddy/cmake-4.0.3/Source/cmCMakePresetsGraph.cxx:1059-1090 | succeeds iff the root file is readable (or there is none and that is allowed); then exactly the reachable files were read, reachable sets are exact, and the in-progress stack is empty, as the assertion there demands |
| `IncludeGraph.CycleFound` | skillbuddy/cmake-4.0.3/Source/cmCMakePresetsGraphReadJSON.cxx:465-477 | a file found in progress closes an include cycle, so nothing can make the reading succeed |
| `IncludeGraph.ClosureFromChildren` | skillbuddy/cmake-4.0.3/Source/cmCMakePresetsGraphReadJSON.cxx:738-740 | when all includes are learned the reachable set is exactly the reflexive-transitive closure |
| `IncludeGraph.DuplicateFound` | skillbuddy/cmake-4.0.3/Source/cmCMakePresetsGraphReadJSON.cxx:579-585 | a key already registered means two presets of one name among the files reached |
| `IncludeGraph.AllRead` | skillbuddy/cmake-4.0.3/Source/cmCMakePresetsGraphReadJSON.cxx:457-786 | a finished walk has read exactly the files reachable from the root, each once |
| `IncludeGraph.ReadableIff` | skillbuddy/cmake-4.0.3/Source/cmCMakePresetsGraphReadJSON.cxx:564-785 | when presets can be read, said of the files themselves: what every file reached includes can be read (with the project's file beside the user's), presets have names and set nothing that came after their file's version, no file is on an include cycle, and no two presets share a key |
| `IncludeGraph.ReadBecauseIncluded` | skillbuddy/cmake-4.0.3/Source/cmCMakePresetsGraphReadJSON.cxx:726-782 | nothing else is read: each file but the root is included by one that was read, or is the project's beside the user's |
| `PresetOrigins.AncestorsComeFromIncludes` | skillbuddy/cmake-4.0.3/Source/cmCMakePresetsGraph.cxx:120-137 | reading and inheritance together: every transitive ancestor of a preset originates in a file reachable by includes from the preset's own |
| `MacroScanner.ExpandOkIff` | skillbuddy/cmake-4.0.3/Source/cmCMakePresetsGraph.cxx:486-562 | expansion succeeds iff every macro asked for succeeds and the last macro is closed |
| `MacroScanner.FirstFailureDecides` | skillbuddy/cmake-4.0.3/Source/cmCMakePresetsGraph.cxx:486-562 | the first macro that does not succeed decides the expansion of the whole string |
| `MacroScanner.WrittenMacro` | skillbuddy/cmake-4.0.3/Source/cmCMakePresetsGraph.cxx:486-562 | a macro that stands alone, in any valid namespace, expands to what it means |
| `MacroScanner.AdvanceFrame` | skillbuddy/cmake-4.0.3/Source/cmCMakePresetsGraph.cxx:486-562 | the scan depends on the macro table only through the macros the string asks for |
| `MacroScanner.ExpandConcat` | skillbuddy/cmake-4.0.3/Source/cmCMakePresetsGraph.cxx:486-562 | expansion distributes over concatenation when the left part ends in the default state |
| `MacroScanner.DollarRoundTrip` | skillbuddy/cmake-4.0.3/Source/cmCMakePresetsGraph.cxx:643-646 | writing every dollar sign as the dollar macro and expanding gives back any string |
| `MacroScanner.PlainTextUnchanged` | skillbuddy/cmake-4.0.3/Source/cmCMakePresetsGraph.cxx:486-562 | a string with no dollar sign, valid namespace and brace in a row is unchanged |
| `MacroScanner.PlainTextExactly` | skillbuddy/cmake-4.0.3/Source/cmCMakePresetsGraph.cxx:486-562 | a string is left alone by all macro tables iff the scanner meets no macro in it and leaves none open |
| `MacroScanner.DoubleDollarHidesMacro` | skillbuddy/cmake-4.0.3/Source/cmCMakePresetsGraph.cxx:504-527 | two dollar signs before a brace are plain text: the second does not start a macro |
| `Environment.EnvironmentExpander.VisitEnv` | skillbuddy/cmake-4.0.3/Source/cmCMakePresetsGraph.cxx:465-483 | depth-first expansion over a shared status map: the result (settled, error or ignored) is that of a reading without shared state, in which the path of variables in progress decides what is a cycle; terminates on (keys not in progress, characters left) |
| `Environment.EnvironmentExpander.ExpandMacros` | skillbuddy/cmake-4.0.3/Source/cmCMakePresetsGraph.cxx:486-562 | the scanner loop over the shared environment expands as without shared state |
| `Environment.EnvironmentExpander.ExpandEnvironment` | skillbuddy/cmake-4.0.3/Source/cmCMakePresetsGraph.cxx:430-445 | for any order of keys: the outcome, error or ignored, is that of the first variable that does not expand; it succeeds iff there is no reference cycle and the equations have a solution, and then leaves that solution |
| `Environment.EnvironmentExpander.ExpandField` | skillbuddy/cmake-4.0.3/Source/cmCMakePresetsGraph.cxx:462-562 | any other field is expanded by the values the environment holds |
| `Environment.UniqueSolution` | skillbuddy/cmake-4.0.3/Source/cmCMakePresetsGraph.cxx:465-483 | without reference cycles the equations have at most one solution |
| `Environment.SolutionsAgree` | skillbuddy/cmake-4.0.3/Source/cmCMakePresetsGraph.cxx:465-483 | in every solution a variable holds what it expands to |
| `Environment.SolvableIff` | skillbuddy/cmake-4.0.3/Source/cmCMakePresetsGraph.cxx:430-445 | there is no reference cycle and the equations have a solution iff every variable expands, and what they expand to is then the only solution |
| `Environment.CycleFound` | skillbuddy/cmake-4.0.3/Source/cmCMakePresetsGraph.cxx:472-474 | a variable on a cycle of references does not expand |
| `Environment.EscapedTextSurvives` | skillbuddy/cmake-4.0.3/Source/cmCMakePresetsGraph.cxx:643-646 | under the built-in expanders escaped text survives in every preset |
| `VendorMacros.IgnoredForVendor` | skillbuddy/cmake-4.0.3/Source/cmCMakePresetsGraph.cxx:569-580 | a variable is ignored iff it is not in progress and a vendor's macro is the first macro in its own text that does not succeed; what a variable it refers to ignores is an error |
| `VendorMacros.EnvironmentIgnoredIff` | skillbuddy/cmake-4.0.3/Source/cmCMakePresetsGraph.cxx:430-445 | the environment is ignored iff the first variable, in the order of the keys, that does not expand is stopped by a vendor's macro in its own text |
| `VendorMacros.PromiseBroken` | skillbuddy/cmake-4.0.3/Help/manual/cmake-presets.7.rst:1305-1309 | one variable is a vendor's macro and another refers to it: with the keys in one order the preset is ignored, in the other the file is in error, for any two names |
| `VendorMacros.PromiseKeptIff` | skillbuddy/cmake-4.0.3/Help/manual/cmake-presets.7.rst:1305-1309 | when nothing but vendors' macros is wrong, read off the texts alone: the preset can be used iff there is no vendor's macro, and is ignored iff the first variable that has or leads to one has its own before any reference that leads to one |
| `Conditions.Evaluate` | skillbuddy/cmake-4.0.3/Source/cmCMakePresetsGraph.cxx:674-764 | evaluation agrees with the three-outcome meaning, over arbitrary nesting |
| `Conditions.InListHolds` | skillbuddy/cmake-4.0.3/Source/cmCMakePresetsGraph.cxx:688-705 | inList is true iff the string's text is among the items' texts |
| `Conditions.DecideByPosition` | skillbuddy/cmake-4.0.3/Source/cmCMakePresetsGraph.cxx:725-749 | everything before the deciding part is neutral and nothing after it matters |
| `Conditions.AnswersAreBoolean` | skillbuddy/cmake-4.0.3/Source/cmCMakePresetsGraph.cxx:725-749 | with answers for all parts, anyOf is `some` and allOf is `every` |
| `Conditions.DeMorgan` | skillbuddy/cmake-4.0.3/Source/cmCMakePresetsGraph.cxx:725-764 | De Morgan in both directions, errors and ignored macros included |
| `Conditions.DoubleNegation` | skillbuddy/cmake-4.0.3/Source/cmCMakePresetsGraph.cxx:751-764 | a double negation is the identity, errors and ignored macros included |
| `Conditions.InListIsAnyOfEquals` | skillbuddy/cmake-4.0.3/Source/cmCMakePresetsGraph.cxx:674-705 | inList is anyOf over equals, except for the empty list whose string fails |
| `RangeAlgorithms.RemoveIndices` | skillbuddy/cmake-4.0.3/Source/cmAlgorithms.h:73-95 | the array becomes the kept elements in order and then the removed ones in order; the result is the boundary; every rotation has a valid middle |
| `RangeAlgorithms.RemoveIndicesConserves` | skillbuddy/cmake-4.0.3/Source/cmAlgorithms.h:73-95 | the multiset of elements is conserved |
| `RangeAlgorithms.KeptPosition` | skillbuddy/cmake-4.0.3/Source/cmAlgorithms.h:73-95 | a kept element moves left by the number of removals before it |
| `RangeAlgorithms.RemoveDuplicates` | skillbuddy/cmake-4.0.3/Source/cmAlgorithms.h:104-137 | before the result stand exactly the first occurrences, although the set compares by slots that are being overwritten |
| `RangeAlgorithms.OccurrencesAreElements` | skillbuddy/cmake-4.0.3/Source/cmAlgorithms.h:104-137 | the same element set |
| `RangeAlgorithms.OccurrencesInOrder` | skillbuddy/cmake-4.0.3/Source/cmAlgorithms.h:104-137 | the original order of first occurrence |
| `RangeAlgorithms.OccurrencesDiffer` | skillbuddy/cmake-4.0.3/Source/cmAlgorithms.h:104-137 | no duplicates |
| `QueryTable.QueryBuilderToDataTable` | SkillBuddy.data/General/DataHelper.cs:60-234 | appends exactly the builder's rows, adds the columns to a table without any, and leaves the rules without the values of IS NULL rules |
| `QueryTable.NodesRoundTrip` | SkillBuddy.data/General/DataHelper.cs:172-228 | a decoder that reads only order, type, group and payload rebuilds the rules of a group at any depth, also next to sibling groups of the same number |
| `QueryTable.TableRoundTrip` | SkillBuddy.data/General/DataHelper.cs:60-234 | reading the table back gives the builder's normal form, for every builder |
| `QueryTable.LeftOfRule` | SkillBuddy.data/General/DataHelper.cs:174-227 | what writing leaves of each rule: IS NULL and IS NOT NULL lose their values, at any depth, and nothing else changes |
| `QueryTable.FromJson` | SkillBuddy.Entity/QueryBuilder.cs:45-63 | keeps everything but the rules, which are flattened; fails exactly when a null rule is met |
| `QueryTable.GetQueryRules` | SkillBuddy.Entity/QueryBuilder.cs:65-87 | one new rule for each rule below that has a field, in preorder |
| `QueryTable.FromJsonFlattens` | SkillBuddy.data/General/DataHelper.cs:172-228 | for a builder from FromJson: one rule row per rule with a field, in preorder, all in group 1 |
| `QueryTable.NoGroupsFromJson` | SkillBuddy.Entity/QueryBuilder.cs:45-87 | the table of a builder from FromJson never decodes to a nested group: one leaf for each rule with a field, in preorder |
| `QueryTable.TreeSurvivesIff` | SkillBuddy.Entity/QueryBuilder.cs:45-87 | when every rule has a field and values are kept, the rules survive FromJson and the table iff each has no condition, has an operator, and has nothing below it |
| `QueryTable.SameTableAgain` | SkillBuddy.data/General/DataHelper.cs:201-205 | the values that IS NULL rules lose are not in the table anyway: what is left of a builder gives the same table again |
| `ActionMaps.ActionMap.Emplace` | skillbuddy/cmake-4.0.3/Source/cmArgumentParser.cxx:14-25 | keeps the vector sorted; binds exactly the new key, and leaves a bound key alone |
| `ActionMaps.ActionMap.Find` | skillbuddy/cmake-4.0.3/Source/cmArgumentParser.cxx:27-35 | finds the key's action iff it is bound |
| `ActionMaps.InsertKeepsSorted` | skillbuddy/cmake-4.0.3/Source/cmArgumentParser.cxx:22-24 | inserting at the lower bound keeps the order strict |
| `ActionMaps.TextOrder` | skillbuddy/cmake-4.0.3/Source/cmArgumentParser.cxx:17-21 | the order of keywords is a strict total order |
| `ArgumentSegments.SplitIsSplit` | skillbuddy/cmake-4.0.3/Source/cmArgumentParser.cxx:135-148 | the running split cuts the arguments at the keywords and loses nothing |
| `ArgumentSegments.SplitUnique` | skillbuddy/cmake-4.0.3/Source/cmArgumentParser.cxx:135-148 | there is only one such split |
| `ArgumentParser.Instance.Parse` | skillbuddy/cmake-4.0.3/Source/cmArgumentParser.h:212-219 | the outcome of a run is the meaning of the split: values, errors, positional and unparsed arguments |
| `ArgumentParser.TakenIsLongestPrefix` | skillbuddy/cmake-4.0.3/Source/cmArgumentParser.cxx:150-160 | a keyword receives the longest prefix of its segment answered Yes, and the No that ends it |
| `ArgumentKinds.TextHoldsLast` | skillbuddy/cmake-4.0.3/Source/cmArgumentParser.cxx:69-101 | after a run a text holds the first argument after the last of its keywords that is followed by any |
| `ArgumentKinds.ListHoldsEverything` | skillbuddy/cmake-4.0.3/Source/cmArgumentParser.cxx:103-121 | after a run a list holds what it held and then all that follows its keywords, in order |
| `ArgumentParser.MissingReported` | skillbuddy/cmake-4.0.3/Source/cmArgumentParser.cxx:175-189 | a missing value is reported for exactly the occurrences with too few values, in order |
| `ArgumentParser.ErrorsReported` | skillbuddy/cmake-4.0.3/Source/cmArgumentParser.cxx:79-189 | the errors under a keyword are those of its occurrences, in order, and none if the caller wants no errors |
| `ArgumentParser.PositionalReported` | skillbuddy/cmake-4.0.3/Source/cmArgumentParser.cxx:162-168 | positional actions are called for exactly the bound positions before the first keyword, in order |
| `ArgumentParser.UnparsedReported` | skillbuddy/cmake-4.0.3/Source/cmArgumentParser.cxx:162-172 | the unparsed arguments, in order: the unbound ones before any keyword, then what each keyword leaves |
| `ArgumentParser.VariableReported` | skillbuddy/cmake-4.0.3/Source/cmArgumentParser.cxx:56-133 | a variable holds what the occurrences of its keywords give it, one after the other, and nothing else |
| `ArgumentParser.ListHoldsAll` | skillbuddy/cmake-4.0.3/Source/cmArgumentParser.cxx:103-121 | a list variable gains all values of its keywords, in order |
| `ArgumentParser.EveryArgumentPlaced` | skillbuddy/cmake-4.0.3/Source/cmArgumentParser.cxx:135-173 | each argument is a keyword, a value, positional or unparsed: none lost, none used twice (`PositionalReported` and `UnparsedReported` give the order) |
| `ElfScan.Linker.ScanDependencies` | skillbuddy/cmake-4.0.3/Source/cmBinUtilsLinuxELFLinker.cxx:113-186 | terminates on (names not resolved, queue); fails iff a file it meets is unreadable or needs a path; on success the queue is empty and the archive has gained exactly the chosen paths |
| `ElfScan.ResolveDependency` | skillbuddy/cmake-4.0.3/Source/cmBinUtilsLinuxELFLinker.cxx:199-230 | the first search path, then the first search directory, with a usable file |
| `ElfScan.FirstInByPosition` | skillbuddy/cmake-4.0.3/Source/cmBinUtilsLinuxELFLinker.cxx:203-226 | nothing is found iff no directory has a usable file, and otherwise the first that has one decides |
| `ElfScan.NeedsAreSettled` | skillbuddy/cmake-4.0.3/Source/cmBinUtilsLinuxELFLinker.cxx:151-182 | on success every needed name of every scanned file is pre-excluded, resolved, or recorded unresolved, and what the file's own search finds is resolved even if it was recorded unresolved before |
| `ElfSearch.SearchWithRunPaths` | skillbuddy/cmake-4.0.3/Source/cmBinUtilsLinuxELFLinker.cxx:138-149 | a file with run paths: the first run path with a usable file decides; if there is none the paths of ldconfig do, and then the search directories |
| `ElfSearch.SearchWithRpaths` | skillbuddy/cmake-4.0.3/Source/cmBinUtilsLinuxELFLinker.cxx:138-149 | a file without: its own rpaths, then the inherited ones, then ldconfig's, then the search directories |
| `ElfSearch.RunPathsHide` | skillbuddy/cmake-4.0.3/Source/cmBinUtilsLinuxELFLinker.cxx:138-144 | with run paths neither own nor inherited rpaths make a difference |
| `ElfSearch.InheritedRpaths` | skillbuddy/cmake-4.0.3/Source/cmBinUtilsLinuxELFLinker.cxx:168-172 | along a chain from the main file, what an entry has inherited are the rpaths of all files above it, outermost first |
| `ElfSearch.ComesByChain` | skillbuddy/cmake-4.0.3/Source/cmBinUtilsLinuxELFLinker.cxx:163-175 | every file of a scan stands at the end of such a chain |
| `ElfScan.GainedPaths` | skillbuddy/cmake-4.0.3/Source/cmBinUtilsLinuxELFLinker.cxx:163-181 | every gained path was found for a scanned file and was scanned itself if it was new; a name gains one path at most |
| `Base32.Base32Encode5` | skillbuddy/cmake-4.0.3/Source/cmBase32.cxx:15-33 | the shifts and masks on 32-bit ints write the eight base-32 digits of the block's number |
| `Base32.EncodeString` | skillbuddy/cmake-4.0.3/Source/cmBase32.cxx:39-93 | blocks, the incomplete block and its padding, for any length |
| `Base32.BlockKeepsNumber` | skillbuddy/cmake-4.0.3/Source/cmBase32.cxx:15-33 | five bytes and their eight digits denote one number (section 6 of RFC 4648) |
| `Base32.BitsAreDigits` | skillbuddy/cmake-4.0.3/Source/cmBase32.cxx:17-32 | the source's shifts and masks, on bit vectors, are the base-32 digits of the block's number |
| `Base32.CutDigitsAreZero` | skillbuddy/cmake-4.0.3/Source/cmBase32.cxx:55-84 | the digits cut off an incomplete block carry nothing |
| `Base32.EncodedLength` | skillbuddy/cmake-4.0.3/Source/cmBase32.cxx:49-90 | 8*ceil(n/5) characters padded, ceil(8n/5) unpadded |
| `Base32.RoundTrip` | skillbuddy/cmake-4.0.3/Source/cmBase32.cxx:39-93 | a reference decoder gives every byte sequence back, padded or not |
| `Csv.CsvParser` | SkillBuddy.Core/Helper.cs:183-209 | the tokens are the cleaned pieces of the line, less a last empty one |
| `Csv.PiecesIsTheCut` | SkillBuddy.Core/Helper.cs:190-201 | the scan cuts at exactly the separators outside qualifiers, and that cut is unique |
| `Csv.DataTableToCsv` | SkillBuddy.Core/Helper.cs:258-277 | the header as it is, and one printed line per row |
| `Csv.TokensAreClean` | SkillBuddy.Core/Helper.cs:196-206 | no token has a qualifier or white space at its ends |
| `Csv.RowsReadBack` | SkillBuddy.Core/Helper.cs:266-274 | what is written below the header, read line by line, gives one line for each row, in order |
| `Csv.FieldsReadBack` | SkillBuddy.Core/Helper.cs:183-209 | and the line of a clean row gives its fields, null as the empty text, less a final empty one |
| `Csv.RowRoundTrip` | SkillBuddy.Core/Helper.cs:183-209 | a row of trimmed, qualifier-free fields is read back, less a final empty field |
| `Csv.RowRoundTripIff` | SkillBuddy.Core/Helper.cs:183-209 | and exactly such rows are |
| `PresetChecks.VisiblePresetsAreUsable` | skillbuddy/cmake-4.0.3/Source/cmCMakePresetsGraph.cxx:811-843 | after a success every preset that is not hidden is usable in that sense |
| `IncludeGraph.IncludedIsRead` | skillbuddy/cmake-4.0.3/Source/cmCMakePresetsGraphReadJSON.cxx:726-782 | every include of a file that was read was read too and is in its reachable set |
| `IncludeGraph.ProjectFileIsRead` | skillbuddy/cmake-4.0.3/Source/cmCMakePresetsGraphReadJSON.cxx:774-782 | reading the user's file reads the project's file, if there is one, and reaches it from the user's |
| `MacroScanner.FourOpenings` | skillbuddy/cmake-4.0.3/Source/cmCMakePresetsGraph.cxx:504-527 | a macro is opened by a dollar sign, one of the four namespaces and a brace, and by nothing else |
| `BuiltInMacros.SourceMacros` | skillbuddy/cmake-4.0.3/Source/cmCMakePresetsGraph.cxx:629-646 | written in a field, each of the four macros of the source directory stands for its own text |
| `BuiltInMacros.PresetMacros` | skillbuddy/cmake-4.0.3/Source/cmCMakePresetsGraphInternal.h:103-114 | the preset's name, and its generator unless it is hidden: then the empty text |
| `BuiltInMacros.VersionedMacros` | skillbuddy/cmake-4.0.3/Source/cmCMakePresetsGraph.cxx:647-670 | the host system, the file's directory and the list separator are errors before versions 3, 4 and 5, and otherwise stand for their texts |
| `BuiltInMacros.PlainNames` | skillbuddy/cmake-4.0.3/Source/cmCMakePresetsGraph.cxx:626-672 | exactly these names expand without a namespace, and every other name is an error |
| `BuiltInMacros.EnvironmentMacros` | skillbuddy/cmake-4.0.3/Source/cmCMakePresetsGraph.cxx:230-258 | $penv reads the process environment even for a variable the preset sets; $env reads the preset's value if it has one, and the process environment otherwise; a missing name is an error |
| `BuiltInMacros.VendorsMacro` | skillbuddy/cmake-4.0.3/Source/cmCMakePresetsGraph.cxx:564-581 | a vendor's macro is ignored and never an error |
| `BuiltInMacros.VariableIsWritten` | skillbuddy/cmake-4.0.3/Source/cmCMakePresetsGraph.cxx:465-483 | a variable whose text is such a macro expands to what the macro stands for in any field |
| `Conditions.EqualsHolds` | skillbuddy/cmake-4.0.3/Source/cmCMakePresetsGraph.cxx:674-686 | equals is true of two texts iff what they expand to is the same, and false iff not |
| `Conditions.InListFails` | skillbuddy/cmake-4.0.3/Source/cmCMakePresetsGraph.cxx:688-705 | it fails at the first item that does not expand, unless the string was found before |
| `Conditions.MatchesHolds` | skillbuddy/cmake-4.0.3/Source/cmCMakePresetsGraph.cxx:707-723 | matches asks the library about the expanded pattern and the expanded text, in these places; a bad pattern is an error |
| `Conditions.TextsFail` | skillbuddy/cmake-4.0.3/Source/cmCMakePresetsGraph.cxx:674-723 | which text decides when one of them is an error or ignored |
| `Conditions.ConstantsHold` | skillbuddy/cmake-4.0.3/Source/cmCMakePresetsGraphInternal.h:128-151 | a null condition is true, a constant is what it says |
| `Conditions.NotHolds` | skillbuddy/cmake-4.0.3/Source/cmCMakePresetsGraph.cxx:751-764 | not turns an answer round; errors and ignored macros stay |
| `QueryTable.OperatorReadBack` | SkillBuddy.data/General/DataHelper.cs:183-199 | the operators' texts, read as SQL reads them, are the operators again, up to Is for Equals and IsNot for NotEquals |
| `QueryTable.PrintedComparison` | SkillBuddy.data/General/DataHelper.cs:183-199 | the text in the condition cell holds of two numbers iff the rule's comparison does |
| `QueryTable.CellsReadBack` | SkillBuddy.data/General/DataHelper.cs:174-217 | the cells of a rule give back its field, operator and, unless it is IS NULL or IS NOT NULL, both values |
| `QueryTable.RowsSayTheirGroup` | SkillBuddy.data/General/DataHelper.cs:79-228 | every row is in group 1 without a parent or names the group before its own as parent, and only rules and orders fill the cells to compare with |
| `QueryTable.NegationIsWritten` | SkillBuddy.data/General/DataHelper.cs:94-102 | a negated builder has a NOT row right after its condition |
| `QueryTable.KeptIfField` | SkillBuddy.Entity/QueryBuilder.cs:69-79 | each rule with a field is kept as often as it occurs, and no other is |
| `QueryTable.ParentFirst` | SkillBuddy.Entity/QueryBuilder.cs:69-84 | a rule comes right before what is below it |
| `QueryTable.MadeOperator` | SkillBuddy.Entity/QueryBuilder.cs:73-78 | a rule without an operator becomes one with =, any other keeps its operator, and the values stay in their places |
| `ActionMaps.TextLessIff` | skillbuddy/cmake-4.0.3/Source/cmArgumentParser.cxx:17-21 | it is the order of a dictionary: the first difference decides, and a prefix comes first |
| `ArgumentKinds.GivenByKind` | skillbuddy/cmake-4.0.3/Source/cmArgumentParser.cxx:63-133 | by the kind of the variable: a flag takes nothing of its segment, a text the first argument if there is one, a list all of it; the rest is left |
| `ArgumentKinds.GivenToCallback` | skillbuddy/cmake-4.0.3/Source/cmArgumentParser.cxx:150-160 | a callback is given arguments for as long as it answers Yes, and the one at which it answers No |
| `ArgumentKinds.StoredByKind` | skillbuddy/cmake-4.0.3/Source/cmArgumentParser.cxx:63-133 | what an occurrence does to its variable, by kind: sets the flag, replaces the text, appends to the list, or appends one list |
| `ArgumentKinds.MissingByKind` | skillbuddy/cmake-4.0.3/Source/cmArgumentParser.cxx:175-189 | a keyword that is not empty is reported iff it needs a value and its segment is empty (for a callback: shorter than it expects), and no other is |
| `ArgumentKinds.BlamedByKind` | skillbuddy/cmake-4.0.3/Source/cmArgumentParser.cxx:79-189 | an occurrence is blamed for an empty text where none is allowed, or for a missing value, and never for both |
| `ArgumentKinds.FlagIsSetIff` | skillbuddy/cmake-4.0.3/Source/cmArgumentParser.cxx:63-67 | after a run a flag is set iff it was before or its keyword was met |
| `ArgumentKinds.KeywordsReported` | skillbuddy/cmake-4.0.3/Source/cmArgumentParser.cxx:139-146 | the keywords are reported in the order in which they are met |
| `ArgumentKinds.BoundByPosition` | skillbuddy/cmake-4.0.3/Source/cmArgumentParser.cxx:162-168 | a positional action is called at exactly the bound positions before any keyword, with the argument that stands there |
| `ArgumentKinds.ErrorsIfWanted` | skillbuddy/cmake-4.0.3/Source/cmArgumentParser.cxx:175-189 | errors are recorded for a caller who wants them, and none otherwise |
| `ArgumentKinds.UnparsedIfWanted` | skillbuddy/cmake-4.0.3/Source/cmArgumentParser.cxx:170-172 | the same for unparsed arguments |
| `ElfScan.ChosenIsGained` | skillbuddy/cmake-4.0.3/Source/cmBinUtilsLinuxELFLinker.cxx:163-168 | the path chosen for a name is in the archive unless it is excluded |
| `Base32.TextShape` | skillbuddy/cmake-4.0.3/Source/cmBase32.cxx:39-93 | capital letters and digits from 2 to 7; with padding at most six equals signs that fill the last block of eight (section 6 of RFC 4648) |
| `Csv.TokensByPosition` | SkillBuddy.Core/Helper.cs:196-206 | one token for each piece of the line but an empty last one; each is its piece without qualifiers and without the white space at its ends, and nothing but white space is cut off |
| `Csv.WithoutByCharacter` | SkillBuddy.Core/Helper.cs:196-206 | of the rest nothing but the qualifiers is taken out, and all of them are |
| `Csv.PrintedRow` | SkillBuddy.Core/Helper.cs:268-273 | a field is printed as it is unless it holds a separator, and then between double quotes |
| `Presets.ResolvesStep` | skillbuddy/cmake-4.0.3/Source/cmCMakePresetsGraph.cxx:120-153 | one more parent: the first-set-value meaning is extended by exactly that parent, in `inherits` order |
| `PresetGraph.Graph.VisitParentPresets` | skillbuddy/cmake-4.0.3/Source/cmCMakePresetsGraph.cxx:120-153 | the loop over the parents computes `VisitParents` |
| `PresetGraph.Graph.VisitAndInherit` | skillbuddy/cmake-4.0.3/Source/cmCMakePresetsGraph.cxx:121-152 | fails exactly for a missing parent, an unreachable file or a failed parent; else inherits from the visited parent |
| `IncludeGraph.PresetsReader.ReadNewFile` | skillbuddy/cmake-4.0.3/Source/cmCMakePresetsGraphReadJSON.cxx:564-785 | a file not seen before: pushed, registered, its includes read, popped |
| `IncludeGraph.PresetsReader.RegisterPresets` | skillbuddy/cmake-4.0.3/Source/cmCMakePresetsGraphReadJSON.cxx:572-724 | registers every preset of the file, each with a name, a new key and nothing that the version of the file does not allow; where it fails, the root is not readable |
| `IncludeGraph.PresetsReader.ReadIncludes` | skillbuddy/cmake-4.0.3/Source/cmCMakePresetsGraphReadJSON.cxx:751-782 | all includes, and for the user's root the project's file, are finished and learned |
| `IncludeGraph.PresetsReader.IncludeFile` | skillbuddy/cmake-4.0.3/Source/cmCMakePresetsGraphReadJSON.cxx:726-741 | the including file gains everything the included file reaches |
| `Environment.EnvironmentExpander.EnvironmentMacro` | skillbuddy/cmake-4.0.3/Source/cmCMakePresetsGraph.cxx:230-258 | a variable of the preset is visited and then read; the answer is what the variable expands to, whatever has been verified before |
| `Environment.EnvironmentExpander.ExpandMacro` | skillbuddy/cmake-4.0.3/Source/cmCMakePresetsGraph.cxx:564-581 | the expanders in turn: text, error or ignored exactly as without shared state |
| `Conditions.EvaluateInList` | skillbuddy/cmake-4.0.3/Source/cmCMakePresetsGraph.cxx:688-705 | the early-stopping loop computes the left-to-right reading of the list |
| `Conditions.EvaluateAnyAll` | skillbuddy/cmake-4.0.3/Source/cmCMakePresetsGraph.cxx:725-749 | the early-stopping loop computes `Decide` over the parts |
| `RangeAlgorithms.Rotate` | skillbuddy/cmake-4.0.3/Source/cmAlgorithms.h:19-27 | rotation, and the place of the element that was first |
| `RangeAlgorithms.RemoveN` | skillbuddy/cmake-4.0.3/Source/cmAlgorithms.h:31-37 | the first n elements of the range go to its end |
| `RangeAlgorithms.Turn` | skillbuddy/cmake-4.0.3/Source/cmAlgorithms.h:89-93 | one turn keeps the three-part partition of the array |
| `RangeAlgorithms.KeptLength` | skillbuddy/cmake-4.0.3/Source/cmAlgorithms.h:73-95 | as many elements go as there are removals |
| `QueryTable.AddSettings` | SkillBuddy.data/General/DataHelper.cs:79-136 | condition, not, count and orders, in that order |
| `QueryTable.AddPaging` | SkillBuddy.data/General/DataHelper.cs:138-228 | offset, row count, total count and the rules, in that order |
| `QueryTable.AddOrders` | SkillBuddy.data/General/DataHelper.cs:118-136 | one row per order that is not null, with its index |
| `QueryTable.AddRules` | SkillBuddy.data/General/DataHelper.cs:172-228 | the loop over the rules appends the rows of the whole tree below |
| `QueryTable.AddRule` | SkillBuddy.data/General/DataHelper.cs:174-227 | (with the update of an IS NULL rule) a null rule gives nothing, a plain rule one row, a group a condition row and the rows of its rules one level deeper |
| `QueryTable.NodeRoundTrip` | SkillBuddy.data/General/DataHelper.cs:174-227 | the same for one rule |
| `QueryTable.GetRuleWithNested` | SkillBuddy.Entity/QueryBuilder.cs:69-84 | a rule, if it has a field, and then what is below it |
| `ActionMaps.ActionMap.LowerBound` | skillbuddy/cmake-4.0.3/Source/cmArgumentParser.cxx:17-21 | the first entry that is not before the key |
| `ActionMaps.LowerBoundDecides` | skillbuddy/cmake-4.0.3/Source/cmArgumentParser.cxx:17-24 | a key is bound iff its entry stands at the lower bound |
| `ArgumentParser.Instance.Consume` | skillbuddy/cmake-4.0.3/Source/cmArgumentParser.cxx:135-173 | one argument takes the state to that of one argument more |
| `ArgumentParser.Instance.Dispatch` | skillbuddy/cmake-4.0.3/Source/cmArgumentParser.cxx:135-173 | keyword, value, positional or unparsed, in this order of precedence |
| `ArgumentParser.Instance.FinishKeyword` | skillbuddy/cmake-4.0.3/Source/cmArgumentParser.cxx:175-189 | too few values: an error and a call, unless the keyword is the empty string |
| `ArgumentParser.Instance.Bind` | skillbuddy/cmake-4.0.3/Source/cmArgumentParser.cxx:56-133 | what binding each kind of variable does at once |
| `ArgumentParser.Instance.GiveValue` | skillbuddy/cmake-4.0.3/Source/cmArgumentParser.cxx:150-160 | one value: stored, counted, and No ends the keyword |
| `ArgumentParser.Instance.TakeOther` | skillbuddy/cmake-4.0.3/Source/cmArgumentParser.cxx:162-172 | a positional action if there is one and no keyword has been seen, else unparsed |
| `ArgumentParser.AbsorbedMore` | skillbuddy/cmake-4.0.3/Source/cmArgumentParser.cxx:69-133 | storing values one by one gives what the whole occurrence should leave in the variable |
| `ElfScan.Linker.ScanNext` | skillbuddy/cmake-4.0.3/Source/cmBinUtilsLinuxELFLinker.cxx:119-183 | one file: settles all it needs by its own search, and the measure goes down |
| `ElfScan.Linker.ScanNeeded` | skillbuddy/cmake-4.0.3/Source/cmBinUtilsLinuxELFLinker.cxx:151-182 | one needed name: skipped, rejected, resolved, or recorded unresolved when its own search finds nothing |
| `ElfScan.Archive.AddResolvedPath` | skillbuddy/cmake-4.0.3/Source/cmRuntimeDependencyArchive.cxx:358-372 | records the path and its rpaths; unique iff no path under the name is the same file |
| `ElfScan.ChosenStep` | skillbuddy/cmake-4.0.3/Source/cmBinUtilsLinuxELFLinker.cxx:163-181 | resolving a name keeps the scan's invariant: the new entry is justified, the archive exact |
| `Csv.CellsAreTheCut` | SkillBuddy.Core/Helper.cs:268-273 | the printed cells are the pieces the parser finds |

## Left out

- Of the five kinds of presets only configure presets have their own checks and fields here; the others use the same
  helpers.
- JSON parsing and error texts: reading starts from parsed files, each preset with the least file version that allows
  everything it sets. File names are identities, so path normalisation and `SameFile` do not appear in `IncludeGraph`;
  a `File*` is its name.
- After an error the state of a visit or a reading is not described; the callers discard it.
- The declarations of presets (inherits, hidden, origin) are kept apart from the fields that inheritance writes.
- The file system, the process environment and the regular expression library are functions given from outside.
- `Environment.EnvironmentExpander.ExpandField`: expands one field; the list of fields that the graph expands is not
  repeated.
- `QueryTable.QueryBuilderToDataTable`: rules are values, so the rules that the source updates in place are returned;
  after an exception they are not described. Null lists are empty lists, numbers stay numbers instead of decimal text,
  and the padding of an order's index is left out.
- `QueryTable.FromJson`: `ValueOf` is a function given from outside, and what the JSON library does is not modelled.
- `RangeAlgorithms.RemoveDuplicates`: elements after the result have been moved from and are not described.
- `RangeAlgorithms.Rotate`: `std::rotate` is a primitive, not its algorithm.
- `ArgumentParser.Instance.Parse`: the actions of keywords are the bindings of the library; an action that binds nothing
  is not modelled. A callback's state is a function of the position at which it is asked. The text of errors is left out.
- `ElfScan.Linker.ScanDependencies`: what `objdump` says of a file, the replacement of `$ORIGIN`, the search for `ldconfig`
  paths and the architecture check of the main file are given from outside; warnings are left out, and the
  rpaths that the archive keeps are described for one path at a time.
- `Csv.DataTableToCsv`: what a value looks like as text is given; reading and writing files is left out.
- The other CMake commands, the CTest driver, the data access, queue, mail and web layers and the scripts of the user
  interface: plumbing around libraries that cannot be seen.
