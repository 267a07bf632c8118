/** Configure presets, their slots, and what inheriting from one parent does (cmCMakePresetsGraph.cxx). */
module Presets {
  import opened Options
  import opened Digraph
  import opened ConditionTree

  type Name = string

  datatype CacheVariable = CacheVariable(kind: string, value: string)

  /** The part of a preset that inheritance never writes. */
  datatype Declaration = Declaration(inherits: seq<Name>, hidden: bool, originFile: string)

  /** Whether an architecture or a toolset is set by CMake or left to the environment. */
  datatype ArchToolsetStrategy = Set | External

  /** The fields that are inherited. The condition is inherited too, but by a rule of its own. */
  datatype Fields = Fields(
    environment: map<string, Option<string>>,
    generator: string, architecture: string, toolset: string, binaryDir: string, installDir: string,
    toolchainFile: string, graphVizFile: string,
    architectureStrategy: Option<ArchToolsetStrategy>, toolsetStrategy: Option<ArchToolsetStrategy>,
    warnDev: Option<bool>, errorDev: Option<bool>, warnDeprecated: Option<bool>, errorDeprecated: Option<bool>,
    warnUninitialized: Option<bool>, warnUnusedCli: Option<bool>, warnSystemVars: Option<bool>,
    cacheVariables: map<string, Option<CacheVariable>>)

  /** A file that presets were read from: its version and the files reachable from it. */
  datatype File = File(version: int, reachableFiles: set<string>)

  type FieldTable = map<Name, Fields>
  type ConditionTable = map<Name, Option<Condition>>

  /** The presets as they were read. */
  datatype PresetsRead = PresetsRead(decls: map<Name, Declaration>, own: FieldTable, ownConditions: ConditionTable,
                                     files: map<string, File>)
  {
    predicate Valid() {
      && own.Keys == decls.Keys && ownConditions.Keys == decls.Keys
      && forall n {:trigger decls[n].originFile} | n in decls :: decls[n].originFile in files
    }
  }

  type World = w: PresetsRead | w.Valid() witness PresetsRead(map[], map[], map[], map[])

  /** The inheritable places of a preset: a field, or one key of a map. */
  datatype Slot =
    | Generator | Architecture | Toolset | BinaryDir | InstallDir | ToolchainFile | GraphVizFile
    | ArchitectureStrategy | ToolsetStrategy
    | WarnDev | ErrorDev | WarnDeprecated | ErrorDeprecated | WarnUninitialized | WarnUnusedCli | WarnSystemVars
    | Environment(key: string) | CacheEntry(key: string)

  datatype SlotValue =
    | Text(text: string) | Flag(flag: bool) | Strategy(strategy: ArchToolsetStrategy)
    | Variable(variable: Option<string>) | Entry(entry: Option<CacheVariable>)

  function TextSlot(s: string): Option<SlotValue> {
    if s == "" then None else Some(Text(s))
  }

  function FlagSlot(b: Option<bool>): Option<SlotValue> {
    if b.None? then None else Some(Flag(b.value))
  }

  function StrategySlot(s: Option<ArchToolsetStrategy>): Option<SlotValue> {
    if s.None? then None else Some(Strategy(s.value))
  }

  /** What a preset has in a slot, if the slot is set. A key that is present with a null value counts as set. */
  function Get(p: Fields, slot: Slot): Option<SlotValue> {
    match slot
    case Generator => TextSlot(p.generator)
    case Architecture => TextSlot(p.architecture)
    case Toolset => TextSlot(p.toolset)
    case BinaryDir => TextSlot(p.binaryDir)
    case InstallDir => TextSlot(p.installDir)
    case ToolchainFile => TextSlot(p.toolchainFile)
    case GraphVizFile => TextSlot(p.graphVizFile)
    case ArchitectureStrategy => StrategySlot(p.architectureStrategy)
    case ToolsetStrategy => StrategySlot(p.toolsetStrategy)
    case WarnDev => FlagSlot(p.warnDev)
    case ErrorDev => FlagSlot(p.errorDev)
    case WarnDeprecated => FlagSlot(p.warnDeprecated)
    case ErrorDeprecated => FlagSlot(p.errorDeprecated)
    case WarnUninitialized => FlagSlot(p.warnUninitialized)
    case WarnUnusedCli => FlagSlot(p.warnUnusedCli)
    case WarnSystemVars => FlagSlot(p.warnSystemVars)
    case Environment(key) => if key in p.environment then Some(Variable(p.environment[key])) else None
    case CacheEntry(key) => if key in p.cacheVariables then Some(Entry(p.cacheVariables[key])) else None
  }

  /** The slots determine the fields. */
  lemma SlotsDetermine(p: Fields, q: Fields)
    requires forall slot :: Get(p, slot) == Get(q, slot)
    ensures p == q
  {
    TextsDetermine(p, q);
    StrategiesDetermine(p, q);
    FlagsDetermine(p, q);
    MapsDetermine(p, q);
  }

  lemma TextsDetermine(p: Fields, q: Fields)
    requires forall slot :: Get(p, slot) == Get(q, slot)
    ensures p.generator == q.generator
    ensures p.architecture == q.architecture
    ensures p.toolset == q.toolset
    ensures p.binaryDir == q.binaryDir
    ensures p.installDir == q.installDir
    ensures p.toolchainFile == q.toolchainFile
    ensures p.graphVizFile == q.graphVizFile
  {
    assert Get(p, Generator) == Get(q, Generator);
    assert Get(p, Architecture) == Get(q, Architecture);
    assert Get(p, Toolset) == Get(q, Toolset);
    assert Get(p, BinaryDir) == Get(q, BinaryDir);
    assert Get(p, InstallDir) == Get(q, InstallDir);
    assert Get(p, ToolchainFile) == Get(q, ToolchainFile);
    assert Get(p, GraphVizFile) == Get(q, GraphVizFile);
  }

  lemma StrategiesDetermine(p: Fields, q: Fields)
    requires forall slot :: Get(p, slot) == Get(q, slot)
    ensures p.architectureStrategy == q.architectureStrategy
    ensures p.toolsetStrategy == q.toolsetStrategy
  {
    assert Get(p, ArchitectureStrategy) == Get(q, ArchitectureStrategy);
    assert Get(p, ToolsetStrategy) == Get(q, ToolsetStrategy);
  }

  lemma FlagsDetermine(p: Fields, q: Fields)
    requires forall slot :: Get(p, slot) == Get(q, slot)
    ensures p.warnDev == q.warnDev
    ensures p.errorDev == q.errorDev
    ensures p.warnDeprecated == q.warnDeprecated
    ensures p.errorDeprecated == q.errorDeprecated
    ensures p.warnUninitialized == q.warnUninitialized
    ensures p.warnUnusedCli == q.warnUnusedCli
    ensures p.warnSystemVars == q.warnSystemVars
  {
    assert Get(p, WarnDev) == Get(q, WarnDev);
    assert Get(p, ErrorDev) == Get(q, ErrorDev);
    assert Get(p, WarnDeprecated) == Get(q, WarnDeprecated);
    assert Get(p, ErrorDeprecated) == Get(q, ErrorDeprecated);
    assert Get(p, WarnUninitialized) == Get(q, WarnUninitialized);
    assert Get(p, WarnUnusedCli) == Get(q, WarnUnusedCli);
    assert Get(p, WarnSystemVars) == Get(q, WarnSystemVars);
  }

  lemma MapsDetermine(p: Fields, q: Fields)
    requires forall slot :: Get(p, slot) == Get(q, slot)
    ensures p.environment == q.environment && p.cacheVariables == q.cacheVariables
  {
    forall k ensures (k in p.environment <==> k in q.environment)
                     && (k in p.environment ==> p.environment[k] == q.environment[k]) {
      assert Get(p, Environment(k)) == Get(q, Environment(k));
    }
    forall k ensures (k in p.cacheVariables <==> k in q.cacheVariables)
                     && (k in p.cacheVariables ==> p.cacheVariables[k] == q.cacheVariables[k]) {
      assert Get(p, CacheEntry(k)) == Get(q, CacheEntry(k));
    }
  }

  function InheritString(child: string, parent: string): string {
    if child == "" then parent else child
  }

  /** The assignments of VisitPresetInherit, and the insertion of the parent's environment. */
  function Merged(child: Fields, parent: Fields): Fields
  {
    Fields(
      parent.environment + child.environment,
      InheritString(child.generator, parent.generator),
      InheritString(child.architecture, parent.architecture),
      InheritString(child.toolset, parent.toolset),
      InheritString(child.binaryDir, parent.binaryDir),
      InheritString(child.installDir, parent.installDir),
      InheritString(child.toolchainFile, parent.toolchainFile),
      InheritString(child.graphVizFile, parent.graphVizFile),
      child.architectureStrategy.OrElse(parent.architectureStrategy),
      child.toolsetStrategy.OrElse(parent.toolsetStrategy),
      child.warnDev.OrElse(parent.warnDev),
      child.errorDev.OrElse(parent.errorDev),
      child.warnDeprecated.OrElse(parent.warnDeprecated),
      child.errorDeprecated.OrElse(parent.errorDeprecated),
      child.warnUninitialized.OrElse(parent.warnUninitialized),
      child.warnUnusedCli.OrElse(parent.warnUnusedCli),
      child.warnSystemVars.OrElse(parent.warnSystemVars),
      parent.cacheVariables + child.cacheVariables)
  }

  lemma MergedSlot(child: Fields, parent: Fields, slot: Slot)
    ensures Get(Merged(child, parent), slot) == Get(child, slot).OrElse(Get(parent, slot))
  {
    if slot.Environment? || slot.CacheEntry? {
      MergedEntry(child, parent, slot);
    } else {
      MergedField(child, parent, slot);
    }
  }

  lemma MergedEntry(child: Fields, parent: Fields, slot: Slot)
    requires slot.Environment? || slot.CacheEntry?
    ensures Get(Merged(child, parent), slot) == Get(child, slot).OrElse(Get(parent, slot))
  {
  }

  lemma MergedField(child: Fields, parent: Fields, slot: Slot)
    requires !slot.Environment? && !slot.CacheEntry?
    ensures Get(Merged(child, parent), slot) == Get(child, slot).OrElse(Get(parent, slot))
  {
  }

  /** What a child has after inheriting from a parent: in every slot its own value or else the parent's. */
  function InheritFields(child: Fields, parent: Fields): (fields: Fields)
    ensures forall slot :: Get(fields, slot) == Get(child, slot).OrElse(Get(parent, slot))
  {
    assert forall slot :: Get(Merged(child, parent), slot) == Get(child, slot).OrElse(Get(parent, slot)) by {
      forall slot ensures Get(Merged(child, parent), slot) == Get(child, slot).OrElse(Get(parent, slot)) {
        MergedSlot(child, parent, slot);
      }
    }
    Merged(child, parent)
  }

  /** An explicit null condition has stopped inheritance; after the visit it is dropped. */
  function DropNull(c: Option<Condition>): Option<Condition> {
    if c == Some(NullCondition) then None else c
  }

  /** ConfigurePreset::VisitPresetAfterInherit. */
  predicate CheckAfterInherit(hidden: bool, p: Fields, version: int) {
    hidden
    || ( && (version < 3 ==> p.generator != "" && p.binaryDir != "")
         && !(p.warnDev == Some(false) && p.errorDev == Some(true))
         && !(p.warnDeprecated == Some(false) && p.errorDeprecated == Some(true))
         && "" !in p.cacheVariables)
  }

  predicate Checked(w: World, n: Name, p: Fields)
    requires n in w.decls
  {
    CheckAfterInherit(w.decls[n].hidden, p, w.files[w.decls[n].originFile].version)
  }

  /** The inheritance edges among the presets. */
  function Parents(w: World): Graph<Name> {
    map n | n in w.decls :: set p | p in w.decls[n].inherits && p in w.decls
  }

  /** A parent that exists and whose file is reachable from the child's file. */
  predicate ParentAllowed(w: World, n: Name, parent: Name)
    requires n in w.decls
  {
    parent in w.decls && w.decls[parent].originFile in w.files[w.decls[n].originFile].reachableFiles
  }

  /** The parents' values of a slot, in order. */
  function ParentOffers(parents: seq<Name>, r: FieldTable, slot: Slot): (offers: seq<Option<SlotValue>>)
    requires forall i | 0 <= i < |parents| :: parents[i] in r
    ensures |offers| == |parents| && forall i | 0 <= i < |parents| :: offers[i] == Get(r[parents[i]], slot)
  {
    seq(|parents|, i requires 0 <= i < |parents| => Get(r[parents[i]], slot))
  }

  /** Fields p are what own becomes by inheriting from the parents: in every slot its own value, or the first value
      among the parents in the order they are listed. */
  ghost predicate Resolves(own: Fields, parents: seq<Name>, r: FieldTable, p: Fields) {
    && (forall i | 0 <= i < |parents| :: parents[i] in r)
    && forall slot :: Get(p, slot) == FirstSet([Get(own, slot)] + ParentOffers(parents, r, slot))
  }

  /** The meaning of a preset is determined by the fields of its parents. */
  lemma ResolvesUnique(own: Fields, parents: seq<Name>, r: FieldTable, r': FieldTable, p: Fields, p': Fields)
    requires Resolves(own, parents, r, p) && Resolves(own, parents, r', p')
    requires forall i | 0 <= i < |parents| :: r[parents[i]] == r'[parents[i]]
    ensures p == p'
  {
    forall slot ensures Get(p, slot) == Get(p', slot) {
      assert ParentOffers(parents, r, slot) == ParentOffers(parents, r', slot);
    }
    SlotsDetermine(p, p');
  }

  lemma ResolvesFrame(own: Fields, parents: seq<Name>, r: FieldTable, r': FieldTable, p: Fields)
    requires Resolves(own, parents, r, p)
    requires forall i | 0 <= i < |parents| :: parents[i] in r' && r[parents[i]] == r'[parents[i]]
    ensures Resolves(own, parents, r', p)
  {
    forall slot ensures Get(p, slot) == FirstSet([Get(own, slot)] + ParentOffers(parents, r', slot)) {
      assert ParentOffers(parents, r, slot) == ParentOffers(parents, r', slot);
    }
  }

  lemma ResolvesAlone(own: Fields, r: FieldTable)
    ensures Resolves(own, [], r, own)
  {
    forall slot ensures Get(own, slot) == FirstSet([Get(own, slot)] + ParentOffers([], r, slot)) {
      assert [Get(own, slot)] + ParentOffers([], r, slot) == [Get(own, slot)];
      assert [Get(own, slot)][1..] == [];
    }
  }

  /** Inheriting from one more parent. */
  lemma ResolvesStep(own: Fields, parents: seq<Name>, r: FieldTable, p: Fields, parent: Name)
    requires Resolves(own, parents, r, p) && parent in r
    ensures Resolves(own, parents + [parent], r, InheritFields(p, r[parent]))
  {
    var q := InheritFields(p, r[parent]);
    forall slot ensures Get(q, slot) == FirstSet([Get(own, slot)] + ParentOffers(parents + [parent], r, slot)) {
      var before := [Get(own, slot)] + ParentOffers(parents, r, slot);
      assert [Get(own, slot)] + ParentOffers(parents + [parent], r, slot) == before + [Get(r[parent], slot)];
      FirstSetSnoc(before, Get(r[parent], slot));
    }
  }

  /** A resolved preset already has everything its resolved parents offer. */
  lemma InheritAgain(own: Fields, parents: seq<Name>, r: FieldTable, p: Fields, i: nat)
    requires Resolves(own, parents, r, p) && i < |parents|
    ensures InheritFields(p, r[parents[i]]) == p
  {
    forall slot ensures Get(InheritFields(p, r[parents[i]]), slot) == Get(p, slot) {
      var offers := [Get(own, slot)] + ParentOffers(parents, r, slot);
      FirstSetByPosition(offers);
      assert offers[i + 1] == Get(r[parents[i]], slot);
    }
    SlotsDetermine(InheritFields(p, r[parents[i]]), p);
  }

  /** Resolving a preset that is resolved already changes nothing. */
  lemma ResolvesAgain(own: Fields, parents: seq<Name>, r: FieldTable, p: Fields)
    requires Resolves(own, parents, r, p)
    ensures Resolves(p, parents, r, p)
  {
    forall slot ensures Get(p, slot) == FirstSet([Get(p, slot)] + ParentOffers(parents, r, slot)) {
      var once, twice :=
        [Get(own, slot)] + ParentOffers(parents, r, slot), [Get(p, slot)] + ParentOffers(parents, r, slot);
      assert once[1..] == twice[1..];
      assert FirstSet(once) == once[0].OrElse(FirstSet(once[1..]));
      assert FirstSet(twice) == twice[0].OrElse(FirstSet(twice[1..]));
    }
  }

  /** A key that neither a preset nor its parents have is not inherited. */
  lemma NothingToInherit(own: Fields, parents: seq<Name>, r: FieldTable, p: Fields, key: string)
    requires Resolves(own, parents, r, p) && key !in own.environment
    requires forall i | 0 <= i < |parents| :: key !in r[parents[i]].environment
    ensures key !in p.environment
  {
    var slot := Environment(key);
    var offers := [Get(own, slot)] + ParentOffers(parents, r, slot);
    forall i | 0 <= i < |offers| ensures offers[i] == None {
      if i > 0 {
        assert offers[i] == Get(r[parents[i - 1]], slot);
      }
    }
    FirstSetByPosition(offers);
    assert Get(p, slot) == None;
  }

  /** What the source asks of one preset, given its resolved fields. */
  ghost predicate Acceptable(w: World, n: Name, p: Fields)
    requires n in w.decls
  {
    && "" !in w.own[n].environment
    && (forall i | 0 <= i < |w.decls[n].inherits| :: ParentAllowed(w, n, w.decls[n].inherits[i]))
    && Checked(w, n, p)
  }

  /** A table that gives every preset its graph meaning and passes every check. */
  ghost predicate IsResolution(w: World, r: FieldTable) {
    && r.Keys == w.decls.Keys
    && (forall n {:trigger Acceptable(w, n, r[n])} | n in w.decls :: Acceptable(w, n, r[n]))
    && forall n {:trigger Resolves(w.own[n], w.decls[n].inherits, r, r[n])} | n in w.decls ::
         Resolves(w.own[n], w.decls[n].inherits, r, r[n])
  }

  /** Inheritance is well defined: no cycle, and a resolution exists. */
  ghost predicate Inheritable(w: World) {
    Acyclic(Parents(w)) && exists r :: IsResolution(w, r)
  }
}
