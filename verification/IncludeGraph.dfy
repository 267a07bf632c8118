/** ReadJSONFile and ReadProjectPresetsInternal: the depth-first walk over include files, which reads each file
    once, registers its presets and accumulates the files reachable from it (cmCMakePresetsGraphReadJSON.cxx). */
module IncludeGraph {
  import opened Options
  import opened Digraph
  import opened Sequences

  datatype Kind = ConfigurePreset | BuildPreset | TestPreset | PackagePreset | WorkflowPreset

  datatype PresetKey = PresetKey(kind: Kind, name: string)

  /** A file that can be read and parsed: its presets in the order they are registered; for each of them the first file
      version that allows everything the preset sets; and its includes as full paths. An include is None when its macros
      do not expand. */
  datatype FileContent = FileContent(version: int, presets: seq<PresetKey>, since: seq<int>,
                                     includes: seq<Option<string>>)

  /** The files on disk: those that exist, those among them that parse, and the two well-known ones. */
  datatype DiskContents = DiskContents(existing: set<string>, contents: map<string, FileContent>,
                                       userFile: string, projectFile: string)
  {
    predicate Valid() {
      && contents.Keys <= existing && userFile != projectFile
      && forall f {:trigger contents[f]} | f in contents :: |contents[f].since| == |contents[f].presets|
    }
  }

  type Disk = d: DiskContents | d.Valid() witness DiskContents({}, map[], "u", "p")

  /** The include edges. The user's file includes the project's file without being told. */
  function Edges(d: Disk, f: string): set<string>
    requires f in d.contents
  {
    (set i | 0 <= i < |d.contents[f].includes| && d.contents[f].includes[i].Some? :: d.contents[f].includes[i].value)
    + if f == d.userFile && d.projectFile in d.existing then {d.projectFile} else {}
  }

  function Includes(d: Disk): Graph<string> {
    map f | f in d.contents :: Edges(d, f)
  }

  /** The macros of all includes expand. */
  predicate IncludesExpand(d: Disk, f: string) {
    f in d.contents && forall i | 0 <= i < |d.contents[f].includes| :: d.contents[f].includes[i].Some?
  }

  /** What the source asks of one file by itself. */
  predicate FileOk(d: Disk, f: string) {
    && IncludesExpand(d, f)
    && Edges(d, f) <= d.contents.Keys
    && forall i | 0 <= i < |d.contents[f].presets| :: PresetOk(d, f, i)
  }

  /** The preset has a name, and the file's version allows what it sets. */
  predicate PresetOk(d: Disk, f: string, i: nat)
    requires f in d.contents && i < |d.contents[f].presets|
  {
    d.contents[f].presets[i].name != "" && d.contents[f].since[i] <= d.contents[f].version
  }

  ghost predicate SameKey(d: Disk, f: string, i: nat, g: string, j: nat) {
    && f in d.contents && g in d.contents && i < |d.contents[f].presets| && j < |d.contents[g].presets|
    && d.contents[f].presets[i] == d.contents[g].presets[j]
  }

  ghost predicate OnCycle(g: Graph<string>, f: string) {
    exists w :: WalkBetween(g, w, f, f) && |w| > 1
  }

  /** The presets starting at root can be read: every file reached is in order, no file reached lies on a cycle of
      includes, and no two presets of one kind among the files reached have the same name. */
  ghost predicate Readable(d: Disk, root: string) {
    && root in d.contents
    && (forall f | Reaches(Includes(d), root, f) :: FileOk(d, f) && !OnCycle(Includes(d), f))
    && forall f, i: nat, g, j: nat | Reaches(Includes(d), root, f) && Reaches(Includes(d), root, g)
      && SameKey(d, f, i, g, j) ::
         f == g && i == j
  }

  /** s is exactly the set of files reachable from f. */
  ghost predicate IsClosure(g: Graph<string>, f: string, s: set<string>) {
    forall x :: x in s <==> Reaches(g, f, x)
  }

  /** The state of the reading: the files read, those in progress (outermost first), the files reachable so far
      from each, the origin of every preset, and the files finished, in the order they were finished. */
  datatype Reading = Reading(files: seq<string>, stack: seq<string>, reach: map<string, set<string>>,
                             presets: map<PresetKey, string>, done: seq<string>)

  /** The walk's bookkeeping: a file is finished or in progress, and the files in progress include one another. */
  ghost predicate WalkOk(d: Disk, root: string, r: Reading) {
    && Elements(r.files) == Elements(r.stack) + Elements(r.done) && Elements(r.stack) !! Elements(r.done)
    && NoDuplicates(r.files) && NoDuplicates(r.stack)
    && Ordered(Includes(d), r.done)
    && (r.stack != [] ==> IsWalk(Includes(d), r.stack) && r.stack[0] == root)
    && (forall f | f in r.files :: Reaches(Includes(d), root, f))
    && forall f | f in r.done :: IncludesExpand(d, f)
  }

  /** Finished files know exactly what they reach; files in progress know themselves and nothing wrong. */
  ghost predicate ReachOk(d: Disk, r: Reading) {
    && r.reach.Keys == Elements(r.files)
    && (forall f | f in r.done && f in r.reach :: IsClosure(Includes(d), f, r.reach[f]))
    && (forall f | f in r.stack && f in r.reach :: f in r.reach[f])
    && forall f, x | f in r.stack && f in r.reach && x in r.reach[f] :: Reaches(Includes(d), f, x)
  }

  /** The presets registered are those of the given files, each with its file, and no two with one key. */
  ghost predicate Registered(d: Disk, files: seq<string>, presets: map<PresetKey, string>) {
    && (forall f | f in files :: f in d.contents && RegisteredFrom(d, f, |d.contents[f].presets|, presets))
    && forall key | key in presets :: OwnedBy(d, files, key, presets[key])
  }

  ghost predicate OwnedBy(d: Disk, files: seq<string>, key: PresetKey, f: string) {
    f in files && f in d.contents && key in d.contents[f].presets
  }

  /** The first n presets of f. */
  predicate RegisteredFrom(d: Disk, f: string, n: nat, presets: map<PresetKey, string>)
    requires f in d.contents && n <= |d.contents[f].presets|
  {
    && (forall i | 0 <= i < n :: d.contents[f].presets[i] in presets && presets[d.contents[f].presets[i]] == f)
    && (forall i | 0 <= i < n :: PresetOk(d, f, i))
    && NoDuplicates(d.contents[f].presets[..n])
  }

  /** The state between two calls. */
  ghost predicate InOrder(d: Disk, root: string, r: Reading) {
    WalkOk(d, root, r) && ReachOk(d, r) && Registered(d, r.files, r.presets)
  }

  /** What is registered has no part in the walk. */
  lemma PresetsApart(d: Disk, root: string, r: Reading, presets: map<PresetKey, string>)
    requires WalkOk(d, root, r) && ReachOk(d, r)
    ensures WalkOk(d, root, r.(presets := presets)) && ReachOk(d, r.(presets := presets))
  {
  }

  /** From r to s nothing that was known is lost: finished files stay finished, the files in progress are the same,
      and the reachable sets are the same except perhaps that of f. */
  ghost predicate ContinuesExcept(r: Reading, s: Reading, f: string) {
    && r.files <= s.files && r.done <= s.done && r.stack == s.stack
    && forall g | g != f :: SameReach(r, s, g)
  }

  predicate SameReach(r: Reading, s: Reading, g: string) {
    g in r.reach ==> g in s.reach && s.reach[g] == r.reach[g]
  }

  ghost predicate Continues(r: Reading, s: Reading) {
    r.files <= s.files && r.done <= s.done && r.stack == s.stack && forall g :: SameReach(r, s, g)
  }

  /** The file on top of the stack. */
  predicate OnTop(r: Reading, f: string) {
    r.stack != [] && r.stack[|r.stack| - 1] == f
  }

  /** The file may be read now: it is the first, or the innermost file in progress includes it. */
  predicate MayRead(d: Disk, root: string, r: Reading, f: string) {
    if r.stack == [] then f == root
    else r.stack[|r.stack| - 1] in d.contents && f in Edges(d, r.stack[|r.stack| - 1])
  }

  /** f has taken over everything that the finished file x reaches. */
  predicate Learned(r: Reading, f: string, x: string) {
    x in r.done && x in r.reach && f in r.reach && r.reach[x] <= r.reach[f]
  }

  lemma WalkToTop(d: Disk, root: string, r: Reading, f: string)
    requires WalkOk(d, root, r) && r.stack != [] && f in d.contents && MayRead(d, root, r, f)
    ensures IsWalk(Includes(d), r.stack + [f]) && Reaches(Includes(d), root, f)
  {
    var w := r.stack + [f];
    forall i | 0 <= i < |w| - 1 ensures w[i + 1] in Includes(d)[w[i]] {
    }
    assert WalkBetween(Includes(d), w, root, f);
  }

  /** A file found in progress closes a cycle of includes. */
  lemma CycleFound(d: Disk, root: string, r: Reading, f: string)
    requires WalkOk(d, root, r) && f in r.stack && MayRead(d, root, r, f)
    ensures !Readable(d, root)
  {
    StackReached(d, root, r, f);
    var i :| 0 <= i < |r.stack| && r.stack[i] == f;
    var loop := r.stack[i..] + [f];
    assert loop[0] == f && loop[|loop| - 1] == f;
    assert forall j | 0 <= j < |loop| - 1 :: loop[j + 1] in Includes(d)[loop[j]];
    assert WalkBetween(Includes(d), loop, f, f);
  }

  lemma StackReached(d: Disk, root: string, r: Reading, f: string)
    requires WalkOk(d, root, r) && f in r.stack
    ensures Reaches(Includes(d), root, f)
  {
    assert f in Elements(r.stack);
  }

  /** The file that includes a missing file is not in order. */
  lemma MissingFile(d: Disk, root: string, r: Reading, f: string)
    requires WalkOk(d, root, r) && f !in d.contents && MayRead(d, root, r, f)
    ensures !Readable(d, root)
  {
    if r.stack != [] {
      var top := r.stack[|r.stack| - 1];
      assert top in Elements(r.stack) && top in r.files;
      assert Reaches(Includes(d), root, top);
    }
  }

  function Push(r: Reading, f: string): Reading {
    Reading(r.files + [f], r.stack + [f], r.reach[f := {f}], r.presets, r.done)
  }

  lemma PushOk(d: Disk, root: string, r: Reading, f: string)
    requires WalkOk(d, root, r) && ReachOk(d, r) && f in d.contents && f !in r.files
    requires MayRead(d, root, r, f)
    ensures WalkOk(d, root, Push(r, f)) && ReachOk(d, Push(r, f))
  {
    ElementsSnoc(r.files, f);
    ElementsSnoc(r.stack, f);
    assert f !in Elements(r.files);
    PushWalkOk(d, root, r, f);
    PushReachOk(d, r, f);
  }

  lemma PushReachOk(d: Disk, r: Reading, f: string)
    requires ReachOk(d, r) && f in d.contents && f !in Elements(r.files)
    requires Elements(r.files) == Elements(r.stack) + Elements(r.done)
    ensures ReachOk(d, Push(r, f))
  {
    ElementsSnoc(r.files, f);
    ReachesSelf(Includes(d), f);
    assert forall g | g in r.stack :: g in Elements(r.files);
    assert forall g | g in r.done :: g in Elements(r.files);
    assert forall g | g in r.stack + [f] :: g in r.stack || g == f;
  }

  lemma PushWalkOk(d: Disk, root: string, r: Reading, f: string)
    requires WalkOk(d, root, r) && f in d.contents && f !in r.files && MayRead(d, root, r, f)
    ensures WalkOk(d, root, Push(r, f))
  {
    ElementsSnoc(r.files, f);
    ElementsSnoc(r.stack, f);
    assert f !in Elements(r.files);
    if r.stack != [] {
      WalkToTop(d, root, r, f);
    } else {
      ReachesSelf(Includes(d), f);
    }
    assert forall g | g in r.files + [f] :: g in r.files || g == f;
    assert forall g | g in r.stack :: g in Elements(r.files);
  }

  /** What the file on top of the stack has learned from the included file x. */
  function Learn(r: Reading, f: string, x: string): Reading
    requires f in r.reach && x in r.reach
  {
    r.(reach := r.reach[f := r.reach[f] + r.reach[x]])
  }

  lemma LearnOk(d: Disk, root: string, r: Reading, f: string, x: string)
    requires WalkOk(d, root, r) && ReachOk(d, r) && r.stack != [] && f == r.stack[|r.stack| - 1]
    requires x in r.done && x in Includes(d)[f] && f in r.reach && x in r.reach
    ensures WalkOk(d, root, Learn(r, f, x)) && ReachOk(d, Learn(r, f, x))
  {
    assert f in r.stack && f in Elements(r.stack) && x in Elements(r.done);
    forall y | y in r.reach[x] ensures Reaches(Includes(d), f, y) {
      assert x in Includes(d);
      ReachesStep(Includes(d), f, x);
      ReachesTransitive(Includes(d), f, x, y);
    }
    assert forall g | g in r.done :: g in Elements(r.done) && g != f;
  }

  function Pop(r: Reading): Reading
    requires r.stack != []
  {
    r.(stack := r.stack[..|r.stack| - 1], done := r.done + [r.stack[|r.stack| - 1]])
  }

  /** When everything a file includes is finished and learned, the file is finished. */
  lemma PopOk(d: Disk, root: string, r: Reading, f: string)
    requires WalkOk(d, root, r) && ReachOk(d, r) && OnTop(r, f) && f in r.reach && IncludesExpand(d, f)
    requires forall x | x in Includes(d)[f] :: Learned(r, f, x)
    ensures WalkOk(d, root, Pop(r)) && ReachOk(d, Pop(r))
  {
    var below := r.stack[..|r.stack| - 1];
    assert r.stack == below + [f];
    NotBelow(d, root, r, f, below);
    PopWalkOk(d, root, r, f, below);
    ClosureFromChildren(d, f, r);
    PopReachOk(d, r, f, below);
  }

  lemma NotBelow(d: Disk, root: string, r: Reading, f: string, below: seq<string>)
    requires WalkOk(d, root, r) && r.stack == below + [f]
    ensures f in r.stack && f !in r.done && f !in below && Elements(r.files) == Elements(below) + Elements(r.done + [f])
    ensures Elements(below) !! Elements(r.done + [f])
  {
    ElementsSnoc(below, f);
    ElementsSnoc(r.done, f);
    assert f in Elements(r.stack);
    assert f !in Elements(r.done) && f !in Elements(below) by {
      forall i | 0 <= i < |below| ensures below[i] != f {
        assert r.stack[i] == below[i] && r.stack[|below|] == f;
      }
    }
  }

  lemma PopReachOk(d: Disk, r: Reading, f: string, below: seq<string>)
    requires ReachOk(d, r) && r.stack == below + [f] && f in r.reach && IsClosure(Includes(d), f, r.reach[f])
    ensures ReachOk(d, Pop(r))
  {
    assert forall h | h in below :: h in r.stack;
    assert forall h | h in r.done + [f] :: h in r.done || h == f;
  }

  lemma PopWalkOk(d: Disk, root: string, r: Reading, f: string, below: seq<string>)
    requires WalkOk(d, root, r) && r.stack == below + [f] && IncludesExpand(d, f)
    requires forall x | x in Includes(d)[f] :: x in r.done
    ensures WalkOk(d, root, Pop(r))
  {
    NotBelow(d, root, r, f, below);
    OrderedSnoc(Includes(d), r.done, f);
    assert Pop(r).stack == below;
    if below != [] {
      WalkPrefix(Includes(d), below, f);
      assert below[0] == r.stack[0];
    }
    StackWithout(r.stack, below, f);
    assert forall h | h in r.done + [f] :: h in r.done || h == f;
  }

  lemma StackWithout(stack: seq<string>, below: seq<string>, f: string)
    requires NoDuplicates(stack) && stack == below + [f]
    ensures NoDuplicates(below)
  {
    assert forall i | 0 <= i < |below| :: below[i] == stack[i];
  }

  lemma ClosureFromChildren(d: Disk, f: string, r: Reading)
    requires ReachOk(d, r) && f in r.stack && f in r.reach && f in d.contents
    requires forall x | x in Includes(d)[f] :: Learned(r, f, x)
    ensures IsClosure(Includes(d), f, r.reach[f])
  {
    forall y | Reaches(Includes(d), f, y) ensures y in r.reach[f] {
      if y != f {
        ReachesFirstStep(Includes(d), f, y);
        var x :| x in Includes(d)[f] && x in Includes(d) && Reaches(Includes(d), x, y);
        assert Learned(r, f, x) && y in r.reach[x];
      }
    }
  }

  /** Two presets with one key among the files read. */
  lemma DuplicateFound(d: Disk, root: string, files: seq<string>, presets: map<PresetKey, string>, f: string, i: nat)
    requires f in d.contents && i < |d.contents[f].presets| && Reaches(Includes(d), root, f)
    requires forall g | g in files :: Reaches(Includes(d), root, g)
    requires RegisteredFrom(d, f, i, presets) && d.contents[f].presets[i] in presets
    requires var key := d.contents[f].presets[i];
             (OwnedBy(d, files, key, presets[key]) && f !in files) || key in d.contents[f].presets[..i]
    ensures !Readable(d, root)
  {
    var key := d.contents[f].presets[i];
    if key in d.contents[f].presets[..i] {
      var j :| 0 <= j < i && d.contents[f].presets[..i][j] == key;
      assert SameKey(d, f, i, f, j);
    } else {
      var g := presets[key];
      var j :| 0 <= j < |d.contents[g].presets| && d.contents[g].presets[j] == key;
      assert SameKey(d, f, i, g, j);
    }
  }

  /** The first n includes of f are finished and learned. */
  predicate LearnedFirst(d: Disk, r: Reading, f: string, n: nat)
    requires f in d.contents && n <= |d.contents[f].includes|
  {
    forall j | 0 <= j < n :: d.contents[f].includes[j].Some? && Learned(r, f, d.contents[f].includes[j].value)
  }

  ghost predicate KeepsLearned(r: Reading, s: Reading, f: string) {
    forall x | Learned(r, f, x) :: Learned(s, f, x)
  }

  lemma LearnedOneMore(d: Disk, r: Reading, s: Reading, f: string, n: nat)
    requires f in d.contents && n < |d.contents[f].includes| && LearnedFirst(d, r, f, n) && KeepsLearned(r, s, f)
    requires d.contents[f].includes[n].Some? && Learned(s, f, d.contents[f].includes[n].value)
    ensures LearnedFirst(d, s, f, n + 1)
  {
  }

  lemma LearnedAll(d: Disk, r: Reading, s: Reading, f: string)
    requires f in d.contents && LearnedFirst(d, r, f, |d.contents[f].includes|) && KeepsLearned(r, s, f)
    requires f == d.userFile && d.projectFile in d.existing ==> Learned(s, f, d.projectFile)
    ensures IncludesExpand(d, f) && forall x | x in Includes(d)[f] :: Learned(s, f, x)
  {
  }

  lemma ContinuesTransitive(r: Reading, s: Reading, t: Reading, f: string)
    requires ContinuesExcept(r, s, f) && ContinuesExcept(s, t, f)
    ensures ContinuesExcept(r, t, f)
  {
    forall g | g != f ensures SameReach(r, t, g) {
      assert SameReach(r, s, g) && SameReach(s, t, g);
    }
  }

  /** A file that has been read completely, seen from before it was begun. */
  lemma ReadContinues(r: Reading, begun: Reading, s: Reading, f: string)
    requires ContinuesExcept(begun, s, f) && begun == Push(r, f).(presets := begun.presets) && f !in r.reach
    ensures OnTop(s, f) && Continues(r, Pop(s))
  {
    assert s.stack[..|s.stack| - 1] == r.stack;
    assert r.files <= begun.files;
    forall g ensures SameReach(r, Pop(s), g) {
      assert g != f ==> SameReach(begun, s, g);
    }
  }

  lemma LearnContinues(r: Reading, s: Reading, f: string, x: string)
    requires Continues(r, s) && f in s.reach && x in s.reach && x in s.done && x != f
    ensures ContinuesExcept(r, Learn(s, f, x), f) && Learned(Learn(s, f, x), f, x)
    ensures forall y | Learned(r, f, y) && f !in r.done :: Learned(Learn(s, f, x), f, y)
  {
    forall g | g != f ensures SameReach(r, Learn(s, f, x), g) {
      assert SameReach(r, s, g);
    }
    forall y | Learned(r, f, y) && f !in r.done ensures Learned(Learn(s, f, x), f, y) {
      assert y != f && SameReach(r, s, y) && SameReach(r, s, f);
    }
  }

  /** The file on top has been read completely. before is the state before it was begun, begun the one with its presets
      registered. */
  lemma FileRead(d: Disk, root: string, r: Reading, f: string, before: Reading, begun: Reading)
    requires InOrder(d, root, r) && OnTop(r, f) && IncludesExpand(d, f)
    requires forall x | x in Includes(d)[f] :: Learned(r, f, x)
    requires ContinuesExcept(begun, r, f) && begun == Push(before, f).(presets := begun.presets) && f !in before.reach
    ensures InOrder(d, root, Pop(r)) && Continues(before, Pop(r)) && f in Pop(r).done
  {
    TopIsNotDone(d, root, r, f);
    PopOk(d, root, r, f);
    ReadContinues(before, begun, r, f);
  }

  /** From r to s the included file x has been read; now the file on top learns what it reaches. */
  lemma FileIncluded(d: Disk, root: string, r: Reading, s: Reading, f: string, x: string)
    requires InOrder(d, root, r) && InOrder(d, root, s) && OnTop(r, f) && f in d.contents && x in Edges(d, f)
    requires Continues(r, s) && x in s.done
    ensures f in s.reach && x in s.reach && x != f && InOrder(d, root, Learn(s, f, x))
    ensures ContinuesExcept(r, Learn(s, f, x), f) && Learned(Learn(s, f, x), f, x) && KeepsLearned(r, Learn(s, f, x), f)
  {
    TopIsNotDone(d, root, r, f);
    TopIsNotDone(d, root, s, f);
    assert x in Elements(s.done);
    LearnOk(d, root, s, f, x);
    LearnContinues(r, s, f, x);
  }

  class PresetsReader {
    const d: Disk
    var files: seq<string>
    var inProgressFiles: seq<string>
    var reachableFiles: map<string, set<string>>
    var presets: map<PresetKey, string>
    ghost var done: seq<string>

    ghost function State(): Reading
      reads this
    {
      Reading(files, inProgressFiles, reachableFiles, presets, done)
    }

    constructor (d: Disk)
      ensures this.d == d && State() == Reading([], [], map[], map[], [])
    {
      this.d := d;
      files, inProgressFiles, reachableFiles, presets, done := [], [], map[], map[], [];
    }

    /** The user's own file is read before any other, so that only it is ever read as the user's root. */
    predicate UserFileFirst(filename: string, isUserRoot: bool)
      reads this
    {
      && (isUserRoot ==> filename == d.userFile)
      && (!isUserRoot && d.userFile in d.contents ==> d.userFile in files)
    }

    /** isUserRoot stands for RootType::User with ReadReason::Root. */
    method ReadJSONFile(filename: string, isUserRoot: bool, ghost root: string) returns (ok: bool)
      requires InOrder(d, root, State()) && MayRead(d, root, State(), filename) && UserFileFirst(filename, isUserRoot)
      modifies this
      ensures ok ==> InOrder(d, root, State()) && Continues(old(State()), State()) && filename in done
      ensures !ok ==> !Readable(d, root)
      decreases d.contents.Keys - Elements(files), 1
    {
      if filename in files {
        assert filename in Elements(files);
        if filename in inProgressFiles {
          CycleFound(d, root, State(), filename);
          return false;
        }
        assert filename in Elements(done);
        return true;
      }
      if filename !in d.contents {
        MissingFile(d, root, State(), filename);
        return false;
      }
      ok := ReadNewFile(filename, isUserRoot, root);
    }

    method ReadNewFile(filename: string, isUserRoot: bool, ghost root: string) returns (ok: bool)
      requires InOrder(d, root, State()) && MayRead(d, root, State(), filename) && UserFileFirst(filename, isUserRoot)
      requires filename in d.contents && filename !in files
      modifies this
      ensures ok ==> InOrder(d, root, State()) && Continues(old(State()), State()) && filename in done
      ensures !ok ==> !Readable(d, root)
      decreases d.contents.Keys - Elements(files), 0
    {
      ghost var before := State();
      ok := BeginAndRegister(filename, root);
      if ok {
        ok := ReadRest(filename, isUserRoot, root, before);
      }
    }

    /** A new file is put on the stack and its presets are registered. */
    method BeginAndRegister(filename: string, ghost root: string) returns (ok: bool)
      requires InOrder(d, root, State()) && MayRead(d, root, State(), filename)
      requires filename in d.contents && filename !in files
      modifies this
      ensures ok ==> InOrder(d, root, State()) && State() == Push(old(State()), filename).(presets := presets)
      ensures Elements(files) == old(Elements(files)) + {filename} && filename !in old(Elements(files))
      ensures filename !in old(reachableFiles)
      ensures !ok ==> !Readable(d, root)
    {
      ghost var others := files;
      Begin(filename, root);
      ghost var begun := State();
      ok := RegisterPresets(filename, others, root);
      PresetsApart(d, root, begun, presets);
    }

    /** The includes of a file whose presets are registered; before is the state before the file was begun. */
    method ReadRest(filename: string, isUserRoot: bool, ghost root: string, ghost before: Reading) returns (ok: bool)
      requires InOrder(d, root, State()) && State() == Push(before, filename).(presets := presets)
      requires filename in d.contents && filename !in before.reach
      requires (isUserRoot <==> filename == d.userFile) && (d.userFile in d.contents ==> d.userFile in files)
      modifies this
      ensures ok ==> InOrder(d, root, State()) && Continues(before, State()) && filename in done
      ensures !ok ==> !Readable(d, root)
      decreases d.contents.Keys - Elements(files), 4
    {
      ghost var begun := State();
      ok := ReadIncludes(filename, isUserRoot, root);
      if ok {
        FileRead(d, root, State(), filename, before, begun);
        End(filename);
      }
    }

    method Begin(filename: string, ghost root: string)
      requires WalkOk(d, root, State()) && ReachOk(d, State()) && filename in d.contents && filename !in files
      requires MayRead(d, root, State(), filename)
      modifies this
      ensures State() == Push(old(State()), filename) && WalkOk(d, root, State()) && ReachOk(d, State())
      ensures Elements(files) == old(Elements(files)) + {filename} && filename !in old(Elements(files))
      ensures filename !in old(reachableFiles)
    {
      PushOk(d, root, State(), filename);
      ElementsSnoc(files, filename);
      assert filename !in Elements(files);
      files := files + [filename];
      inProgressFiles := inProgressFiles + [filename];
      reachableFiles := reachableFiles[filename := {filename}];
    }

    method End(filename: string)
      requires OnTop(State(), filename)
      modifies this
      ensures State() == Pop(old(State()))
    {
      inProgressFiles := inProgressFiles[..|inProgressFiles| - 1];
      done := done + [filename];
    }

    /** The loops that insert the presets of a new file. */
    method RegisterPresets(filename: string, ghost others: seq<string>, ghost root: string) returns (ok: bool)
      requires WalkOk(d, root, State()) && files == others + [filename] && filename in d.contents
      requires Registered(d, others, presets) && filename !in others
      modifies this`presets
      ensures ok ==> Registered(d, files, presets)
      ensures !ok ==> !Readable(d, root)
    {
      var keys := d.contents[filename].presets;
      assert Reaches(Includes(d), root, filename) && forall g | g in others :: g in files;
      for i := 0 to |keys|
        invariant Registering(d, others, filename, i, presets)
      {
        ok := RegisterPreset(filename, i, others, root);
        if !ok {
          return false;
        }
      }
      assert keys[..|keys|] == keys;
      return true;
    }

    /** The body of those loops. */
    method RegisterPreset(filename: string, i: nat, ghost others: seq<string>, ghost root: string) returns (ok: bool)
      requires Registering(d, others, filename, i, presets) && filename !in others
      requires i < |d.contents[filename].presets| && Reaches(Includes(d), root, filename)
      requires forall g | g in others :: Reaches(Includes(d), root, g)
      modifies this`presets
      ensures ok ==> Registering(d, others, filename, i + 1, presets)
      ensures !ok ==> !Readable(d, root)
    {
      var key := d.contents[filename].presets[i];
      if key.name == "" {
        assert !PresetOk(d, filename, i);
        return false;
      }
      if key in presets {
        DuplicateFound(d, root, others, presets, filename, i);
        return false;
      }
      ghost var before := presets;
      presets := presets[key := filename];
      if d.contents[filename].version < d.contents[filename].since[i] {
        assert !PresetOk(d, filename, i);
        return false;
      }
      RegisterOne(d, others, filename, i, before);
      return true;
    }

    /** The loop over the includes, and the user's implicit include. */
    method ReadIncludes(filename: string, isUserRoot: bool, ghost root: string) returns (ok: bool)
      requires InOrder(d, root, State()) && OnTop(State(), filename) && filename in d.contents
      requires (isUserRoot <==> filename == d.userFile) && (d.userFile in d.contents ==> d.userFile in files)
      modifies this
      ensures ok ==> InOrder(d, root, State()) && ContinuesExcept(old(State()), State(), filename)
      ensures ok ==> IncludesExpand(d, filename) && forall x | x in Includes(d)[filename] ::
              Learned(State(), filename, x)
      ensures !ok ==> !Readable(d, root)
      decreases d.contents.Keys - Elements(files), 3
    {
      var includes := d.contents[filename].includes;
      for i := 0 to |includes|
        invariant InOrder(d, root, State()) && ContinuesExcept(old(State()), State(), filename)
        invariant LearnedFirst(d, State(), filename, i)
      {
        if includes[i].None? {
          UnexpandedInclude(d, root, State(), filename, i);
          return false;
        }
        ghost var now := State();
        ok := IncludeFile(filename, includes[i].value, root);
        if !ok {
          return false;
        }
        ContinuesTransitive(old(State()), now, State(), filename);
        LearnedOneMore(d, now, State(), filename, i);
      }
      ghost var now := State();
      if isUserRoot && d.projectFile in d.existing {
        ok := IncludeFile(filename, d.projectFile, root);
        if !ok {
          return false;
        }
        ContinuesTransitive(old(State()), now, State(), filename);
      }
      LearnedAll(d, now, State(), filename);
      return true;
    }

    /** The lambda includeFile. */
    method IncludeFile(filename: string, included: string, ghost root: string) returns (ok: bool)
      requires InOrder(d, root, State()) && OnTop(State(), filename) && filename in d.contents
      requires included in Edges(d, filename)
      requires d.userFile in d.contents ==> d.userFile in files
      modifies this
      ensures ok ==> InOrder(d, root, State()) && ContinuesExcept(old(State()), State(), filename)
      ensures ok ==> Learned(State(), filename, included)
      ensures ok ==> KeepsLearned(old(State()), State(), filename)
      ensures !ok ==> !Readable(d, root)
      decreases d.contents.Keys - Elements(files), 2
    {
      ok := ReadJSONFile(included, false, root);
      if !ok {
        return false;
      }
      ghost var full := State();
      FileIncluded(d, root, old(State()), full, filename, included);
      LearnFrom(filename, included);
    }

    method LearnFrom(filename: string, included: string)
      requires filename in reachableFiles && included in reachableFiles
      modifies this
      ensures State() == Learn(old(State()), filename, included)
    {
      reachableFiles := reachableFiles[filename := reachableFiles[filename] + reachableFiles[included]];
    }

    /** ReadProjectPresetsInternal up to the inheritance step. The user's file comes first; without it the
        project's file; without both, success depends on allowNoFiles. */
    method ReadProjectPresets(allowNoFiles: bool) returns (ok: bool)
      requires State() == Reading([], [], map[], map[], [])
      modifies this
      ensures ok <==> match RootFile(d) case Some(root) => Readable(d, root) case None => allowNoFiles
      ensures ok && RootFile(d).Some? ==> WasRead(d, RootFile(d).value, State())
      ensures ok ==> inProgressFiles == []
    {
      if d.userFile in d.existing {
        ok := ReadRoot(d.userFile, true);
      } else if d.projectFile in d.existing {
        ok := ReadRoot(d.projectFile, false);
      } else {
        ok := allowNoFiles;
      }
    }

    method ReadRoot(root: string, isUserRoot: bool) returns (ok: bool)
      requires State() == Reading([], [], map[], map[], []) && (isUserRoot <==> root == d.userFile)
      requires !isUserRoot ==> d.userFile !in d.existing
      modifies this
      ensures ok <==> Readable(d, root)
      ensures ok ==> WasRead(d, root, State())
    {
      ok := ReadJSONFile(root, isUserRoot, root);
      if ok {
        AllRead(d, root, State());
      }
    }
  }

  lemma TopIsNotDone(d: Disk, root: string, r: Reading, f: string)
    requires InOrder(d, root, r) && OnTop(r, f)
    ensures f in r.files && f in r.reach && f !in r.done && f in r.stack
    ensures Elements(r.files) <= d.contents.Keys
  {
    assert f in Elements(r.stack);
    assert f in Elements(r.files);
    assert f in Elements(r.done) <==> f in r.done;
  }

  lemma UnexpandedInclude(d: Disk, root: string, r: Reading, f: string, i: nat)
    requires InOrder(d, root, r) && OnTop(r, f) && f in d.contents
    requires i < |d.contents[f].includes| && d.contents[f].includes[i].None?
    ensures !Readable(d, root)
  {
    TopIsNotDone(d, root, r, f);
    assert !FileOk(d, f);
  }

  /** The presets of the other files and the first n presets of f are registered. */
  ghost predicate Registering(d: Disk, others: seq<string>, f: string, n: nat, presets: map<PresetKey, string>) {
    && f in d.contents && n <= |d.contents[f].presets| && RegisteredFrom(d, f, n, presets)
    && (forall g | g in others :: g in d.contents && RegisteredFrom(d, g, |d.contents[g].presets|, presets))
    && forall key | key in presets ::
         OwnedBy(d, others, key, presets[key]) || (presets[key] == f && key in d.contents[f].presets[..n])
  }

  lemma RegisterOne(d: Disk, others: seq<string>, f: string, n: nat, presets: map<PresetKey, string>)
    requires Registering(d, others, f, n, presets) && n < |d.contents[f].presets| && f !in others
    requires PresetOk(d, f, n) && d.contents[f].presets[n] !in presets
    ensures Registering(d, others, f, n + 1, presets[d.contents[f].presets[n] := f])
  {
    var keys := d.contents[f].presets;
    assert keys[..n + 1] == keys[..n] + [keys[n]];
    forall i | 0 <= i < n ensures keys[..n][i] != keys[n] {
      assert keys[i] in presets;
    }
  }

  /** The file the reading starts from. */
  function RootFile(d: Disk): Option<string> {
    if d.userFile in d.existing then Some(d.userFile)
    else if d.projectFile in d.existing then Some(d.projectFile)
    else None
  }

  /** Exactly the files reachable from root have been read, each once; every file's reachable set is the reflexive and
      transitive closure of the includes; and the presets are those of these files. */
  ghost predicate WasRead(d: Disk, root: string, r: Reading) {
    && NoDuplicates(r.files) && r.stack == []
    && (forall f :: f in r.files <==> Reaches(Includes(d), root, f))
    && r.reach.Keys == Elements(r.files)
    && (forall f | f in r.files && f in r.reach :: IsClosure(Includes(d), f, r.reach[f]))
    && Registered(d, r.files, r.presets)
  }

  lemma AllRead(d: Disk, root: string, r: Reading)
    requires WalkOk(d, root, r) && ReachOk(d, r) && Registered(d, r.files, r.presets) && r.stack == [] && root in r.done
    ensures WasRead(d, root, r) && Readable(d, root)
  {
    var g := Includes(d);
    assert forall f :: f in r.done <==> f in Elements(r.files);
    var k :| 0 <= k < |r.done| && r.done[k] == root;
    forall f | Reaches(g, root, f) ensures f in r.done && FileOk(d, f) && !OnCycle(g, f) {
      ReachedIsDone(g, r.done, root, f);
      DoneIsOk(d, root, r, f);
    }
    forall f, i: nat, h, j: nat | Reaches(g, root, f) && Reaches(g, root, h) && SameKey(d, f, i, h, j)
      ensures f == h && i == j {
      assert f in Elements(r.files) && h in Elements(r.files);
      KeysDiffer(d, r, f, i, h, j);
    }
  }

  lemma KeysDiffer(d: Disk, r: Reading, f: string, i: nat, h: string, j: nat)
    requires Registered(d, r.files, r.presets) && f in r.files && h in r.files && SameKey(d, f, i, h, j)
    ensures f == h && i == j
  {
    var keys := d.contents[f].presets;
    assert RegisteredFrom(d, f, |keys|, r.presets) && RegisteredFrom(d, h, |d.contents[h].presets|, r.presets);
    assert r.presets[keys[i]] == f && r.presets[d.contents[h].presets[j]] == h;
    assert keys[..|keys|] == keys;
  }

  lemma ReachedIsDone(g: Graph<string>, done: seq<string>, root: string, f: string)
    requires Ordered(g, done) && root in done && Reaches(g, root, f)
    ensures f in done
  {
    var w :| WalkBetween(g, w, root, f);
    if |w| > 1 {
      var k :| 0 <= k < |done| && done[k] == root;
      WalksGoBack(g, done, w, k);
    }
  }

  lemma DoneIsOk(d: Disk, root: string, r: Reading, f: string)
    requires WalkOk(d, root, r) && Registered(d, r.files, r.presets) && f in r.done
    ensures FileOk(d, f) && !OnCycle(Includes(d), f)
  {
    assert IncludesExpand(d, f);
    var k :| 0 <= k < |r.done| && r.done[k] == f;
    forall x | x in Includes(d)[r.done[k]] ensures x in d.contents {
      assert x in Elements(r.done[..k]);
      assert x in r.done;
      assert IncludesExpand(d, x);
    }
    assert f in Elements(r.done) && f in Elements(r.files) && f in r.files;
    assert RegisteredFrom(d, f, |d.contents[f].presets|, r.presets);
    forall w | WalkBetween(Includes(d), w, f, f) && |w| > 1 ensures false {
      OrderedHasNoCycle(Includes(d), r.done, w);
    }
  }

  // ---- What a reading has read, said of the files themselves ----

  /** The i-th include of f is g. */
  predicate Lists(d: Disk, f: string, i: nat, g: string) {
    f in d.contents && i < |d.contents[f].includes| && d.contents[f].includes[i] == Some(g)
  }

  /** What a file that was read includes was read too, and is reachable from it; so is the project's file from the
      user's. */
  lemma IncludedIsRead(d: Disk, root: string, r: Reading, f: string, i: nat, g: string)
    requires WasRead(d, root, r) && Readable(d, root) && f in r.files
    requires Lists(d, f, i, g) || (f == d.userFile && g == d.projectFile && g in d.existing)
    ensures g in r.files && f in r.reach && g in r.reach[f]
  {
    assert f in Elements(r.files);
    assert Reaches(Includes(d), root, f) && FileOk(d, f);
    assert g in Edges(d, f) && g in d.contents;
    ReachesStep(Includes(d), f, g);
    ReachesTransitive(Includes(d), root, f, g);
  }

  /** In particular, reading the user's file reads the project's file, if there is one. */
  lemma ProjectFileIsRead(d: Disk, r: Reading)
    requires WasRead(d, d.userFile, r) && Readable(d, d.userFile) && d.projectFile in d.existing
    ensures d.projectFile in r.files && d.userFile in r.reach && d.projectFile in r.reach[d.userFile]
  {
    ReachesSelf(Includes(d), d.userFile);
    IncludedIsRead(d, d.userFile, r, d.userFile, 0, d.projectFile);
  }

  /** Nothing else is read: a file other than the root is included by a file that was read, or is the project's file
      beside the user's. */
  lemma ReadBecauseIncluded(d: Disk, root: string, r: Reading, g: string)
    requires WasRead(d, root, r) && g in r.files && g != root
    ensures (d.userFile in r.files && g == d.projectFile && g in d.existing)
            || exists f, i: nat :: f in r.files && Lists(d, f, i, g)
  {
    var w :| WalkBetween(Includes(d), w, root, g);
    var init, f := w[..|w| - 1], w[|w| - 2];
    assert init + [g] == w;
    WalkPrefix(Includes(d), init, g);
    assert WalkBetween(Includes(d), init, root, f);
    assert w[|w| - 2 + 1] in Includes(d)[w[|w| - 2]];
    assert f in r.files && g in Edges(d, f);
    if exists i | 0 <= i < |d.contents[f].includes| :: d.contents[f].includes[i] == Some(g) {
      var i :| 0 <= i < |d.contents[f].includes| && d.contents[f].includes[i] == Some(g);
      assert Lists(d, f, i, g);
    }
  }

  /** The file by itself is as it should be: its includes expand and can be read, so can the project's file beside the
      user's, and its presets have names and set nothing that came after the file's version. */
  ghost predicate GoodFile(d: Disk, f: string) {
    && f in d.contents
    && (forall i | 0 <= i < |d.contents[f].includes| ::
          d.contents[f].includes[i].Some? && d.contents[f].includes[i].value in d.contents)
    && (f == d.userFile && d.projectFile in d.existing ==> d.projectFile in d.contents)
    && forall i | 0 <= i < |d.contents[f].presets| ::
         |d.contents[f].presets[i].name| > 0 && d.contents[f].version >= d.contents[f].since[i]
  }

  lemma OkIsGood(d: Disk, f: string)
    requires FileOk(d, f)
    ensures GoodFile(d, f)
  {
    forall i | 0 <= i < |d.contents[f].includes| ensures d.contents[f].includes[i].value in d.contents {
      assert d.contents[f].includes[i].value in Edges(d, f);
    }
    forall i | 0 <= i < |d.contents[f].presets|
      ensures |d.contents[f].presets[i].name| > 0 && d.contents[f].version >= d.contents[f].since[i]
    {
      assert PresetOk(d, f, i);
    }
  }

  lemma GoodIsOk(d: Disk, f: string)
    requires GoodFile(d, f)
    ensures FileOk(d, f)
  {
    forall i | 0 <= i < |d.contents[f].presets| ensures PresetOk(d, f, i) {
      assert d.contents[f].presets[i].name != "" && d.contents[f].since[i] <= d.contents[f].version;
    }
    assert IncludesExpand(d, f);
    forall x | x in Edges(d, f) ensures x in d.contents.Keys {
    }
  }

  /** Exactly when the presets can be read. */
  lemma ReadableIff(d: Disk, root: string)
    ensures Readable(d, root) <==>
            && root in d.contents
            && (forall f | Reaches(Includes(d), root, f) :: GoodFile(d, f) && !OnCycle(Includes(d), f))
            && forall f, i: nat, g, j: nat | Reaches(Includes(d), root, f) && Reaches(Includes(d), root, g)
                 && SameKey(d, f, i, g, j) ::
                 f == g && i == j
  {
    forall f ensures FileOk(d, f) <==> GoodFile(d, f) {
      if FileOk(d, f) {
        OkIsGood(d, f);
      }
      if GoodFile(d, f) {
        GoodIsOk(d, f);
      }
    }
  }
}
