/** The scan for runtime dependencies: cmBinUtilsLinuxELFLinker.cxx, over an archive as in
    cmRuntimeDependencyArchive.cxx. */
module ElfScan {
  import opened Options

  datatype FileInfo = FileInfo(needed: seq<string>, rpaths: seq<string>, runpaths: seq<string>)

  /** What the scan asks the system and the archive's settings. A file that is not on the disk cannot be read. */
  datatype World = World(disk: map<string, FileInfo>, usable: string -> bool, preExcluded: string -> bool,
                         postExcluded: string -> bool, sameFile: (string, string) -> bool,
                         replaceOrigin: (string, string) -> string, ldConfigPaths: seq<string>,
                         searchDirectories: seq<string>)

  /** An item of the queue: a file and the rpaths of the files that led to it. */
  datatype Entry = Entry(file: string, parentRpaths: seq<string>)

  type Paths = map<string, set<string>>

  function PathsOf(paths: Paths, name: string): set<string> {
    if name in paths then paths[name] else {}
  }

  function Replaced(w: World, paths: seq<string>, file: string): seq<string> {
    seq(|paths|, i requires 0 <= i < |paths| => w.replaceOrigin(paths[i], file))
  }

  /** Where the dependencies of a file are looked for: run paths hide the rpaths, the file's own and inherited ones. */
  function SearchPaths(w: World, e: Entry): seq<string>
    requires e.file in w.disk
  {
    var info := w.disk[e.file];
    (if info.runpaths != [] then Replaced(w, info.runpaths, e.file)
     else Replaced(w, info.rpaths, e.file) + e.parentRpaths) + w.ldConfigPaths
  }

  function Candidate(dir: string, name: string): string {
    dir + ['/'] + name
  }

  /** The first directory that has a usable file of that name. */
  function FirstIn(w: World, dirs: seq<string>, name: string, i: nat): Option<string>
    requires i <= |dirs|
    decreases |dirs| - i
  {
    if i == |dirs| then None
    else if w.usable(Candidate(dirs[i], name)) then Some(Candidate(dirs[i], name))
    else FirstIn(w, dirs, name, i + 1)
  }

  /** Where a name that a file needs is found. */
  function Resolution(w: World, e: Entry, name: string): Option<string>
    requires e.file in w.disk
  {
    FirstIn(w, SearchPaths(w, e), name, 0).OrElse(FirstIn(w, w.searchDirectories, name, 0))
  }

  /** Said by position: nothing is found exactly when no directory has a usable file, and otherwise it is found in the
      first that has one. */
  lemma {:induction false} FirstInByPosition(w: World, dirs: seq<string>, name: string, i: nat)
    requires i <= |dirs|
    ensures FirstIn(w, dirs, name, i) == None <==> forall j | i <= j < |dirs| :: !w.usable(Candidate(dirs[j], name))
    ensures FirstIn(w, dirs, name, i) != None ==> exists j | i <= j < |dirs| :: IsFirstIn(w, dirs, name, i, j)
    ensures forall j | i <= j < |dirs| && IsFirstIn(w, dirs, name, i, j) ::
              FirstIn(w, dirs, name, i) == Some(Candidate(dirs[j], name))
    decreases |dirs| - i
  {
    if i < |dirs| {
      FirstInByPosition(w, dirs, name, i + 1);
      if w.usable(Candidate(dirs[i], name)) {
        assert IsFirstIn(w, dirs, name, i, i);
      } else if FirstIn(w, dirs, name, i + 1) != None {
        var j :| i + 1 <= j < |dirs| && IsFirstIn(w, dirs, name, i + 1, j);
        assert IsFirstIn(w, dirs, name, i, j);
      }
      forall j | i < j < |dirs| && IsFirstIn(w, dirs, name, i, j) ensures IsFirstIn(w, dirs, name, i + 1, j) {
      }
    }
  }

  /** From the i-th directory on, the j-th is the first with a usable file of that name. */
  predicate IsFirstIn(w: World, dirs: seq<string>, name: string, i: nat, j: nat)
    requires i <= j < |dirs|
  {
    w.usable(Candidate(dirs[j], name)) && forall k | i <= k < j :: !w.usable(Candidate(dirs[k], name))
  }

  function Child(w: World, e: Entry, path: string): Entry
    requires e.file in w.disk
  {
    Entry(path, e.parentRpaths + Replaced(w, w.disk[e.file].rpaths, e.file))
  }

  predicate Needs(w: World, e: Entry, name: string) {
    e.file in w.disk && name in w.disk[e.file].needed
  }

  predicate HasSlash(name: string) {
    '/' in name
  }

  // ---- What a scan has to achieve ----

  /** Everything the scan knows: the files taken from the queue, those still in it, the path chosen for each resolved
      name, and the archive. */
  datatype Scan = Scan(visited: seq<Entry>, queue: seq<Entry>, chosen: map<string, string>, paths: Paths,
                       unresolved: set<string>)

  /** The name is resolved to that path for some visited file that needs it. */
  ghost predicate Found(w: World, visited: seq<Entry>, name: string, result: Option<string>) {
    exists i :: 0 <= i < |visited| && FoundAt(w, visited[i], name, result)
  }

  predicate FoundAt(w: World, e: Entry, name: string, result: Option<string>) {
    Needs(w, e, name) && !w.preExcluded(name) && !HasSlash(name) && Resolution(w, e, name) == result
  }

  /** A chosen path was found; it goes to the archive unless it is excluded. */
  ghost predicate ChosenOk(w: World, s: Scan, name: string)
    requires name in s.chosen
  {
    Found(w, s.visited, name, Some(s.chosen[name]))
  }

  function Gained(w: World, chosen: map<string, string>, name: string): set<string> {
    if name in chosen && !w.postExcluded(chosen[name]) then {chosen[name]} else {}
  }

  predicate PathsOk(w: World, before: Paths, s: Scan, name: string) {
    PathsOf(s.paths, name) == PathsOf(before, name) + Gained(w, s.chosen, name)
  }

  predicate Unique(w: World, known: set<string>, path: string) {
    forall other | other in known :: !w.sameFile(path, other)
  }

  predicate InEntries(entries: seq<Entry>, path: string) {
    exists i | 0 <= i < |entries| :: entries[i].file == path
  }

  /** A path that is new to the archive is queued. */
  predicate Queued(w: World, before: Paths, s: Scan, name: string)
    requires name in s.chosen
  {
    !w.postExcluded(s.chosen[name]) && Unique(w, PathsOf(before, name), s.chosen[name]) ==>
      InEntries(s.visited + s.queue, s.chosen[name])
  }

  ghost predicate UnresolvedOk(w: World, before: set<string>, s: Scan, name: string) {
    name in before || Found(w, s.visited, name, None)
  }

  /** A dependency of a file that has been looked at: excluded, resolved, or found nowhere and recorded as
      unresolved. */
  predicate Settled(w: World, s: Scan, e: Entry, name: string)
    requires e.file in w.disk
  {
    || w.preExcluded(name)
    || (!HasSlash(name) && (name in s.chosen || (Resolution(w, e, name).None? && name in s.unresolved)))
  }

  predicate SettledUpTo(w: World, s: Scan, e: Entry, k: nat) {
    e.file in w.disk && k <= |w.disk[e.file].needed| && forall d | 0 <= d < k ::
      Settled(w, s, e, w.disk[e.file].needed[d])
  }

  predicate Done(w: World, s: Scan, e: Entry) {
    e.file in w.disk && SettledUpTo(w, s, e, |w.disk[e.file].needed|)
  }

  /** The child is in the queue because the parent needs it. */
  ghost predicate Leads(w: World, parent: Entry, child: Entry) {
    parent.file in w.disk && child == Child(w, parent, child.file)
    && exists name :: FoundAt(w, parent, name, Some(child.file))
  }

  /** Every entry but the first comes from one that was visited before it. */
  ghost predicate Justified(w: World, mainFile: string, s: Scan, i: nat)
    requires i < |s.visited + s.queue|
  {
    var entries := s.visited + s.queue;
    if i == 0 then entries[0] == Entry(mainFile, [])
    else exists j :: 0 <= j < i && j < |s.visited| && Leads(w, entries[j], entries[i])
  }

  ghost predicate AllJustified(w: World, mainFile: string, s: Scan) {
    forall i {:trigger Justified(w, mainFile, s, i)} | 0 <= i < |s.visited + s.queue| :: Justified(w, mainFile, s, i)
  }

  ghost predicate Consistent(w: World, before: Paths, unresolvedBefore: set<string>, s: Scan) {
    && (forall name {:trigger ChosenOk(w, s, name)} | name in s.chosen :: ChosenOk(w, s, name))
    && (forall name {:trigger PathsOk(w, before, s, name)} :: PathsOk(w, before, s, name))
    && (forall name {:trigger Queued(w, before, s, name)} | name in s.chosen :: Queued(w, before, s, name))
    && unresolvedBefore <= s.unresolved
    && (forall name {:trigger UnresolvedOk(w, unresolvedBefore, s, name)} | name in s.unresolved ::
          UnresolvedOk(w, unresolvedBefore, s, name))
  }

  predicate DoneUpTo(w: World, s: Scan, n: nat) {
    n <= |s.visited| && forall i {:trigger Done(w, s, s.visited[i])} | 0 <= i < n :: Done(w, s, s.visited[i])
  }

  /** Between two files. */
  ghost predicate Between(w: World, mainFile: string, before: Paths, unresolvedBefore: set<string>, s: Scan) {
    AllJustified(w, mainFile, s) && Consistent(w, before, unresolvedBefore, s) && DoneUpTo(w, s, |s.visited|)
  }

  /** Inside a file: the first k of its dependencies have been looked at. */
  ghost predicate Inside(w: World, mainFile: string, before: Paths, unresolvedBefore: set<string>, s: Scan, k: nat) {
    && s.visited != []
    && AllJustified(w, mainFile, s) && Consistent(w, before, unresolvedBefore, s)
    && DoneUpTo(w, s, |s.visited| - 1) && SettledUpTo(w, s, s.visited[|s.visited| - 1], k)
  }

  // ---- Steps ----

  /** The knowledge only grows. */
  predicate Grows(s: Scan, t: Scan) {
    && s.visited <= t.visited && s.visited + s.queue <= t.visited + t.queue && s.unresolved <= t.unresolved
    && forall name | name in s.chosen :: name in t.chosen && t.chosen[name] == s.chosen[name]
  }

  lemma FoundGrows(w: World, s: Scan, t: Scan, name: string, result: Option<string>)
    requires Grows(s, t) && Found(w, s.visited, name, result)
    ensures Found(w, t.visited, name, result)
  {
    var i :| 0 <= i < |s.visited| && FoundAt(w, s.visited[i], name, result);
    assert t.visited[i] == s.visited[i];
  }

  lemma DoneGrows(w: World, s: Scan, t: Scan, n: nat)
    requires Grows(s, t) && DoneUpTo(w, s, n)
    ensures DoneUpTo(w, t, n)
  {
    forall i | 0 <= i < n ensures Done(w, t, t.visited[i]) {
      assert t.visited[i] == s.visited[i];
      assert Done(w, s, s.visited[i]);
      var e := s.visited[i];
      forall d | 0 <= d < |w.disk[e.file].needed| ensures Settled(w, t, e, w.disk[e.file].needed[d]) {
        assert Settled(w, s, e, w.disk[e.file].needed[d]);
      }
    }
  }

  lemma SettledGrows(w: World, s: Scan, t: Scan, e: Entry, k: nat)
    requires Grows(s, t) && SettledUpTo(w, s, e, k)
    ensures SettledUpTo(w, t, e, k)
  {
    forall d | 0 <= d < k ensures Settled(w, t, e, w.disk[e.file].needed[d]) {
      assert Settled(w, s, e, w.disk[e.file].needed[d]);
    }
  }

  lemma JustifiedGrows(w: World, mainFile: string, s: Scan, t: Scan, i: nat)
    requires Grows(s, t) && i < |s.visited + s.queue| && Justified(w, mainFile, s, i)
    ensures i < |t.visited + t.queue| && Justified(w, mainFile, t, i)
  {
    var x, y := s.visited + s.queue, t.visited + t.queue;
    assert x[i] == y[i];
    if i > 0 {
      var j :| 0 <= j < i && j < |s.visited| && Leads(w, x[j], x[i]);
      assert x[j] == y[j];
    }
  }

  lemma QueuedGrows(w: World, before: Paths, s: Scan, t: Scan, name: string)
    requires Grows(s, t) && name in s.chosen && Queued(w, before, s, name)
    ensures name in t.chosen && Queued(w, before, t, name)
  {
    if !w.postExcluded(s.chosen[name]) && Unique(w, PathsOf(before, name), s.chosen[name]) {
      var i :| 0 <= i < |s.visited + s.queue| && (s.visited + s.queue)[i].file == s.chosen[name];
      assert (t.visited + t.queue)[i] == (s.visited + s.queue)[i];
    }
  }

  /** What was consistent stays so for every name the step does not touch. */
  lemma ConsistentGrows(w: World, before: Paths, unresolvedBefore: set<string>, s: Scan, t: Scan, name: string)
    requires Grows(s, t) && Consistent(w, before, unresolvedBefore, s)
    ensures name in s.chosen ==> name in t.chosen && ChosenOk(w, t, name) && Queued(w, before, t, name)
    ensures name in s.unresolved ==> UnresolvedOk(w, unresolvedBefore, t, name)
  {
    if name in s.chosen {
      assert ChosenOk(w, s, name) && Queued(w, before, s, name);
      FoundGrows(w, s, t, name, Some(s.chosen[name]));
      QueuedGrows(w, before, s, t, name);
    }
    if name in s.unresolved {
      assert UnresolvedOk(w, unresolvedBefore, s, name);
      if name !in unresolvedBefore {
        FoundGrows(w, s, t, name, None);
      }
    }
  }

  lemma JustifiedAll(w: World, mainFile: string, s: Scan, t: Scan)
    requires Grows(s, t) && AllJustified(w, mainFile, s)
    requires |t.visited + t.queue| == |s.visited + s.queue|
    ensures AllJustified(w, mainFile, t)
  {
    forall i | 0 <= i < |t.visited + t.queue| ensures Justified(w, mainFile, t, i) {
      assert Justified(w, mainFile, s, i);
      JustifiedGrows(w, mainFile, s, t, i);
    }
  }

  /** Taking the front of the queue. */
  function Popped(s: Scan): Scan
    requires s.queue != []
  {
    s.(visited := s.visited + [s.queue[0]], queue := s.queue[1..])
  }

  lemma PopStep(w: World, mainFile: string, before: Paths, unresolvedBefore: set<string>, s: Scan)
    requires Between(w, mainFile, before, unresolvedBefore, s) && s.queue != []
    ensures var t := Popped(s);
            && AllJustified(w, mainFile, t) && Consistent(w, before, unresolvedBefore, t)
            && DoneUpTo(w, t, |t.visited| - 1)
    ensures s.queue[0].file in w.disk ==> Inside(w, mainFile, before, unresolvedBefore, Popped(s), 0)
  {
    var t := Popped(s);
    assert t.visited + t.queue == s.visited + s.queue;
    JustifiedAll(w, mainFile, s, t);
    DoneGrows(w, s, t, |s.visited|);
    SameArchive(w, before, unresolvedBefore, s, t);
  }

  lemma SameArchive(w: World, before: Paths, unresolvedBefore: set<string>, s: Scan, t: Scan)
    requires Grows(s, t) && Consistent(w, before, unresolvedBefore, s)
    requires t.chosen == s.chosen && t.paths == s.paths && t.unresolved == s.unresolved
    ensures Consistent(w, before, unresolvedBefore, t)
  {
    forall name | name in t.chosen ensures ChosenOk(w, t, name) && Queued(w, before, t, name) {
      ConsistentGrows(w, before, unresolvedBefore, s, t, name);
    }
    forall name ensures PathsOk(w, before, t, name) {
      assert PathsOk(w, before, s, name);
    }
    forall name | name in t.unresolved ensures UnresolvedOk(w, unresolvedBefore, t, name) {
      ConsistentGrows(w, before, unresolvedBefore, s, t, name);
    }
  }

  /** A dependency that needs no work. */
  lemma SkipStep(w: World, mainFile: string, before: Paths, unresolvedBefore: set<string>, s: Scan, k: nat)
    requires Inside(w, mainFile, before, unresolvedBefore, s, k) && k < |w.disk[s.visited[|s.visited| - 1].file].needed|
    requires var name := w.disk[s.visited[|s.visited| - 1].file].needed[k]; name in s.chosen || w.preExcluded(name)
    ensures Inside(w, mainFile, before, unresolvedBefore, s, k + 1)
  {
    var name := w.disk[s.visited[|s.visited| - 1].file].needed[k];
    if name in s.chosen {
      assert ChosenOk(w, s, name);
    }
  }

  /** A dependency that is not found. */
  lemma UnresolvedStep(w: World, mainFile: string, before: Paths, unresolvedBefore: set<string>, s: Scan, k: nat,
                       name: string)
    requires Inside(w, mainFile, before, unresolvedBefore, s, k) && k < |w.disk[s.visited[|s.visited| - 1].file].needed|
    requires name == w.disk[s.visited[|s.visited| - 1].file].needed[k]
    requires FoundAt(w, s.visited[|s.visited| - 1], name, None)
    ensures Inside(w, mainFile, before, unresolvedBefore, s.(unresolved := s.unresolved + {name}), k + 1)
  {
    var t := s.(unresolved := s.unresolved + {name});
    JustifiedAll(w, mainFile, s, t);
    DoneGrows(w, s, t, |s.visited| - 1);
    SettledGrows(w, s, t, s.visited[|s.visited| - 1], k);
    forall other | other in t.chosen ensures ChosenOk(w, t, other) && Queued(w, before, t, other) {
      ConsistentGrows(w, before, unresolvedBefore, s, t, other);
    }
    forall other ensures PathsOk(w, before, t, other) {
      assert PathsOk(w, before, s, other);
    }
    forall other | other in t.unresolved ensures UnresolvedOk(w, unresolvedBefore, t, other) {
      ConsistentGrows(w, before, unresolvedBefore, s, t, other);
    }
  }

  /** The scan after a dependency is resolved. */
  function WithChosen(w: World, s: Scan, e: Entry, name: string, path: string): Scan
    requires e.file in w.disk
  {
    var t := s.(chosen := s.chosen[name := path]);
    if w.postExcluded(path) then t
    else
      t.(paths := s.paths[name := PathsOf(s.paths, name) + {path}],
         queue := if Unique(w, PathsOf(s.paths, name), path) then s.queue + [Child(w, e, path)] else s.queue)
  }

  lemma ChosenGrows(w: World, s: Scan, e: Entry, name: string, path: string)
    requires e.file in w.disk && name !in s.chosen
    ensures Grows(s, WithChosen(w, s, e, name, path))
  {
    var t := WithChosen(w, s, e, name, path);
    assert s.visited + (s.queue + [Child(w, e, path)]) == s.visited + s.queue + [Child(w, e, path)];
  }

  lemma ChosenJustified(w: World, mainFile: string, s: Scan, name: string, path: string)
    requires s.visited != [] && AllJustified(w, mainFile, s)
    requires var e := s.visited[|s.visited| - 1]; FoundAt(w, e, name, Some(path)) && name !in s.chosen
    ensures AllJustified(w, mainFile, WithChosen(w, s, s.visited[|s.visited| - 1], name, path))
  {
    var e := s.visited[|s.visited| - 1];
    var t := WithChosen(w, s, e, name, path);
    ChosenGrows(w, s, e, name, path);
    var n := |s.visited + s.queue|;
    forall i | 0 <= i < |t.visited + t.queue| ensures Justified(w, mainFile, t, i) {
      if i < n {
        assert Justified(w, mainFile, s, i);
        JustifiedGrows(w, mainFile, s, t, i);
      } else {
        assert (t.visited + t.queue)[n] == Child(w, e, path) && (t.visited + t.queue)[|s.visited| - 1] == e;
        assert Leads(w, e, Child(w, e, path));
      }
    }
  }

  lemma ChosenConsistent(w: World, before: Paths, unresolvedBefore: set<string>, s: Scan, name: string, path: string)
    requires s.visited != [] && Consistent(w, before, unresolvedBefore, s)
    requires var e := s.visited[|s.visited| - 1]; FoundAt(w, e, name, Some(path)) && name !in s.chosen
    ensures Consistent(w, before, unresolvedBefore, WithChosen(w, s, s.visited[|s.visited| - 1], name, path))
  {
    var e := s.visited[|s.visited| - 1];
    var t := WithChosen(w, s, e, name, path);
    ChosenGrows(w, s, e, name, path);
    ChosenPaths(w, before, s, e, name, path);
    forall other | other in t.chosen ensures ChosenOk(w, t, other) && Queued(w, before, t, other) {
      if other == name {
        ChosenNew(w, before, s, name, path);
      } else {
        ConsistentGrows(w, before, unresolvedBefore, s, t, other);
      }
    }
    forall other | other in t.unresolved ensures UnresolvedOk(w, unresolvedBefore, t, other) {
      ConsistentGrows(w, before, unresolvedBefore, s, t, other);
    }
  }

  lemma ChosenPaths(w: World, before: Paths, s: Scan, e: Entry, name: string, path: string)
    requires e.file in w.disk && name !in s.chosen
    requires forall other {:trigger PathsOk(w, before, s, other)} :: PathsOk(w, before, s, other)
    ensures forall other {:trigger PathsOk(w, before, WithChosen(w, s, e, name, path), other)} ::
              PathsOk(w, before, WithChosen(w, s, e, name, path), other)
  {
    var t := WithChosen(w, s, e, name, path);
    forall other ensures PathsOk(w, before, t, other) {
      assert PathsOk(w, before, s, other);
    }
  }

  lemma ChosenNew(w: World, before: Paths, s: Scan, name: string, path: string)
    requires s.visited != [] && name !in s.chosen
    requires forall other {:trigger PathsOk(w, before, s, other)} :: PathsOk(w, before, s, other)
    requires FoundAt(w, s.visited[|s.visited| - 1], name, Some(path))
    ensures var t := WithChosen(w, s, s.visited[|s.visited| - 1], name, path);
            ChosenOk(w, t, name) && Queued(w, before, t, name)
  {
    var e := s.visited[|s.visited| - 1];
    var t := WithChosen(w, s, e, name, path);
    assert FoundAt(w, t.visited[|t.visited| - 1], name, Some(path));
    assert PathsOk(w, before, s, name);
    ChosenQueued(w, before, s, e, name, path);
  }

  lemma ChosenQueued(w: World, before: Paths, s: Scan, e: Entry, name: string, path: string)
    requires e.file in w.disk && name !in s.chosen && PathsOk(w, before, s, name)
    ensures Queued(w, before, WithChosen(w, s, e, name, path), name)
  {
    var t := WithChosen(w, s, e, name, path);
    assert PathsOf(s.paths, name) == PathsOf(before, name);
    if !w.postExcluded(path) && Unique(w, PathsOf(before, name), path) {
      assert (t.visited + t.queue)[|t.visited + t.queue| - 1] == Child(w, e, path);
    }
  }

  lemma ChosenStep(w: World, mainFile: string, before: Paths, unresolvedBefore: set<string>, s: Scan, k: nat,
                   name: string, path: string)
    requires Inside(w, mainFile, before, unresolvedBefore, s, k) && k < |w.disk[s.visited[|s.visited| - 1].file].needed|
    requires name == w.disk[s.visited[|s.visited| - 1].file].needed[k] && name !in s.chosen
    requires FoundAt(w, s.visited[|s.visited| - 1], name, Some(path))
    ensures Inside(w, mainFile, before, unresolvedBefore, WithChosen(w, s, s.visited[|s.visited| - 1], name, path),
                   k + 1)
  {
    var e := s.visited[|s.visited| - 1];
    var t := WithChosen(w, s, e, name, path);
    ChosenGrows(w, s, e, name, path);
    ChosenJustified(w, mainFile, s, name, path);
    ChosenConsistent(w, before, unresolvedBefore, s, name, path);
    DoneGrows(w, s, t, |s.visited| - 1);
    SettledGrows(w, s, t, e, k);
  }

  // ---- The scan ----

  /** The part of the archive that the scan changes. */
  class Archive {
    const w: World
    var resolvedPaths: Paths
    var unresolvedPaths: set<string>
    var rpaths: map<string, seq<string>>

    constructor (w: World)
      ensures this.w == w && resolvedPaths == map[] && unresolvedPaths == {} && rpaths == map[]
    {
      this.w := w;
      resolvedPaths, unresolvedPaths, rpaths := map[], {}, map[];
    }

    /** AddResolvedPath: unique says that no path under the name is the same file. */
    method AddResolvedPath(name: string, path: string, itsRpaths: seq<string>) returns (unique: bool)
      modifies this`resolvedPaths, this`rpaths
      ensures rpaths == old(rpaths)[path := itsRpaths]
      ensures unique <==> !(name in old(resolvedPaths)
                            && exists other | other in old(resolvedPaths)[name] :: w.sameFile(path, other))
      ensures resolvedPaths == old(resolvedPaths)[name := PathsOf(old(resolvedPaths), name) + {path}]
    {
      var known := PathsOf(resolvedPaths, name);
      var rest := known;
      unique := true;
      while rest != {} && unique
        invariant rest <= known
        invariant unique ==> forall other | other in known - rest :: !w.sameFile(path, other)
        invariant !unique ==> exists other | other in known :: w.sameFile(path, other)
        decreases |rest|, unique
      {
        var other :| other in rest;
        if w.sameFile(path, other) {
          unique := false;
        }
        rest := rest - {other};
      }
      resolvedPaths := resolvedPaths[name := known + {path}];
      rpaths := rpaths[path := itsRpaths];
    }

    method AddUnresolvedPath(name: string)
      modifies this`unresolvedPaths
      ensures unresolvedPaths == old(unresolvedPaths) + {name}
    {
      unresolvedPaths := unresolvedPaths + {name};
    }
  }

  /** One of the two loops of ResolveDependency. */
  method FindIn(w: World, dirs: seq<string>, name: string) returns (path: Option<string>)
    ensures path == FirstIn(w, dirs, name, 0)
  {
    for i := 0 to |dirs|
      invariant FirstIn(w, dirs, name, 0) == FirstIn(w, dirs, name, i)
    {
      if w.usable(Candidate(dirs[i], name)) {
        return Some(Candidate(dirs[i], name));
      }
    }
    return None;
  }

  method ResolveDependency(w: World, searchPaths: seq<string>, name: string) returns (path: Option<string>)
    ensures path == FirstIn(w, searchPaths, name, 0).OrElse(FirstIn(w, w.searchDirectories, name, 0))
  {
    path := FindIn(w, searchPaths, name);
    if path.None? {
      path := FindIn(w, w.searchDirectories, name);
    }
  }

  /** Every name that some file on the disk needs. */
  ghost function AllNames(w: World): set<string> {
    set f, name | f in w.disk && name in w.disk[f].needed :: name
  }

  lemma ChosenAreNames(w: World, before: Paths, unresolvedBefore: set<string>, s: Scan)
    requires Consistent(w, before, unresolvedBefore, s)
    ensures s.chosen.Keys <= AllNames(w)
  {
    forall name | name in s.chosen ensures name in AllNames(w) {
      assert ChosenOk(w, s, name);
    }
  }

  /** What stays to be done: names that are not resolved yet, and then the queue. */
  ghost function Remaining(w: World, s: Scan): nat {
    |AllNames(w) - s.chosen.Keys|
  }

  lemma FewerNames(all: set<string>, a: set<string>, b: set<string>)
    requires a <= b <= all
    ensures |all - b| <= |all - a| && (a != b ==> |all - b| < |all - a|)
  {
    assert all - a == (all - b) + (b - a);
    if a != b {
      var x :| x in b && x !in a;
      assert x in b - a;
    }
  }

  /** A file the scan can handle. */
  predicate Acceptable(w: World, file: string) {
    file in w.disk && forall i | 0 <= i < |w.disk[file].needed| ::
      w.preExcluded(w.disk[file].needed[i]) || !HasSlash(w.disk[file].needed[i])
  }

  lemma DoneIsAcceptable(w: World, s: Scan, n: nat)
    requires DoneUpTo(w, s, n)
    ensures forall i | 0 <= i < n :: Acceptable(w, s.visited[i].file)
  {
    forall i | 0 <= i < n ensures Acceptable(w, s.visited[i].file) {
      assert Done(w, s, s.visited[i]);
    }
  }

  class Linker {
    const archive: Archive

    constructor (archive: Archive)
      ensures this.archive == archive
    {
      this.archive := archive;
    }

    /** Scans from mainFile. s is what the scan knew at its end: on success the queue is empty, every dependency of
        every visited file is settled, and the archive has gained exactly the chosen paths. It fails exactly when it
        meets a file it cannot handle. */
    method ScanDependencies(mainFile: string) returns (ok: bool, ghost s: Scan)
      modifies archive
      ensures ok ==> s.queue == [] && s.paths == archive.resolvedPaths && s.unresolved == archive.unresolvedPaths
      ensures ok ==> Between(archive.w, mainFile, old(archive.resolvedPaths), old(archive.unresolvedPaths), s)
      ensures AllJustified(archive.w, mainFile, s)
      ensures ok <==> forall i | 0 <= i < |s.visited| :: Acceptable(archive.w, s.visited[i].file)
    {
      ghost var w, before, unresolvedBefore := archive.w, archive.resolvedPaths, archive.unresolvedPaths;
      var resolvedDependencies: set<string> := {};
      var queueToResolve := [Entry(mainFile, [])];
      s := Scan([], queueToResolve, map[], archive.resolvedPaths, archive.unresolvedPaths);
      StartStep(w, mainFile, s);
      while queueToResolve != []
        invariant Mirrors(s, resolvedDependencies, queueToResolve)
        invariant Between(w, mainFile, before, unresolvedBefore, s)
        decreases Remaining(w, s), |queueToResolve|
      {
        ok, resolvedDependencies, queueToResolve, s :=
          ScanNext(resolvedDependencies, queueToResolve, s, mainFile, before, unresolvedBefore);
        if !ok {
          return;
        }
      }
      DoneIsAcceptable(w, s, |s.visited|);
      ok := true;
    }

    /** The body of that loop: one file. */
    method ScanNext(resolved: set<string>, queue: seq<Entry>, ghost was: Scan, ghost mainFile: string,
                    ghost before: Paths, ghost unresolvedBefore: set<string>)
      returns (ok: bool, resolvedDependencies: set<string>, queueToResolve: seq<Entry>, ghost s: Scan)
      requires queue != [] && Mirrors(was, resolved, queue)
      requires Between(archive.w, mainFile, before, unresolvedBefore, was)
      modifies archive
      ensures ok ==>
                Mirrors(s, resolvedDependencies, queueToResolve)
                && Between(archive.w, mainFile, before, unresolvedBefore, s)
      ensures ok ==> Remaining(archive.w, s) < Remaining(archive.w, was)
                     || (Remaining(archive.w, s) == Remaining(archive.w, was) && |queueToResolve| < |queue|)
      ensures !ok ==> AllJustified(archive.w, mainFile, s) && s.visited != []
                      && !Acceptable(archive.w, s.visited[|s.visited| - 1].file)
    {
      var e := queue[0];
      PopStep(archive.w, mainFile, before, unresolvedBefore, was);
      if e.file !in archive.w.disk {
        return false, resolved, queue[1..], Popped(was);
      }
      ok, resolvedDependencies, queueToResolve, s :=
        ScanFile(e, resolved, queue[1..], Popped(was), mainFile, before, unresolvedBefore);
      if ok {
        ChosenAreNames(archive.w, before, unresolvedBefore, s);
        FewerNames(AllNames(archive.w), was.chosen.Keys, s.chosen.Keys);
      }
    }

    ghost predicate Mirrors(s: Scan, resolvedDependencies: set<string>, queueToResolve: seq<Entry>)
      reads archive
    {
      s.chosen.Keys == resolvedDependencies && s.queue == queueToResolve
      && s.paths == archive.resolvedPaths && s.unresolved == archive.unresolvedPaths
    }

    /** The loop over what a file needs. */
    method ScanFile(e: Entry, resolved: set<string>, queue: seq<Entry>, ghost was: Scan, ghost mainFile: string,
                    ghost before: Paths, ghost unresolvedBefore: set<string>)
      returns (ok: bool, resolvedDependencies: set<string>, queueToResolve: seq<Entry>, ghost s: Scan)
      requires e.file in archive.w.disk && was.visited != [] && was.visited[|was.visited| - 1] == e
      requires Mirrors(was, resolved, queue)
      requires Inside(archive.w, mainFile, before, unresolvedBefore, was, 0)
      modifies archive
      ensures ok ==>
                Mirrors(s, resolvedDependencies, queueToResolve)
                && Between(archive.w, mainFile, before, unresolvedBefore, s)
      ensures was.chosen.Keys <= s.chosen.Keys && (was.chosen.Keys == s.chosen.Keys ==> s.queue == was.queue)
      ensures !ok ==> AllJustified(archive.w, mainFile, s) && s.visited == was.visited && !Acceptable(archive.w, e.file)
    {
      ghost var w := archive.w;
      s, resolvedDependencies, queueToResolve := was, resolved, queue;
      var info := archive.w.disk[e.file];
      var searchPaths := SearchPaths(archive.w, e);
      for i := 0 to |info.needed|
        invariant Mirrors(s, resolvedDependencies, queueToResolve) && s.visited == was.visited
        invariant Inside(w, mainFile, before, unresolvedBefore, s, i)
        invariant was.chosen.Keys <= s.chosen.Keys && (was.chosen.Keys == s.chosen.Keys ==> s.queue == was.queue)
      {
        ok, resolvedDependencies, queueToResolve, s :=
          ScanNeeded(e, info.needed[i], searchPaths, resolvedDependencies, queueToResolve, i, s, mainFile, before,
                     unresolvedBefore);
        if !ok {
          return;
        }
      }
      ok := true;
    }

    /** The body of that loop. */
    method ScanNeeded(e: Entry, dep: string, searchPaths: seq<string>, resolved: set<string>, queue: seq<Entry>,
                      ghost k: nat,
                      ghost was: Scan, ghost mainFile: string, ghost before: Paths,
                      ghost unresolvedBefore: set<string>)
      returns (ok: bool, resolvedDependencies: set<string>, queueToResolve: seq<Entry>, ghost s: Scan)
      requires was.visited != [] && was.visited[|was.visited| - 1] == e && Mirrors(was, resolved, queue)
      requires Inside(archive.w, mainFile, before, unresolvedBefore, was, k)
      requires k < |archive.w.disk[e.file].needed| && dep == archive.w.disk[e.file].needed[k]
      requires searchPaths == SearchPaths(archive.w, e)
      modifies archive
      ensures s.visited == was.visited && was.chosen.Keys <= s.chosen.Keys
      ensures was.chosen.Keys == s.chosen.Keys ==> s.queue == was.queue
      ensures ok ==>
                Mirrors(s, resolvedDependencies, queueToResolve)
                && Inside(archive.w, mainFile, before, unresolvedBefore, s, k + 1)
      ensures !ok ==> s == was && !Acceptable(archive.w, e.file)
    {
      ghost var w := archive.w;
      ok, s, resolvedDependencies, queueToResolve := true, was, resolved, queue;
      if dep in resolved || archive.w.preExcluded(dep) {
        SkipStep(w, mainFile, before, unresolvedBefore, was, k);
        return;
      }
      if HasSlash(dep) {
        ok := false;
        return;
      }
      var path := ResolveDependency(archive.w, searchPaths, dep);
      if path.None? {
        UnresolvedStep(w, mainFile, before, unresolvedBefore, was, k, dep);
        archive.AddUnresolvedPath(dep);
        s := was.(unresolved := was.unresolved + {dep});
        return;
      }
      ChosenStep(w, mainFile, before, unresolvedBefore, was, k, dep, path.value);
      s := WithChosen(w, was, e, dep, path.value);
      resolvedDependencies := resolved + {dep};
      queueToResolve := AddResolved(e, dep, path.value, queue);
    }

    /** A resolved dependency goes to the archive, and to the queue if it is new there. */
    method AddResolved(e: Entry, dep: string, path: string, queue: seq<Entry>) returns (queueToResolve: seq<Entry>)
      requires e.file in archive.w.disk
      modifies archive`resolvedPaths, archive`rpaths
      ensures archive.rpaths ==
              if archive.w.postExcluded(path) then old(archive.rpaths) else old(archive.rpaths)[path := []]
      ensures archive.w.postExcluded(path) ==>
              archive.resolvedPaths == old(archive.resolvedPaths) && queueToResolve == queue
      ensures !archive.w.postExcluded(path) ==>
                archive.resolvedPaths ==
                  old(archive.resolvedPaths)[dep := PathsOf(old(archive.resolvedPaths), dep) + {path}]
                && queueToResolve == if Unique(archive.w, PathsOf(old(archive.resolvedPaths), dep), path)
                                     then queue + [Child(archive.w, e, path)] else queue
    {
      queueToResolve := queue;
      if !archive.w.postExcluded(path) {
        var unique := archive.AddResolvedPath(dep, path, []);
        if unique {
          queueToResolve := queue + [Child(archive.w, e, path)];
        }
      }
    }
  }

  lemma StartStep(w: World, mainFile: string, s: Scan)
    requires s == Scan([], [Entry(mainFile, [])], map[], s.paths, s.unresolved)
    ensures Between(w, mainFile, s.paths, s.unresolved, s)
  {
    assert s.visited + s.queue == [Entry(mainFile, [])];
  }

  /** What success means: nothing that a visited file needs is forgotten, and what the file's own search finds is
      resolved, even if the archive has recorded it as unresolved before. */
  lemma NeedsAreSettled(w: World, mainFile: string, before: Paths, unresolvedBefore: set<string>, s: Scan, i: nat,
                        name: string)
    requires Between(w, mainFile, before, unresolvedBefore, s) && i < |s.visited| && Needs(w, s.visited[i], name)
    ensures !w.preExcluded(name) ==> '/' !in name && (name in s.chosen || name in s.unresolved)
    ensures !w.preExcluded(name) && Resolution(w, s.visited[i], name).Some? ==> name in s.chosen
  {
    assert Done(w, s, s.visited[i]);
    var d :| 0 <= d < |w.disk[s.visited[i].file].needed| && w.disk[s.visited[i].file].needed[d] == name;
    assert Settled(w, s, s.visited[i], name);
  }

  /** The path chosen for a name is in the archive, unless it is excluded. */
  lemma ChosenIsGained(w: World, mainFile: string, before: Paths, unresolvedBefore: set<string>, s: Scan, name: string)
    requires Between(w, mainFile, before, unresolvedBefore, s) && name in s.chosen && !w.postExcluded(s.chosen[name])
    ensures name in s.paths && s.chosen[name] in s.paths[name]
  {
    assert PathsOk(w, before, s, name);
  }

  /** Every path the archive has gained was found for a visited file, was itself scanned unless the archive already had
      the same file under the name, and is the only one gained for its name: no name is resolved twice. */
  lemma GainedPaths(w: World, mainFile: string, before: Paths, unresolvedBefore: set<string>, s: Scan, name: string,
                    path: string)
    requires Between(w, mainFile, before, unresolvedBefore, s) && s.queue == []
    requires path in PathsOf(s.paths, name) && path !in PathsOf(before, name)
    ensures Found(w, s.visited, name, Some(path)) && !w.postExcluded(path)
    ensures Unique(w, PathsOf(before, name), path) ==> InEntries(s.visited, path)
    ensures forall other | other in PathsOf(s.paths, name) && other !in PathsOf(before, name) :: other == path
  {
    assert PathsOk(w, before, s, name);
    assert ChosenOk(w, s, name) && Queued(w, before, s, name);
    assert s.visited + s.queue == s.visited;
  }
}
