/** Which directories the dependency scan searches, in which order, and where inherited rpaths come from
    (cmBinUtilsLinuxELFLinker.cxx). */
module ElfSearch {
  import opened Options
  import opened Sequences
  import opened ElfScan

  /** No directory of the list has a usable file of that name. */
  predicate NoneUsable(w: World, dirs: seq<string>, name: string) {
    forall i | 0 <= i < |dirs| :: !w.usable(dirs[i] + "/" + name)
  }

  /** The first directory of the list that has a usable file of that name. */
  predicate UsableFirstAt(w: World, dirs: seq<string>, name: string, i: nat) {
    && i < |dirs| && w.usable(dirs[i] + "/" + name)
    && forall k | 0 <= k < i :: !w.usable(dirs[k] + "/" + name)
  }

  ghost predicate UsableFirst(w: World, dirs: seq<string>, name: string, path: string) {
    exists i: nat :: UsableFirstAt(w, dirs, name, i) && path == dirs[i] + "/" + name
  }

  lemma FirstInIs(w: World, dirs: seq<string>, name: string)
    ensures NoneUsable(w, dirs, name) <==> FirstIn(w, dirs, name, 0) == None
    ensures forall path :: UsableFirst(w, dirs, name, path) <==> FirstIn(w, dirs, name, 0) == Some(path)
  {
    FirstInByPosition(w, dirs, name, 0);
    forall i | 0 <= i < |dirs| ensures Candidate(dirs[i], name) == dirs[i] + "/" + name {
    }
    forall path ensures UsableFirst(w, dirs, name, path) <==> FirstIn(w, dirs, name, 0) == Some(path) {
      if i: nat :| UsableFirstAt(w, dirs, name, i) && path == dirs[i] + "/" + name {
        assert IsFirstIn(w, dirs, name, 0, i);
      }
      if FirstIn(w, dirs, name, 0) == Some(path) {
        var j :| 0 <= j < |dirs| && IsFirstIn(w, dirs, name, 0, j);
        assert UsableFirstAt(w, dirs, name, j);
      }
    }
  }

  lemma {:induction false} FirstInConcat(w: World, a: seq<string>, b: seq<string>, name: string, i: nat)
    requires i <= |a|
    ensures FirstIn(w, a + b, name, i) == FirstIn(w, a, name, i).OrElse(FirstIn(w, b, name, 0))
    decreases |a| - i
  {
    if i < |a| {
      FirstInConcat(w, a, b, name, i + 1);
    } else {
      FirstInDropped(w, a, b, name, 0);
    }
  }

  lemma {:induction false} FirstInDropped(w: World, a: seq<string>, b: seq<string>, name: string, i: nat)
    requires i <= |b|
    ensures FirstIn(w, a + b, name, |a| + i) == FirstIn(w, b, name, i)
    decreases |b| - i
  {
    if i < |b| {
      FirstInDropped(w, a, b, name, i + 1);
    }
  }

  /** The paths with $ORIGIN replaced by what it stands for in that file. */
  predicate Located(w: World, paths: seq<string>, file: string, located: seq<string>) {
    |located| == |paths| && forall i | 0 <= i < |paths| :: located[i] == w.replaceOrigin(paths[i], file)
  }

  /** A list of directories decides where the search ends, or passes it on. */
  ghost predicate Decides(w: World, dirs: seq<string>, name: string, result: Option<string>, otherwise: bool) {
    || (result.Some? && UsableFirst(w, dirs, name, result.value))
    || (NoneUsable(w, dirs, name) && otherwise)
  }

  /** A file with run paths looks there first, then in the paths of ldconfig, then in the search directories. */
  lemma SearchWithRunPaths(w: World, e: Entry, name: string, runs: seq<string>)
    requires e.file in w.disk && w.disk[e.file].runpaths != [] && Located(w, w.disk[e.file].runpaths, e.file, runs)
    ensures var result := Resolution(w, e, name);
            Decides(w, runs, name, result,
            Decides(w, w.ldConfigPaths, name, result,
            Decides(w, w.searchDirectories, name, result, result == None)))
  {
    assert Replaced(w, w.disk[e.file].runpaths, e.file) == runs;
    FirstInConcat(w, runs, w.ldConfigPaths, name, 0);
    FirstInIs(w, runs, name);
    FirstInIs(w, w.ldConfigPaths, name);
    FirstInIs(w, w.searchDirectories, name);
  }

  /** A file without run paths looks in its own rpaths first, then in those it has inherited, then in the paths of
      ldconfig, then in the search directories. */
  lemma SearchWithRpaths(w: World, e: Entry, name: string, own: seq<string>)
    requires e.file in w.disk && w.disk[e.file].runpaths == [] && Located(w, w.disk[e.file].rpaths, e.file, own)
    ensures var result := Resolution(w, e, name);
            Decides(w, own, name, result,
            Decides(w, e.parentRpaths, name, result,
            Decides(w, w.ldConfigPaths, name, result,
            Decides(w, w.searchDirectories, name, result, result == None))))
  {
    assert Replaced(w, w.disk[e.file].rpaths, e.file) == own;
    FirstInConcat(w, own + e.parentRpaths, w.ldConfigPaths, name, 0);
    FirstInConcat(w, own, e.parentRpaths, name, 0);
    FirstInIs(w, own, name);
    FirstInIs(w, e.parentRpaths, name);
    FirstInIs(w, w.ldConfigPaths, name);
    FirstInIs(w, w.searchDirectories, name);
  }

  /** Run paths hide all rpaths: what a file with run paths finds does not depend on its own rpaths or on those it has
      inherited. */
  lemma RunPathsHide(w: World, e: Entry, name: string, rpaths: seq<string>, parentRpaths: seq<string>)
    requires e.file in w.disk && w.disk[e.file].runpaths != []
    ensures var changed := w.(disk := w.disk[e.file := w.disk[e.file].(rpaths := rpaths)]);
            Resolution(changed, Entry(e.file, parentRpaths), name) == Resolution(w, e, name)
  {
    var changed := w.(disk := w.disk[e.file := w.disk[e.file].(rpaths := rpaths)]);
    assert SearchPaths(changed, Entry(e.file, parentRpaths)) == SearchPaths(w, e);
    SameUsable(w, changed, SearchPaths(w, e), name, 0);
    SameUsable(w, changed, w.searchDirectories, name, 0);
  }

  lemma {:induction false} SameUsable(w: World, v: World, dirs: seq<string>, name: string, i: nat)
    requires v.usable == w.usable && i <= |dirs|
    ensures FirstIn(v, dirs, name, i) == FirstIn(w, dirs, name, i)
    decreases |dirs| - i
  {
    if i < |dirs| {
      SameUsable(w, v, dirs, name, i + 1);
    }
  }

  // ---- Inherited rpaths ----

  /** Each entry of the chain leads to the next, and the first is the main file. */
  ghost predicate Chain(w: World, mainFile: string, chain: seq<Entry>) {
    && chain != [] && chain[0] == Entry(mainFile, [])
    && forall i | 0 <= i < |chain| - 1 :: Leads(w, chain[i], chain[i + 1])
  }

  /** The rpaths of the first n files of a chain, outermost first. */
  function RpathsOf(w: World, chain: seq<Entry>, n: nat): seq<string>
    requires n <= |chain|
  {
    if n == 0 then [] else RpathsOf(w, chain, n - 1) + OwnRpaths(w, chain[n - 1].file)
  }

  function OwnRpaths(w: World, file: string): (own: seq<string>)
    ensures file in w.disk ==> Located(w, w.disk[file].rpaths, file, own)
  {
    if file !in w.disk then []
    else
      var rpaths := w.disk[file].rpaths;
      seq(|rpaths|, i requires 0 <= i < |rpaths| => w.replaceOrigin(rpaths[i], file))
  }

  /** What an entry has inherited are the rpaths of all the files above it, outermost first. */
  lemma {:induction false} InheritedRpaths(w: World, mainFile: string, chain: seq<Entry>, i: nat)
    requires Chain(w, mainFile, chain) && i < |chain|
    ensures chain[i].parentRpaths == RpathsOf(w, chain, i)
  {
    if i > 0 {
      InheritedRpaths(w, mainFile, chain, i - 1);
      assert Leads(w, chain[i - 1], chain[i - 1 + 1]);
      var file := chain[i - 1].file;
      assert Replaced(w, w.disk[file].rpaths, file) == OwnRpaths(w, file);
    }
  }

  lemma ChainGrows(w: World, mainFile: string, chain: seq<Entry>, e: Entry)
    requires Chain(w, mainFile, chain) && Leads(w, chain[|chain| - 1], e)
    ensures Chain(w, mainFile, chain + [e])
  {
    forall k | 0 <= k < |chain + [e]| - 1 ensures Leads(w, (chain + [e])[k], (chain + [e])[k + 1]) {
      if k < |chain| - 1 {
        assert Leads(w, chain[k], chain[k + 1]);
      }
    }
  }

  /** Every file of a scan stands at the end of such a chain. */
  lemma {:induction false} ComesByChain(w: World, mainFile: string, s: Scan, i: nat) returns (chain: seq<Entry>)
    requires AllJustified(w, mainFile, s) && i < |s.visited + s.queue|
    ensures Chain(w, mainFile, chain) && chain[|chain| - 1] == (s.visited + s.queue)[i]
    ensures chain[|chain| - 1].parentRpaths == RpathsOf(w, chain, |chain| - 1)
  {
    var entries := s.visited + s.queue;
    assert Justified(w, mainFile, s, i);
    if i == 0 {
      chain := [entries[0]];
    } else {
      var j :| 0 <= j < i && j < |s.visited| && Leads(w, entries[j], entries[i]);
      chain := ComesByChain(w, mainFile, s, j);
      ChainGrows(w, mainFile, chain, entries[i]);
      chain := chain + [entries[i]];
    }
    InheritedRpaths(w, mainFile, chain, |chain| - 1);
  }
}
