/** Which presets inheritance refuses: the checks before and after inheriting (cmCMakePresetsGraph.cxx), said of the
    fields that a preset ends up with. */
module PresetChecks {
  import opened Options
  import opened Digraph
  import opened Presets
  import opened Inheritance

  /** A preset that is not hidden is complete and consistent: before version 3 of its file it names a generator and a
      binary directory, whatever is an error is not switched off as a warning, and no cache variable lacks a name. */
  predicate Usable(version: int, p: Fields) {
    && (version >= 3 || (Get(p, Generator) != None && Get(p, BinaryDir) != None))
    && (Get(p, ErrorDev) == Some(Flag(true)) ==> Get(p, WarnDev) != Some(Flag(false)))
    && (Get(p, ErrorDeprecated) == Some(Flag(true)) ==> Get(p, WarnDeprecated) != Some(Flag(false)))
    && Get(p, CacheEntry("")) == None
  }

  function VersionOf(w: World, n: Name): int
    requires n in w.decls
  {
    w.files[w.decls[n].originFile].version
  }

  /** The parent exists, and its file can be reached from the file of the preset. */
  predicate MayInherit(w: World, n: Name, parent: Name) {
    && n in w.decls && parent in w.decls
    && w.decls[parent].originFile in w.files[w.decls[n].originFile].reachableFiles
  }

  predicate AllMayInherit(w: World) {
    forall n, i: nat | n in w.decls && i < |w.decls[n].inherits| :: MayInherit(w, n, w.decls[n].inherits[i])
  }

  /** Every field has its value by inheritance. */
  ghost predicate Inherits(w: World, r: FieldTable) {
    && r.Keys == w.decls.Keys
    && forall n {:trigger Resolves(w.own[n], w.decls[n].inherits, r, r[n])} | n in w.decls ::
         Resolves(w.own[n], w.decls[n].inherits, r, r[n])
  }

  ghost predicate VisibleUsable(w: World, r: FieldTable) {
    forall n | n in w.decls && n in r && !w.decls[n].hidden :: Usable(VersionOf(w, n), r[n])
  }

  predicate NoNamelessVariable(w: World) {
    forall n | n in w.decls :: "" !in w.own[n].environment
  }

  lemma CheckedIff(w: World, n: Name, p: Fields)
    requires n in w.decls
    ensures Checked(w, n, p) <==> w.decls[n].hidden || Usable(VersionOf(w, n), p)
  {
  }

  lemma ResolutionIff(w: World, r: FieldTable)
    ensures IsResolution(w, r) <==>
            Inherits(w, r) && VisibleUsable(w, r) && AllMayInherit(w) && NoNamelessVariable(w)
  {
    if IsResolution(w, r) {
      forall n | n in w.decls ensures Acceptable(w, n, r[n]) {
      }
      forall n | n in w.decls && n in r && !w.decls[n].hidden ensures Usable(VersionOf(w, n), r[n]) {
        assert Acceptable(w, n, r[n]);
        CheckedIff(w, n, r[n]);
      }
      forall n, i: nat | n in w.decls && i < |w.decls[n].inherits| ensures MayInherit(w, n, w.decls[n].inherits[i]) {
        assert Acceptable(w, n, r[n]);
        assert ParentAllowed(w, n, w.decls[n].inherits[i]);
      }
      forall n | n in w.decls ensures "" !in w.own[n].environment {
        assert Acceptable(w, n, r[n]);
      }
    }
    if Inherits(w, r) && VisibleUsable(w, r) && AllMayInherit(w) && NoNamelessVariable(w) {
      forall n | n in w.decls ensures Acceptable(w, n, r[n]) {
        CheckedIff(w, n, r[n]);
        forall i | 0 <= i < |w.decls[n].inherits| ensures ParentAllowed(w, n, w.decls[n].inherits[i]) {
          assert MayInherit(w, n, w.decls[n].inherits[i]);
        }
      }
    }
  }

  /** Exactly when inheritance succeeds: no preset is its own ancestor, every parent may be inherited from, no
      environment variable lacks a name, and every preset that is not hidden is usable with the fields it inherits. */
  lemma InheritableIff(w: World)
    ensures Inheritable(w) <==>
            Acyclic(Parents(w)) && AllMayInherit(w) && NoNamelessVariable(w)
            && exists r :: Inherits(w, r) && VisibleUsable(w, r)
  {
    if r :| IsResolution(w, r) {
      ResolutionIff(w, r);
    }
    if AllMayInherit(w) && NoNamelessVariable(w) {
      if r :| Inherits(w, r) && VisibleUsable(w, r) {
        ResolutionIff(w, r);
      }
    }
  }

  /** So after ComputePresetInheritance has succeeded, every preset that is not hidden is usable. */
  lemma VisiblePresetsAreUsable(w: World, names: seq<Name>, n: Name)
    requires Elements(names) == w.decls.Keys && VisitAll(w, Start(w), names).Some?
    requires n in w.decls && !w.decls[n].hidden
    ensures n in VisitAll(w, Start(w), names).value.fields
    ensures Usable(VersionOf(w, n), VisitAll(w, Start(w), names).value.fields[n])
  {
    InheritanceIsResolution(w, names);
    ResolutionIff(w, VisitAll(w, Start(w), names).value.fields);
  }

  /** And it fails if some preset that is not hidden would not be, whatever else is in the files. */
  lemma UnusableIsRefused(w: World, names: seq<Name>, r: FieldTable, n: Name)
    requires Elements(names) == w.decls.Keys && Acyclic(Parents(w)) && Inherits(w, r)
    requires n in w.decls && !w.decls[n].hidden && !Usable(VersionOf(w, n), r[n])
    ensures VisitAll(w, Start(w), names).None?
  {
    InheritanceIsResolution(w, names);
    if VisitAll(w, Start(w), names).Some? {
      var t := VisitAll(w, Start(w), names).value;
      ResolutionIff(w, t.fields);
      SameInheritance(w, r, t.fields);
    }
  }

  /** The fields that presets inherit are determined. */
  lemma SameInheritance(w: World, r: FieldTable, r': FieldTable)
    requires Acyclic(Parents(w)) && Inherits(w, r) && Inherits(w, r') && AllMayInherit(w)
    ensures r == r'
  {
    AcyclicIffOrdered(Parents(w));
    var order :| Ordered(Parents(w), order) && Elements(order) == Parents(w).Keys;
    SameAlong(w, r, r', order, |order|);
    forall n | n in r ensures r[n] == r'[n] {
      assert n in Elements(order);
    }
  }

  lemma {:induction false} SameAlong(w: World, r: FieldTable, r': FieldTable, order: seq<Name>, k: nat)
    requires Ordered(Parents(w), order) && Inherits(w, r) && Inherits(w, r') && AllMayInherit(w) && k <= |order|
    ensures forall i | 0 <= i < k :: order[i] in r && order[i] in r' && r[order[i]] == r'[order[i]]
  {
    if k > 0 {
      SameAlong(w, r, r', order, k - 1);
      var n := order[k - 1];
      forall i | 0 <= i < |w.decls[n].inherits|
        ensures w.decls[n].inherits[i] in r && r[w.decls[n].inherits[i]] == r'[w.decls[n].inherits[i]]
      {
        assert MayInherit(w, n, w.decls[n].inherits[i]);
        assert w.decls[n].inherits[i] in Parents(w)[n];
        assert w.decls[n].inherits[i] in Elements(order[..k - 1]);
      }
      ResolvesUnique(w.own[n], w.decls[n].inherits, r, r', r[n], r'[n]);
    }
  }
}
