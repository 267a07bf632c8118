/** VisitPreset and ComputePresetInheritance: the depth-first walk that fills in inherited values in
    place. Its status map is passed by value, so a preset is visited again by every child. */
module Inheritance {
  import opened Options
  import opened Digraph
  import opened ConditionTree
  import opened Presets

  /** The values being filled in, and the presets whose visit has finished, in the order of their first finish. */
  datatype Progress = Progress(fields: FieldTable, conditions: ConditionTable, done: seq<Name>)

  /** There are values for exactly the declared presets. */
  predicate Complete(w: World, s: Progress) {
    s.fields.Keys == w.decls.Keys && s.conditions.Keys == w.decls.Keys
  }

  function Start(w: World): Progress {
    Progress(w.own, w.ownConditions, [])
  }

  /** The child takes over what it lacks from a parent. */
  function Inherit(s: Progress, child: Name, parent: Name): Progress
    requires child in s.fields && parent in s.fields && child in s.conditions && parent in s.conditions
  {
    Progress(s.fields[child := InheritFields(s.fields[child], s.fields[parent])],
             s.conditions[child := s.conditions[child].OrElse(s.conditions[parent])],
             s.done)
  }

  /** The end of a visit: an explicit null condition is dropped and the preset is finished. */
  function Finish(s: Progress, n: Name): Progress
    requires n in s.conditions
  {
    Progress(s.fields, s.conditions[n := DropNull(s.conditions[n])], if n in s.done then s.done else s.done + [n])
  }

  /** One call of VisitPreset; path is the set of presets in progress. None is a reported error. */
  function Visit(w: World, s: Progress, n: Name, path: set<Name>): (r: Option<Progress>)
    requires n in w.decls && Complete(w, s)
    ensures r.Some? ==> Complete(w, r.value)
    decreases w.decls.Keys - path, 0
  {
    if n in path || "" in s.fields[n].environment then None
    else
      var t := VisitParents(w, s, n, 0, path + {n});
      if t.None? || !Checked(w, n, t.value.fields[n]) then None else Some(Finish(t.value, n))
  }

  /** The loop of VisitPreset over the parents, from the i-th parent on. */
  function VisitParents(w: World, s: Progress, n: Name, i: nat, path: set<Name>): (r: Option<Progress>)
    requires n in w.decls && Complete(w, s) && i <= |w.decls[n].inherits|
    ensures r.Some? ==> Complete(w, r.value)
    decreases w.decls.Keys - path, |w.decls[n].inherits| - i + 1
  {
    if i == |w.decls[n].inherits| then Some(s)
    else
      var parent := w.decls[n].inherits[i];
      if !ParentAllowed(w, n, parent) then None
      else
        var t := Visit(w, s, parent, path);
        if t.None? then None else VisitParents(w, Inherit(t.value, n, parent), n, i + 1, path)
  }

  /** ComputePresetInheritance: the presets are visited one after another, each with nothing in progress. */
  function VisitAll(w: World, s: Progress, names: seq<Name>): (r: Option<Progress>)
    requires Complete(w, s) && forall n | n in names :: n in w.decls
    ensures r.Some? ==> Complete(w, r.value)
    decreases |names|
  {
    if names == [] then Some(s)
    else
      var t := Visit(w, s, names[0], {});
      if t.None? then None else VisitAll(w, t.value, names[1..])
  }

  lemma VisitParentsStep(w: World, s: Progress, n: Name, i: nat, path: set<Name>)
    requires n in w.decls && Complete(w, s) && i < |w.decls[n].inherits|
    ensures var parent := w.decls[n].inherits[i];
            if ParentAllowed(w, n, parent) && Visit(w, s, parent, path).Some? then
              VisitParents(w, s, n, i, path) ==
              VisitParents(w, Inherit(Visit(w, s, parent, path).value, n, parent), n, i + 1, path)
            else VisitParents(w, s, n, i, path) == None
  {
  }

  /** A successful visit, taken apart: r is what the parents leave. */
  lemma VisitTaken(w: World, s: Progress, n: Name, path: set<Name>, t: Progress) returns (r: Progress)
    requires n in w.decls && Complete(w, s) && Visit(w, s, n, path) == Some(t)
    ensures n !in path && "" !in s.fields[n].environment
    ensures Complete(w, r) && VisitParents(w, s, n, 0, path + {n}) == Some(r) && Checked(w, n, r.fields[n])
    ensures t == Finish(r, n)
  {
    r := VisitParents(w, s, n, 0, path + {n}).value;
  }

  /** One turn of the loop over the parents, taken apart: t is what the visit to the parent leaves, u what is left after
      inheriting from it. */
  lemma ParentTaken(w: World, s: Progress, n: Name, i: nat, path: set<Name>, r: Progress)
    returns (t: Progress, u: Progress)
    requires n in w.decls && Complete(w, s) && i < |w.decls[n].inherits| && VisitParents(w, s, n, i, path) == Some(r)
    ensures ParentAllowed(w, n, w.decls[n].inherits[i])
    ensures Complete(w, t) && Visit(w, s, w.decls[n].inherits[i], path) == Some(t)
    ensures Complete(w, u) && u == Inherit(t, n, w.decls[n].inherits[i])
    ensures VisitParents(w, u, n, i + 1, path) == Some(r)
  {
    VisitParentsStep(w, s, n, i, path);
    t := Visit(w, s, w.decls[n].inherits[i], path).value;
    u := Inherit(t, n, w.decls[n].inherits[i]);
  }

  /** The first visit of a pass, taken apart: t is what it leaves. */
  lemma FirstTaken(w: World, s: Progress, names: seq<Name>, r: Progress) returns (t: Progress)
    requires Complete(w, s) && names != [] && (forall n | n in names :: n in w.decls)
    requires VisitAll(w, s, names) == Some(r)
    ensures Complete(w, t) && Visit(w, s, names[0], {}) == Some(t) && VisitAll(w, t, names[1..]) == Some(r)
  {
    t := Visit(w, s, names[0], {}).value;
  }

  // ---- What is finished is resolved ----

  ghost predicate SettledPreset(w: World, s: Progress, n: Name)
    requires n in w.decls && Complete(w, s)
  {
    && Resolves(w.own[n], w.decls[n].inherits, s.fields, s.fields[n])
    && Acceptable(w, n, s.fields[n])
    && "" !in s.fields[n].environment
  }

  /** The finished presets, each after its parents, are resolved and accepted. */
  ghost predicate Settled(w: World, s: Progress) {
    && Complete(w, s)
    && Ordered(Parents(w), s.done)
    && forall n {:trigger SettledPreset(w, s, n)} | n in s.done && n in w.decls :: SettledPreset(w, s, n)
  }

  /** Presets neither finished nor in progress still have their own values. */
  predicate Untouched(w: World, s: Progress, path: set<Name>)
    requires Complete(w, s)
  {
    forall n {:trigger s.fields[n]} | n in w.decls && n !in s.done && n !in path :: s.fields[n] == w.own[n]
  }

  predicate Disjoint(path: set<Name>, done: seq<Name>) {
    forall n | n in path :: n !in done
  }

  /** A state in which presets may be visited, with those of path in progress. */
  ghost predicate Ready(w: World, s: Progress, path: set<Name>) {
    Settled(w, s) && Disjoint(path, s.done) && Untouched(w, s, path)
  }

  /** From s to t the finished presets kept their fields, and so did the presets of kept. */
  ghost predicate Keeps(w: World, s: Progress, t: Progress, kept: set<Name>)
    requires Complete(w, s) && Complete(w, t)
  {
    s.done <= t.done && forall m {:trigger t.fields[m]} | m in w.decls && (m in kept || m in s.done) ::
      t.fields[m] == s.fields[m]
  }

  lemma KeepsTransitive(w: World, s: Progress, t: Progress, u: Progress, kept: set<Name>)
    requires Complete(w, s) && Complete(w, t) && Complete(w, u) && Keeps(w, s, t, kept) && Keeps(w, t, u, kept)
    ensures Keeps(w, s, u, kept)
  {
  }

  /** The first i parents have been inherited from. */
  ghost predicate Inherited(w: World, s: Progress, n: Name, i: nat)
    requires Complete(w, s)
  {
    && n in w.decls && i <= |w.decls[n].inherits|
    && (forall j | 0 <= j < i :: w.decls[n].inherits[j] in s.done && ParentAllowed(w, n, w.decls[n].inherits[j]))
    && Resolves(w.own[n], w.decls[n].inherits[..i], s.fields, s.fields[n])
  }

  lemma ParentsAreDone(w: World, s: Progress, k: nat, j: nat)
    requires Settled(w, s)
    requires k < |s.done| && s.done[k] in w.decls && j < |w.decls[s.done[k]].inherits|
    ensures var parent := w.decls[s.done[k]].inherits[j];
            ParentAllowed(w, s.done[k], parent) && parent in s.done[..k] && parent in s.done
  {
    var n := s.done[k];
    assert SettledPreset(w, s, n);
    var parent := w.decls[n].inherits[j];
    assert ParentAllowed(w, n, parent);
    assert parent in Parents(w)[s.done[k]];
    assert parent in Elements(s.done[..k]);
  }

  /** Being settled is about the fields of the finished presets only. */
  lemma SettledFrame(w: World, s: Progress, t: Progress)
    requires Settled(w, s) && Complete(w, t) && t.done == s.done
    requires forall n | n in s.done && n in w.decls :: t.fields[n] == s.fields[n]
    ensures Settled(w, t)
  {
    forall n | n in s.done && n in w.decls ensures SettledPreset(w, t, n) {
      var k :| 0 <= k < |s.done| && s.done[k] == n;
      assert SettledPreset(w, s, n);
      forall j | 0 <= j < |w.decls[n].inherits|
        ensures w.decls[n].inherits[j] in t.fields
        ensures s.fields[w.decls[n].inherits[j]] == t.fields[w.decls[n].inherits[j]]
      {
        ParentsAreDone(w, s, k, j);
      }
      ResolvesFrame(w.own[n], w.decls[n].inherits, s.fields, t.fields, t.fields[n]);
    }
  }

  // ---- Visiting a finished preset again ----

  /** From s to t at most conditions have changed. */
  predicate SameFields(w: World, s: Progress, t: Progress) {
    Complete(w, t) && t.done == s.done && t.fields == s.fields
  }

  /** A finished preset can be visited again: the visit succeeds, and no field and no map entry of any preset
      changes. */
  lemma {:induction false} RevisitKeeps(w: World, s: Progress, k: nat, path: set<Name>) returns (t: Progress)
    requires Settled(w, s) && k < |s.done| && s.done[k] in w.decls
    requires forall j | 0 <= j <= k :: s.done[j] !in path
    ensures Visit(w, s, s.done[k], path) == Some(t) && SameFields(w, s, t)
    decreases w.decls.Keys - path, 0
  {
    var n := s.done[k];
    assert SettledPreset(w, s, n);
    var r := RevisitParents(w, s, k, path + {n});
    t := Finish(r, n);
  }

  lemma {:induction false} RevisitParents(w: World, s: Progress, k: nat, path: set<Name>) returns (r: Progress)
    requires Settled(w, s) && k < |s.done| && s.done[k] in w.decls && forall j | 0 <= j < k :: s.done[j] !in path
    ensures SameFields(w, s, r) && VisitParents(w, s, s.done[k], 0, path) == Some(r)
    decreases w.decls.Keys - path, 3
  {
    r := s;
    var i: nat := 0;
    while i < |w.decls[s.done[k]].inherits|
      invariant i <= |w.decls[s.done[k]].inherits| && SameFields(w, s, r)
      invariant VisitParents(w, s, s.done[k], 0, path) == VisitParents(w, r, s.done[k], i, path)
    {
      r := RevisitTurn(w, s, r, k, i, path);
      i := i + 1;
    }
  }

  /** The i-th turn of the loop over the parents of a finished preset, when u differs from s in conditions at most. */
  lemma {:induction false} RevisitTurn(w: World, s: Progress, u: Progress, k: nat, i: nat, path: set<Name>)
    returns (v: Progress)
    requires Settled(w, s) && k < |s.done| && s.done[k] in w.decls && SameFields(w, s, u)
    requires i < |w.decls[s.done[k]].inherits| && forall j | 0 <= j < k :: s.done[j] !in path
    ensures SameFields(w, s, v)
    ensures VisitParents(w, u, s.done[k], i, path) == VisitParents(w, v, s.done[k], i + 1, path)
    decreases w.decls.Keys - path, 2
  {
    SettledFrame(w, s, u);
    v := RevisitParent(w, u, k, i, path);
  }

  /** Visiting a parent of a finished preset again and inheriting from it again; v is what that leaves. */
  lemma {:induction false} RevisitParent(w: World, u: Progress, k: nat, i: nat, path: set<Name>) returns (v: Progress)
    requires Settled(w, u) && k < |u.done| && u.done[k] in w.decls
    requires i < |w.decls[u.done[k]].inherits| && forall j | 0 <= j < k :: u.done[j] !in path
    ensures SameFields(w, u, v)
    ensures VisitParents(w, u, u.done[k], i, path) == VisitParents(w, v, u.done[k], i + 1, path)
    decreases w.decls.Keys - path, 1
  {
    ParentsAreDone(w, u, k, i);
    var j :| 0 <= j < k && u.done[j] == w.decls[u.done[k]].inherits[i];
    var t := RevisitKeeps(w, u, j, path);
    v := RevisitStep(w, u, t, k, i);
    VisitParentsStep(w, u, u.done[k], i, path);
  }

  lemma RevisitStep(w: World, s: Progress, t: Progress, k: nat, i: nat) returns (u: Progress)
    requires Settled(w, s) && k < |s.done| && s.done[k] in w.decls && i < |w.decls[s.done[k]].inherits|
    requires SameFields(w, s, t) && w.decls[s.done[k]].inherits[i] in w.decls
    ensures u == Inherit(t, s.done[k], w.decls[s.done[k]].inherits[i]) && SameFields(w, s, u)
  {
    var n := s.done[k];
    assert SettledPreset(w, s, n);
    InheritAgain(w.own[n], w.decls[n].inherits, s.fields, s.fields[n], i);
    u := Inherit(t, n, w.decls[n].inherits[i]);
    assert u.fields == s.fields;
  }

  // ---- A successful visit resolves ----

  lemma {:induction false} VisitSettles(w: World, s: Progress, n: Name, path: set<Name>, t: Progress)
    requires Ready(w, s, path) && n in w.decls && Visit(w, s, n, path) == Some(t)
    ensures Complete(w, t) && Ready(w, t, path) && Keeps(w, s, t, path) && n in t.done
    decreases w.decls.Keys - path, 1
  {
    if n in s.done {
      RevisitSettles(w, s, n, path);
    } else {
      FirstVisitSettles(w, s, n, path, t);
    }
  }

  lemma {:induction false} FirstVisitSettles(w: World, s: Progress, n: Name, path: set<Name>, t: Progress)
    requires Ready(w, s, path) && n in w.decls && n !in s.done && Visit(w, s, n, path) == Some(t)
    ensures Complete(w, t) && Ready(w, t, path) && Keeps(w, s, t, path) && n in t.done
    decreases w.decls.Keys - path, 0
  {
    var r := VisitTaken(w, s, n, path, t);
    StartsReady(w, s, n, path);
    ParentsSettle(w, s, n, 0, path + {n}, r);
    assert path + {n} - {n} == path;
    FinishSettles(w, r, n, path);
    KeepsTransitive(w, s, r, t, path);
  }

  /** A first visit may look at the parents. */
  lemma StartsReady(w: World, s: Progress, n: Name, path: set<Name>)
    requires Ready(w, s, path) && n in w.decls && n !in s.done && n !in path
    ensures Ready(w, s, path + {n}) && Inherited(w, s, n, 0) && s.fields[n] == w.own[n]
  {
    FreshlyInherited(w, s, n);
  }

  lemma RevisitSettles(w: World, s: Progress, n: Name, path: set<Name>)
    requires Ready(w, s, path) && n in w.decls && n in s.done
    ensures Visit(w, s, n, path).Some?
    ensures var t := Visit(w, s, n, path).value;
            t.done == s.done && t.fields == s.fields && Ready(w, t, path) && Keeps(w, s, t, path)
  {
    var k :| 0 <= k < |s.done| && s.done[k] == n;
    var t := RevisitKeeps(w, s, k, path);
    SettledFrame(w, s, t);
  }

  lemma FreshlyInherited(w: World, s: Progress, n: Name)
    requires Complete(w, s) && n in w.decls && s.fields[n] == w.own[n]
    ensures Inherited(w, s, n, 0)
  {
    assert w.decls[n].inherits[..0] == [];
    ResolvesAlone(w.own[n], s.fields);
  }

  /** The first visit to a preset, taken apart. */
  lemma FirstVisit(w: World, s: Progress, n: Name, path: set<Name>, t: Progress) returns (r: Progress)
    requires Ready(w, s, path) && n in w.decls && n !in s.done && Visit(w, s, n, path) == Some(t)
    ensures n !in path && Ready(w, s, path + {n}) && Inherited(w, s, n, 0) && path + {n} - {n} == path
    ensures Complete(w, r) && VisitParents(w, s, n, 0, path + {n}) == Some(r)
    ensures Ready(w, r, path + {n}) && t == Finish(r, n)
  {
    r := VisitTaken(w, s, n, path, t);
    StartsReady(w, s, n, path);
    ParentsSettle(w, s, n, 0, path + {n}, r);
  }

  /** After the last parent and the check, one more preset is settled. */
  lemma FinishSettles(w: World, t: Progress, n: Name, path: set<Name>)
    requires Ready(w, t, path + {n}) && n in w.decls && n !in path
    requires Inherited(w, t, n, |w.decls[n].inherits|) && "" !in w.own[n].environment && Checked(w, n, t.fields[n])
    ensures Ready(w, Finish(t, n), path) && Keeps(w, t, Finish(t, n), path)
  {
    var u := Finish(t, n);
    AllParentsDone(w, t, n);
    OrderedSnoc(Parents(w), t.done, n);
    NoEmptyName(w, t, n);
    assert w.decls[n].inherits[..|w.decls[n].inherits|] == w.decls[n].inherits;
    assert SettledPreset(w, u, n);
    forall m | m in t.done && m in w.decls ensures SettledPreset(w, u, m) {
      assert SettledPreset(w, t, m);
    }
  }

  lemma AllParentsDone(w: World, t: Progress, n: Name)
    requires Complete(w, t) && n in w.decls && Inherited(w, t, n, |w.decls[n].inherits|)
    ensures Parents(w)[n] <= Elements(t.done)
  {
    forall p | p in Parents(w)[n] ensures p in Elements(t.done) {
      var j :| 0 <= j < |w.decls[n].inherits| && w.decls[n].inherits[j] == p;
    }
  }

  lemma NoEmptyName(w: World, t: Progress, n: Name)
    requires Settled(w, t) && n in w.decls && Inherited(w, t, n, |w.decls[n].inherits|) && "" !in w.own[n].environment
    ensures "" !in t.fields[n].environment
  {
    var parents := w.decls[n].inherits;
    assert parents[..|parents|] == parents;
    forall i | 0 <= i < |parents| ensures "" !in t.fields[parents[i]].environment {
      assert parents[i] in t.done;
      assert SettledPreset(w, t, parents[i]);
    }
    NothingToInherit(w.own[n], parents, t.fields, t.fields[n], "");
  }

  lemma {:induction false} ParentsSettle(w: World, s: Progress, n: Name, i: nat, path: set<Name>, r: Progress)
    requires Ready(w, s, path) && n in path && Inherited(w, s, n, i) && VisitParents(w, s, n, i, path) == Some(r)
    ensures Complete(w, r) && Ready(w, r, path) && Inherited(w, r, n, |w.decls[n].inherits|)
    ensures Keeps(w, s, r, path - {n})
    decreases w.decls.Keys - path, |w.decls[n].inherits| - i + 2
  {
    if i < |w.decls[n].inherits| {
      var t, u := ParentTaken(w, s, n, i, path, r);
      VisitSettles(w, s, w.decls[n].inherits[i], path, t);
      InheritedStep(w, s, t, n, i, path);
      ParentsSettle(w, u, n, i + 1, path, r);
      KeepsTransitive(w, s, u, r, path - {n});
    }
  }

  /** One more parent inherited from. */
  lemma InheritedStep(w: World, s: Progress, t: Progress, n: Name, i: nat, path: set<Name>)
    requires Complete(w, s) && Ready(w, t, path) && n in path && Keeps(w, s, t, path)
    requires Inherited(w, s, n, i) && i < |w.decls[n].inherits| && w.decls[n].inherits[i] in t.done
    requires ParentAllowed(w, n, w.decls[n].inherits[i])
    ensures var u := Inherit(t, n, w.decls[n].inherits[i]);
            Ready(w, u, path) && Keeps(w, s, u, path - {n}) && Inherited(w, u, n, i + 1)
  {
    InheritKeepsReady(w, s, t, n, w.decls[n].inherits[i], path);
    InheritedResolves(w, s, t, n, i);
  }

  lemma InheritKeepsReady(w: World, s: Progress, t: Progress, n: Name, parent: Name, path: set<Name>)
    requires Complete(w, s) && Ready(w, t, path) && n in path && n in w.decls && parent in w.decls
    requires Keeps(w, s, t, path)
    ensures Ready(w, Inherit(t, n, parent), path) && Keeps(w, s, Inherit(t, n, parent), path - {n})
  {
    OthersUntouched(w, t, n, parent);
    SettledFrame(w, t, Inherit(t, n, parent));
  }

  lemma OthersUntouched(w: World, t: Progress, n: Name, parent: Name)
    requires Complete(w, t) && n in w.decls && parent in w.decls
    ensures Complete(w, Inherit(t, n, parent))
    ensures forall m {:trigger Inherit(t, n, parent).fields[m]} | m in w.decls && m != n ::
              Inherit(t, n, parent).fields[m] == t.fields[m]
  {
  }

  lemma InheritedResolves(w: World, s: Progress, t: Progress, n: Name, i: nat)
    requires Complete(w, s) && Complete(w, t) && n !in t.done && Keeps(w, s, t, {n})
    requires Inherited(w, s, n, i) && i < |w.decls[n].inherits| && w.decls[n].inherits[i] in t.done
    requires ParentAllowed(w, n, w.decls[n].inherits[i])
    ensures Inherited(w, Inherit(t, n, w.decls[n].inherits[i]), n, i + 1)
  {
    var u := Inherit(t, n, w.decls[n].inherits[i]);
    FirstParentsKept(w, s, t, n, i);
    ResolvedByOneMore(w, t, n, i);
    var upTo := w.decls[n].inherits[..i + 1];
    forall j | 0 <= j < |upTo| ensures upTo[j] in u.fields && t.fields[upTo[j]] == u.fields[upTo[j]] {
      assert upTo[j] == w.decls[n].inherits[j];
    }
    ResolvesFrame(w.own[n], upTo, t.fields, u.fields, u.fields[n]);
  }

  lemma ResolvedByOneMore(w: World, t: Progress, n: Name, i: nat)
    requires Complete(w, t) && n in w.decls && i < |w.decls[n].inherits| && w.decls[n].inherits[i] in w.decls
    requires Resolves(w.own[n], w.decls[n].inherits[..i], t.fields, t.fields[n])
    ensures Resolves(w.own[n], w.decls[n].inherits[..i + 1], t.fields,
                     InheritFields(t.fields[n], t.fields[w.decls[n].inherits[i]]))
  {
    assert w.decls[n].inherits[..i + 1] == w.decls[n].inherits[..i] + [w.decls[n].inherits[i]];
    ResolvesStep(w.own[n], w.decls[n].inherits[..i], t.fields, t.fields[n], w.decls[n].inherits[i]);
  }

  /** What was inherited before is still what the parents have. */
  lemma FirstParentsKept(w: World, s: Progress, t: Progress, n: Name, i: nat)
    requires Complete(w, s) && Complete(w, t) && Keeps(w, s, t, {n}) && Inherited(w, s, n, i)
    ensures Resolves(w.own[n], w.decls[n].inherits[..i], t.fields, t.fields[n])
    ensures forall j | 0 <= j < i :: w.decls[n].inherits[j] in w.decls && w.decls[n].inherits[j] in s.done
  {
    var init := w.decls[n].inherits[..i];
    forall j | 0 <= j < i ensures init[j] in w.decls && init[j] in s.done {
      assert init[j] == w.decls[n].inherits[j];
    }
    ResolvesFrame(w.own[n], init, s.fields, t.fields, t.fields[n]);
  }

  // ---- A reported error is justified ----

  /** Every resolution gives the finished presets the values they have. */
  lemma {:induction false} ResolutionsAgree(w: World, s: Progress, r: FieldTable, k: nat)
    requires Settled(w, s) && IsResolution(w, r) && k < |s.done|
    ensures s.done[k] in w.decls && r[s.done[k]] == s.fields[s.done[k]]
  {
    var n := s.done[k];
    assert n in Parents(w);
    forall i | 0 <= i < |w.decls[n].inherits|
      ensures w.decls[n].inherits[i] in w.decls && r[w.decls[n].inherits[i]] == s.fields[w.decls[n].inherits[i]]
    {
      ParentsAreDone(w, s, k, i);
      var j :| 0 <= j < k && s.done[j] == w.decls[n].inherits[i];
      ResolutionsAgree(w, s, r, j);
    }
    ResolutionMatches(w, s, r, n);
  }

  /** A preset with settled parents gets the same fields in every resolution that agrees on the parents. */
  lemma ResolutionMatches(w: World, s: Progress, r: FieldTable, n: Name)
    requires Complete(w, s) && IsResolution(w, r) && n in w.decls
    requires Resolves(w.own[n], w.decls[n].inherits, s.fields, s.fields[n])
      || (n in s.done && Settled(w, s))
    requires forall i | 0 <= i < |w.decls[n].inherits| ::
               w.decls[n].inherits[i] in w.decls && r[w.decls[n].inherits[i]] == s.fields[w.decls[n].inherits[i]]
    ensures r[n] == s.fields[n]
  {
    if n in s.done && Settled(w, s) {
      assert SettledPreset(w, s, n);
    }
    ResolvesUnique(w.own[n], w.decls[n].inherits, r, s.fields, r[n], s.fields[n]);
  }

  /** The presets in progress form a chain of inheritance edges, the outermost first. */
  ghost predicate IsStack(w: World, stack: seq<Name>, path: set<Name>) {
    Elements(stack) == path && (stack != [] ==> IsWalk(Parents(w), stack))
  }

  lemma {:induction false} VisitFails(w: World, s: Progress, n: Name, path: set<Name>, stack: seq<Name>)
    requires Ready(w, s, path) && n in w.decls
    requires IsStack(w, stack, path) && (stack != [] ==> n in Parents(w)[stack[|stack| - 1]])
    requires Visit(w, s, n, path).None?
    ensures !Inheritable(w)
    decreases w.decls.Keys - path, 0
  {
    if n in s.done {
      RevisitSettles(w, s, n, path);
    } else if n in path {
      StackCloses(w, stack, n);
    } else if "" in w.own[n].environment {
      InheritableIsAcceptable(w, n);
    } else {
      FreshlyInherited(w, s, n);
      StackPush(w, stack, n, path);
      if VisitParents(w, s, n, 0, path + {n}).None? {
        ParentsFail(w, s, n, 0, path + {n}, stack + [n]);
      } else {
        var r := VisitParents(w, s, n, 0, path + {n}).value;
        ParentsSettle(w, s, n, 0, path + {n}, r);
        InheritableIsChecked(w, r, n);
      }
    }
  }

  lemma StackPush(w: World, stack: seq<Name>, n: Name, path: set<Name>)
    requires n in w.decls && IsStack(w, stack, path) && (stack != [] ==> n in Parents(w)[stack[|stack| - 1]])
    ensures IsStack(w, stack + [n], path + {n})
  {
    ElementsSnoc(stack, n);
    var longer := stack + [n];
    forall i | 0 <= i < |longer| - 1 ensures longer[i + 1] in Parents(w)[longer[i]] {
    }
  }

  lemma StackCloses(w: World, stack: seq<Name>, n: Name)
    requires n in stack && IsWalk(Parents(w), stack) && n in Parents(w)[stack[|stack| - 1]]
    ensures !Acyclic(Parents(w))
  {
    var i :| 0 <= i < |stack| && stack[i] == n;
    var loop := stack[i..] + [n];
    assert loop[0] == loop[|loop| - 1];
    assert IsWalk(Parents(w), loop);
  }

  lemma InheritableIsAcceptable(w: World, n: Name)
    requires n in w.decls
    ensures Inheritable(w) ==> exists p :: Acceptable(w, n, p)
  {
    if Inheritable(w) {
      var r :| IsResolution(w, r);
      assert Acceptable(w, n, r[n]);
    }
  }

  lemma InheritableIsChecked(w: World, t: Progress, n: Name)
    requires Settled(w, t) && n in w.decls && Inherited(w, t, n, |w.decls[n].inherits|)
    ensures Inheritable(w) ==> Checked(w, n, t.fields[n])
  {
    if Inheritable(w) {
      var r :| IsResolution(w, r);
      InheritedMatches(w, t, r, n);
      assert Acceptable(w, n, r[n]);
    }
  }

  lemma InheritedMatches(w: World, t: Progress, r: FieldTable, n: Name)
    requires Settled(w, t) && n in w.decls && Inherited(w, t, n, |w.decls[n].inherits|) && IsResolution(w, r)
    ensures r[n] == t.fields[n]
  {
    var parents := w.decls[n].inherits;
    assert parents[..|parents|] == parents;
    forall i | 0 <= i < |parents| ensures parents[i] in w.decls && r[parents[i]] == t.fields[parents[i]] {
      assert parents[i] in t.done;
      FinishedMatches(w, t, r, parents[i]);
    }
    ResolutionMatches(w, t, r, n);
  }

  lemma {:induction false} ParentsFail(w: World, s: Progress, n: Name, i: nat, path: set<Name>, stack: seq<Name>)
    requires Ready(w, s, path) && n in path
    requires Inherited(w, s, n, i)
    requires IsStack(w, stack, path) && stack != [] && stack[|stack| - 1] == n
    requires VisitParents(w, s, n, i, path).None?
    ensures !Inheritable(w)
    decreases w.decls.Keys - path, |w.decls[n].inherits| - i + 1
  {
    var parent := w.decls[n].inherits[i];
    if !ParentAllowed(w, n, parent) {
      InheritableIsAcceptable(w, n);
    } else {
      assert parent in Parents(w)[n];
      if Visit(w, s, parent, path).None? {
        VisitFails(w, s, parent, path, stack);
      } else {
        var t := Visit(w, s, parent, path).value;
        VisitSettles(w, s, parent, path, t);
        InheritedStep(w, s, t, n, i, path);
        ParentsFail(w, Inherit(t, n, parent), n, i + 1, path, stack);
      }
    }
  }

  // ---- The whole computation ----

  lemma {:induction false} VisitAllSettles(w: World, s: Progress, names: seq<Name>)
    requires Ready(w, s, {}) && forall n | n in names :: n in w.decls
    ensures VisitAll(w, s, names).None? ==> !Inheritable(w)
    ensures VisitAll(w, s, names).Some? ==>
              var t := VisitAll(w, s, names).value;
              Settled(w, t) && s.done <= t.done && forall n | n in names :: n in t.done
    decreases |names|
  {
    if names != [] {
      if Visit(w, s, names[0], {}).None? {
        VisitFails(w, s, names[0], {}, []);
      } else {
        var t := Visit(w, s, names[0], {}).value;
        VisitSettles(w, s, names[0], {}, t);
        VisitAllSettles(w, t, names[1..]);
        assert forall n | n in names :: n == names[0] || n in names[1..];
      }
    }
  }

  /** What VisitAll leaves when every preset is visited. */
  lemma AllSettled(w: World, names: seq<Name>)
    requires Elements(names) == w.decls.Keys
    requires VisitAll(w, Start(w), names).Some?
    ensures var t := VisitAll(w, Start(w), names).value;
            Settled(w, t) && IsResolution(w, t.fields) && forall n | n in w.decls :: n in t.done
  {
    assert forall n | n in names :: n in Elements(names);
    VisitAllSettles(w, Start(w), names);
    var t := VisitAll(w, Start(w), names).value;
    forall n | n in w.decls ensures n in t.done && SettledPreset(w, t, n) {
      assert n in Elements(names);
    }
  }

  /** ComputePresetInheritance succeeds exactly when inheritance is well defined. Then it gives every preset its
      graph meaning, which is the only one, whatever the order of the presets and however often one is revisited. */
  lemma InheritanceIsResolution(w: World, names: seq<Name>)
    requires Elements(names) == w.decls.Keys
    ensures forall n | n in names :: n in w.decls
    ensures VisitAll(w, Start(w), names).Some? <==> Inheritable(w)
    ensures VisitAll(w, Start(w), names).Some? ==>
              forall r :: IsResolution(w, r) <==> r == VisitAll(w, Start(w), names).value.fields
  {
    assert forall n | n in names :: n in Elements(names);
    VisitAllSettles(w, Start(w), names);
    if VisitAll(w, Start(w), names).Some? {
      AllSettled(w, names);
      var t := VisitAll(w, Start(w), names).value;
      SettledIsAcyclic(w, t);
      forall r | IsResolution(w, r) ensures r == t.fields {
        OnlyResolution(w, t, r);
      }
    }
  }

  lemma OnlyResolution(w: World, t: Progress, r: FieldTable)
    requires Settled(w, t) && IsResolution(w, r) && forall n | n in w.decls :: n in t.done
    ensures r == t.fields
  {
    forall n | n in w.decls.Keys ensures r[n] == t.fields[n] {
      FinishedMatches(w, t, r, n);
    }
    SameTables(r, t.fields, w.decls.Keys);
  }

  lemma SameTables(r: FieldTable, q: FieldTable, names: set<Name>)
    requires r.Keys == names && q.Keys == names && forall n | n in names :: r[n] == q[n]
    ensures r == q
  {
  }

  lemma FinishedMatches(w: World, t: Progress, r: FieldTable, n: Name)
    requires Settled(w, t) && IsResolution(w, r) && n in t.done
    ensures n in w.decls && r[n] == t.fields[n]
  {
    var k :| 0 <= k < |t.done| && t.done[k] == n;
    ResolutionsAgree(w, t, r, k);
  }

  lemma SettledIsAcyclic(w: World, t: Progress)
    requires Settled(w, t) && forall n | n in w.decls :: n in t.done
    ensures Acyclic(Parents(w))
  {
    forall v | IsWalk(Parents(w), v) && |v| > 1 ensures v[0] != v[|v| - 1] {
      OrderedHasNoCycle(Parents(w), t.done, v);
    }
  }

  /** Two orders of visiting succeed alike and leave the same fields. */
  lemma VisitOrderIrrelevant(w: World, names: seq<Name>, names': seq<Name>)
    requires Elements(names) == w.decls.Keys && Elements(names') == w.decls.Keys
    ensures forall n | n in names + names' :: n in w.decls
    ensures var a, b := VisitAll(w, Start(w), names), VisitAll(w, Start(w), names');
            (a.Some? <==> b.Some?) && (a.Some? ==> a.value.fields == b.value.fields)
  {
    InheritanceIsResolution(w, names);
    InheritanceIsResolution(w, names');
    var a := VisitAll(w, Start(w), names);
    if a.Some? {
      assert IsResolution(w, a.value.fields);
    }
  }

  /** The presets as inheritance left them, taken as if they had just been read. */
  function Reread(w: World, t: Progress): World
    requires Complete(w, t)
  {
    w.(own := t.fields, ownConditions := t.conditions)
  }

  /** A second full pass over the resolved fields succeeds and changes none of them. */
  lemma SecondPassKeeps(w: World, names: seq<Name>, again: seq<Name>)
    requires Elements(names) == w.decls.Keys && Elements(again) == w.decls.Keys
    requires VisitAll(w, Start(w), names).Some?
    ensures var t := VisitAll(w, Start(w), names).value;
            var u := VisitAll(Reread(w, t), Start(Reread(w, t)), again);
            u.Some? && u.value.fields == t.fields
  {
    AllSettled(w, names);
    var t := VisitAll(w, Start(w), names).value;
    ResolvedAgain(w, t);
    InheritanceIsResolution(Reread(w, t), again);
  }

  lemma ResolvedAgain(w: World, t: Progress)
    requires Settled(w, t) && forall n | n in w.decls :: n in t.done
    ensures Inheritable(Reread(w, t)) && IsResolution(Reread(w, t), t.fields)
  {
    var w2 := Reread(w, t);
    assert Parents(w2) == Parents(w);
    SettledIsAcyclic(w, t);
    forall n | n in w2.decls
      ensures Acceptable(w2, n, t.fields[n]) && Resolves(w2.own[n], w2.decls[n].inherits, t.fields, t.fields[n])
    {
      assert SettledPreset(w, t, n);
      forall i | 0 <= i < |w.decls[n].inherits| ensures ParentAllowed(w2, n, w2.decls[n].inherits[i]) {
        assert ParentAllowed(w, n, w.decls[n].inherits[i]);
      }
      ResolvesAgain(w.own[n], w.decls[n].inherits, t.fields, t.fields[n]);
    }
    assert IsResolution(w2, t.fields);
  }

  /** If reachability of files is transitive, as ReadJSONFile leaves it, then not only the parents but every ancestor
      of a preset comes from a file reachable from the preset's file. */
  lemma {:induction false} AncestorsReachable(w: World, r: FieldTable, v: seq<Name>)
    requires IsResolution(w, r)
    requires forall f, g, h | f in w.files && g in w.files && g in w.files[f].reachableFiles
             && h in w.files[g].reachableFiles ::
               h in w.files[f].reachableFiles
    requires IsWalk(Parents(w), v) && |v| > 1
    ensures w.decls[v[|v| - 1]].originFile in w.files[w.decls[v[0]].originFile].reachableFiles
  {
    assert v[1] in Parents(w)[v[0]];
    assert Acceptable(w, v[0], r[v[0]]);
    var i :| 0 <= i < |w.decls[v[0]].inherits| && w.decls[v[0]].inherits[i] == v[1];
    assert ParentAllowed(w, v[0], w.decls[v[0]].inherits[i]);
    if |v| > 2 {
      AncestorsReachable(w, r, v[1..]);
    }
  }
}
