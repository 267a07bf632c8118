/** Conditions under inheritance. An explicit null condition is meant to stop a condition from being inherited, but it
    is dropped at the end of a visit, and presets are visited again by every child: the next visit inherits after
    all. */
module InheritedConditions {
  import opened Options
  import opened Digraph
  import opened ConditionTree
  import opened Presets
  import opened Inheritance
  import opened Sequences

  function At(m: ConditionTable, n: Name): Option<Condition> {
    if n in m then m[n] else None
  }

  function ParentConditions(parents: seq<Name>, m: ConditionTable): (cs: seq<Option<Condition>>)
    ensures |cs| == |parents| && forall i | 0 <= i < |parents| :: cs[i] == At(m, parents[i])
  {
    seq(|parents|, i requires 0 <= i < |parents| => At(m, parents[i]))
  }

  /** The condition n should have if its parents have theirs: its own, where an explicit null counts and means
      "none", or the first of its parents'. */
  function Intended(w: World, m: ConditionTable, n: Name): Option<Condition>
    requires n in w.decls
  {
    DropNull(FirstSet([w.ownConditions[n]] + ParentConditions(w.decls[n].inherits, m)))
  }

  /** The graph meaning of the conditions. */
  ghost predicate IsMeaning(w: World, m: ConditionTable) {
    m.Keys == w.decls.Keys && forall n {:trigger Intended(w, m, n)} | n in w.decls :: m[n] == Intended(w, m, n)
  }

  predicate IsParentOf(w: World, n: Name, child: Name) {
    child in w.decls && n in w.decls[child].inherits
  }

  ghost predicate HasChild(w: World, n: Name) {
    exists child :: IsParentOf(w, n, child)
  }

  /** A preset that blocks a condition with an explicit null, and has a child: its block does not hold. */
  ghost predicate LosesBlock(w: World, m: ConditionTable, n: Name, i: nat) {
    && n in w.decls && w.ownConditions[n] == Some(NullCondition) && HasChild(w, n)
    && i < |w.decls[n].inherits| && At(m, w.decls[n].inherits[i]).Some?
  }

  ghost predicate SomeBlockLost(w: World, m: ConditionTable) {
    exists n, i: nat :: LosesBlock(w, m, n, i)
  }

  lemma MeaningIsNeverNull(w: World, m: ConditionTable, n: Name)
    requires IsMeaning(w, m) && n in w.decls
    ensures m[n] != Some(NullCondition)
    ensures w.ownConditions[n] == Some(NullCondition) ==> m[n] == None
    ensures m[n] == None && w.ownConditions[n] != Some(NullCondition) ==>
              forall i | 0 <= i < |w.decls[n].inherits| :: At(m, w.decls[n].inherits[i]) == None
  {
    var offers := [w.ownConditions[n]] + ParentConditions(w.decls[n].inherits, m);
    FirstSetByPosition(offers);
    assert m[n] == Intended(w, m, n);
    if w.ownConditions[n] == Some(NullCondition) {
      assert offers[0] == w.ownConditions[n];
      assert FirstSet(offers) == offers[0];
    } else if FirstSet(offers) == Some(NullCondition) {
      assert m[n] == None;
      var i :| 0 <= i < |offers| && offers[i] == Some(NullCondition);
      ParentNeverNull(w, m, w.decls[n].inherits[i - 1]);
    } else if m[n] == None {
      forall i | 0 <= i < |w.decls[n].inherits| ensures At(m, w.decls[n].inherits[i]) == None {
        assert offers[i + 1] == At(m, w.decls[n].inherits[i]);
      }
    }
  }

  lemma ParentNeverNull(w: World, m: ConditionTable, n: Name)
    requires IsMeaning(w, m)
    ensures At(m, n) != Some(NullCondition)
  {
    if n in m {
      assert m[n] == Intended(w, m, n);
    }
  }

  // ---- No block lost: every visit leaves the intended conditions ----

  ghost predicate Exact(w: World, m: ConditionTable, s: Progress, path: set<Name>)
    requires Complete(w, s) && IsMeaning(w, m)
  {
    && (forall n {:trigger s.conditions[n]} | n in w.decls && n in s.done :: s.conditions[n] == m[n])
    && forall n {:trigger s.conditions[n]} | n in w.decls && n !in s.done && n !in path ::
      s.conditions[n] == w.ownConditions[n]
  }

  /** Taking a parent's condition again does nothing. */
  lemma InheritsNothingNew(w: World, m: ConditionTable, n: Name, i: nat)
    requires IsMeaning(w, m) && !SomeBlockLost(w, m) && n in w.decls && HasChild(w, n) && i < |w.decls[n].inherits|
    ensures m[n].OrElse(At(m, w.decls[n].inherits[i])) == m[n]
  {
    MeaningIsNeverNull(w, m, n);
    assert !LosesBlock(w, m, n, i);
  }

  /** Visiting a finished preset again does nothing at all. */
  lemma {:induction false} RevisitIsIdle(w: World, m: ConditionTable, s: Progress, k: nat, path: set<Name>)
    requires Settled(w, s) && k < |s.done| && s.done[k] in w.decls && forall j | 0 <= j <= k :: s.done[j] !in path
    requires IsMeaning(w, m) && !SomeBlockLost(w, m) && HasChild(w, s.done[k])
    requires forall n | n in w.decls && n in s.done :: s.conditions[n] == m[n]
    ensures Visit(w, s, s.done[k], path) == Some(s)
    decreases w.decls.Keys - path, 0
  {
    var n := s.done[k];
    assert SettledPreset(w, s, n);
    forall i: nat | i < |w.decls[n].inherits| ensures TurnIsIdle(w, s, n, i, path + {n}) {
      RevisitTurnIsIdle(w, m, s, k, i, path + {n});
    }
    AllTurnsIdle(w, s, n, path + {n});
    MeaningIsNeverNull(w, m, n);
    assert s.conditions[n := s.conditions[n]] == s.conditions;
  }

  /** The i-th turn of the loop over the parents does nothing. */
  ghost predicate TurnIsIdle(w: World, s: Progress, n: Name, i: nat, path: set<Name>)
    requires n in w.decls && i < |w.decls[n].inherits| && Complete(w, s)
  {
    VisitParents(w, s, n, i, path) == VisitParents(w, s, n, i + 1, path)
  }

  lemma AllTurnsIdle(w: World, s: Progress, n: Name, path: set<Name>)
    requires n in w.decls && Complete(w, s)
    requires forall j | 0 <= j < |w.decls[n].inherits| :: TurnIsIdle(w, s, n, j, path)
    ensures VisitParents(w, s, n, 0, path) == Some(s)
  {
    var i: nat := 0;
    while i < |w.decls[n].inherits|
      invariant i <= |w.decls[n].inherits| && VisitParents(w, s, n, 0, path) == VisitParents(w, s, n, i, path)
    {
      assert TurnIsIdle(w, s, n, i, path);
      i := i + 1;
    }
  }

  lemma {:induction false} RevisitTurnIsIdle(w: World, m: ConditionTable, s: Progress, k: nat, i: nat, path: set<Name>)
    requires Settled(w, s) && k < |s.done| && s.done[k] in w.decls && forall j | 0 <= j < k :: s.done[j] !in path
    requires IsMeaning(w, m) && !SomeBlockLost(w, m) && HasChild(w, s.done[k])
    requires forall n | n in w.decls && n in s.done :: s.conditions[n] == m[n]
    requires i < |w.decls[s.done[k]].inherits|
    ensures TurnIsIdle(w, s, s.done[k], i, path)
    decreases w.decls.Keys - path, 1
  {
    ParentsAreDone(w, s, k, i);
    var j :| 0 <= j < k && s.done[j] == w.decls[s.done[k]].inherits[i];
    assert IsParentOf(w, s.done[j], s.done[k]);
    RevisitIsIdle(w, m, s, j, path);
    InheritIsIdle(w, m, s, k, i);
    VisitParentsStep(w, s, s.done[k], i, path);
  }

  lemma InheritIsIdle(w: World, m: ConditionTable, s: Progress, k: nat, i: nat)
    requires Settled(w, s) && k < |s.done| && s.done[k] in w.decls && i < |w.decls[s.done[k]].inherits|
    requires IsMeaning(w, m) && !SomeBlockLost(w, m) && HasChild(w, s.done[k])
    requires forall n | n in w.decls && n in s.done :: s.conditions[n] == m[n]
    ensures w.decls[s.done[k]].inherits[i] in w.decls && Inherit(s, s.done[k], w.decls[s.done[k]].inherits[i]) == s
  {
    var n := s.done[k];
    ParentsAreDone(w, s, k, i);
    assert SettledPreset(w, s, n);
    InheritAgain(w.own[n], w.decls[n].inherits, s.fields, s.fields[n], i);
    InheritsNothingNew(w, m, n, i);
    var t := Inherit(s, n, w.decls[n].inherits[i]);
    assert t.fields == s.fields && t.conditions == s.conditions;
  }

  /** During the first visit, after i parents. */
  predicate PartlyIntended(w: World, m: ConditionTable, s: Progress, n: Name, i: nat)
    requires n in w.decls && Complete(w, s) && i <= |w.decls[n].inherits|
  {
    s.conditions[n] == FirstSet([w.ownConditions[n]] + ParentConditions(w.decls[n].inherits, m)[..i])
  }

  predicate KeepsConditions(w: World, s: Progress, t: Progress, kept: set<Name>)
    requires Complete(w, s) && Complete(w, t)
  {
    forall p {:trigger t.conditions[p]} | p in kept && p in w.decls :: t.conditions[p] == s.conditions[p]
  }

  lemma KeepsConditionsTransitive(w: World, s: Progress, t: Progress, u: Progress, kept: set<Name>)
    requires Complete(w, s) && Complete(w, t) && Complete(w, u)
    requires KeepsConditions(w, s, t, kept) && KeepsConditions(w, t, u, kept)
    ensures KeepsConditions(w, s, u, kept)
  {
  }

  lemma {:induction false} VisitIsExact(w: World, m: ConditionTable, s: Progress, n: Name, path: set<Name>, t: Progress)
    requires Ready(w, s, path) && n in w.decls && Visit(w, s, n, path) == Some(t) && Complete(w, t)
    requires IsMeaning(w, m) && !SomeBlockLost(w, m) && Exact(w, m, s, path) && (n in s.done ==> HasChild(w, n))
    ensures Exact(w, m, t, path) && KeepsConditions(w, s, t, path)
    decreases w.decls.Keys - path, 1
  {
    if n in s.done {
      var k :| 0 <= k < |s.done| && s.done[k] == n;
      RevisitIsIdle(w, m, s, k, path);
    } else {
      FirstVisitIsExact(w, m, s, n, path, t);
    }
  }

  lemma {:induction false} FirstVisitIsExact(w: World, m: ConditionTable, s: Progress, n: Name, path: set<Name>,
                                             t: Progress)
    requires Ready(w, s, path) && n in w.decls && Visit(w, s, n, path) == Some(t) && Complete(w, t)
    requires IsMeaning(w, m) && !SomeBlockLost(w, m) && Exact(w, m, s, path) && n !in s.done
    ensures Exact(w, m, t, path) && KeepsConditions(w, s, t, path)
    decreases w.decls.Keys - path, 0
  {
    var r := FirstVisit(w, s, n, path, t);
    FreshlyIntended(w, m, s, n);
    ParentsAreExact(w, m, s, n, 0, path + {n}, r);
    FinishIsExact(w, m, r, n, path);
    KeepsConditionsTransitive(w, s, r, t, path);
  }

  lemma FreshlyIntended(w: World, m: ConditionTable, s: Progress, n: Name)
    requires Complete(w, s) && n in w.decls && s.conditions[n] == w.ownConditions[n]
    ensures PartlyIntended(w, m, s, n, 0)
  {
    assert [w.ownConditions[n]] + ParentConditions(w.decls[n].inherits, m)[..0] == [w.ownConditions[n]];
    assert [w.ownConditions[n]][1..] == [];
  }

  lemma FinishIsExact(w: World, m: ConditionTable, t: Progress, n: Name, path: set<Name>)
    requires Complete(w, t) && n in w.decls && n !in t.done && n !in path
    requires IsMeaning(w, m) && Exact(w, m, t, path + {n}) && PartlyIntended(w, m, t, n, |w.decls[n].inherits|)
    ensures Exact(w, m, Finish(t, n), path) && KeepsConditions(w, t, Finish(t, n), path)
  {
    var all := ParentConditions(w.decls[n].inherits, m);
    assert all[..|w.decls[n].inherits|] == all;
    assert m[n] == Intended(w, m, n);
  }

  lemma {:induction false} ParentsAreExact(w: World, m: ConditionTable, s: Progress, n: Name, i: nat, path: set<Name>,
                                           r: Progress)
    requires Ready(w, s, path) && n in path && Inherited(w, s, n, i)
    requires VisitParents(w, s, n, i, path) == Some(r) && Complete(w, r)
    requires IsMeaning(w, m) && !SomeBlockLost(w, m) && Exact(w, m, s, path) && PartlyIntended(w, m, s, n, i)
    ensures Exact(w, m, r, path) && PartlyIntended(w, m, r, n, |w.decls[n].inherits|)
    ensures KeepsConditions(w, s, r, path - {n})
    decreases w.decls.Keys - path, |w.decls[n].inherits| - i + 2
  {
    if i < |w.decls[n].inherits| {
      var parent := w.decls[n].inherits[i];
      var t, u := ParentTaken(w, s, n, i, path, r);
      assert IsParentOf(w, parent, n);
      VisitIsExact(w, m, s, parent, path, t);
      VisitSettles(w, s, parent, path, t);
      StepIsExact(w, m, s, t, n, i, path);
      InheritedStep(w, s, t, n, i, path);
      ParentsAreExact(w, m, u, n, i + 1, path, r);
      KeepsConditionsTransitive(w, s, u, r, path - {n});
    }
  }

  lemma StepIsExact(w: World, m: ConditionTable, s: Progress, t: Progress, n: Name, i: nat, path: set<Name>)
    requires Complete(w, s) && Complete(w, t) && n in path && n in w.decls && n !in t.done && i < |w.decls[n].inherits|
    requires w.decls[n].inherits[i] in t.done && w.decls[n].inherits[i] in w.decls
    requires IsMeaning(w, m) && Exact(w, m, t, path) && PartlyIntended(w, m, s, n, i) && KeepsConditions(w, s, t, path)
    ensures var u := Inherit(t, n, w.decls[n].inherits[i]);
            Exact(w, m, u, path) && PartlyIntended(w, m, u, n, i + 1) && KeepsConditions(w, s, u, path - {n})
  {
    var parent := w.decls[n].inherits[i];
    var all := ParentConditions(w.decls[n].inherits, m);
    FirstSetSnoc([w.ownConditions[n]] + all[..i], m[parent]);
    assert [w.ownConditions[n]] + all[..i + 1] == [w.ownConditions[n]] + all[..i] + [m[parent]];
  }

  /** What becomes finished by a visit is the preset visited, or has a child. */
  lemma {:induction false} FinishedHasChild(w: World, s: Progress, n: Name, path: set<Name>, t: Progress)
    requires Complete(w, s) && n in w.decls && Visit(w, s, n, path) == Some(t)
    ensures forall k | k in t.done :: k in s.done || k == n || HasChild(w, k)
    decreases w.decls.Keys - path, 0
  {
    var r := VisitTaken(w, s, n, path, t);
    ParentsFinishedHaveChild(w, s, n, 0, path + {n}, r);
  }

  lemma {:induction false} ParentsFinishedHaveChild(w: World, s: Progress, n: Name, i: nat, path: set<Name>,
                                                    r: Progress)
    requires Complete(w, s) && n in w.decls && i <= |w.decls[n].inherits| && VisitParents(w, s, n, i, path) == Some(r)
    ensures forall k | k in r.done :: k in s.done || HasChild(w, k)
    decreases w.decls.Keys - path, |w.decls[n].inherits| - i + 1
  {
    if i < |w.decls[n].inherits| {
      var parent := w.decls[n].inherits[i];
      var t, u := ParentTaken(w, s, n, i, path, r);
      assert IsParentOf(w, parent, n);
      FinishedHasChild(w, s, parent, path, t);
      ParentsFinishedHaveChild(w, u, n, i + 1, path, r);
    }
  }

  /** The driver comes to every preset once; what it finds finished was finished for the sake of a child. */
  ghost predicate VisitedAgainByChildren(w: World, s: Progress, names: seq<Name>) {
    && NoDuplicates(names)
    && forall i | 0 <= i < |names| :: names[i] in s.done ==> HasChild(w, names[i])
  }

  lemma OthersVisitedAgain(w: World, s: Progress, names: seq<Name>, t: Progress)
    requires Complete(w, s) && names != [] && names[0] in w.decls && Visit(w, s, names[0], {}) == Some(t)
    requires VisitedAgainByChildren(w, s, names)
    ensures VisitedAgainByChildren(w, t, names[1..])
  {
    FinishedHasChild(w, s, names[0], {}, t);
    forall i | 0 <= i < |names[1..]| && names[1..][i] in t.done ensures HasChild(w, names[1..][i]) {
      assert names[1..][i] == names[i + 1];
    }
  }

  lemma {:induction false} VisitAllIsExact(w: World, m: ConditionTable, s: Progress, names: seq<Name>, r: Progress)
    requires Ready(w, s, {}) && (forall n | n in names :: n in w.decls) && VisitAll(w, s, names) == Some(r)
    requires Complete(w, r)
    requires IsMeaning(w, m) && !SomeBlockLost(w, m) && Exact(w, m, s, {})
    requires VisitedAgainByChildren(w, s, names)
    ensures Exact(w, m, r, {})
    decreases |names|
  {
    if names != [] {
      var t := FirstTaken(w, s, names, r);
      VisitIsExact(w, m, s, names[0], {}, t);
      VisitSettles(w, s, names[0], {}, t);
      OthersVisitedAgain(w, s, names, t);
      VisitAllIsExact(w, m, t, names[1..], r);
    }
  }

  // ---- A block lost: the condition it should stop arrives ----

  predicate Real(c: Option<Condition>) {
    c.Some? && c != Some(NullCondition)
  }

  /** Real conditions stay, and no preset gets an explicit null that did not have it. */
  predicate Monotone(w: World, s: Progress, t: Progress)
    requires Complete(w, s) && Complete(w, t)
  {
    forall k {:trigger t.conditions[k]} | k in w.decls ::
      && (Real(s.conditions[k]) ==> t.conditions[k] == s.conditions[k])
      && (s.conditions[k] != Some(NullCondition) ==> t.conditions[k] != Some(NullCondition))
  }

  /** From the i-th parent on, a preset without an explicit null takes over a condition that a parent already has. */
  predicate PicksUp(w: World, s: Progress, t: Progress, n: Name, i: nat)
    requires Complete(w, s) && Complete(w, t) && n in w.decls
  {
    s.conditions[n] != Some(NullCondition) ==>
      forall j | i <= j < |w.decls[n].inherits| && w.decls[n].inherits[j] in w.decls ::
        Real(s.conditions[w.decls[n].inherits[j]]) ==> Real(t.conditions[n])
  }

  lemma {:induction false} VisitIsMonotone(w: World, s: Progress, n: Name, path: set<Name>, t: Progress)
    requires Complete(w, s) && n in w.decls && Visit(w, s, n, path) == Some(t) && Complete(w, t)
    ensures Monotone(w, s, t) && t.conditions[n] != Some(NullCondition) && PicksUp(w, s, t, n, 0)
    decreases w.decls.Keys - path, 0
  {
    var r := VisitTaken(w, s, n, path, t);
    ParentsAreMonotone(w, s, n, 0, path + {n}, r);
  }

  lemma {:induction false} ParentsAreMonotone(w: World, s: Progress, n: Name, i: nat, path: set<Name>, r: Progress)
    requires Complete(w, s) && n in w.decls && i <= |w.decls[n].inherits|
    requires VisitParents(w, s, n, i, path) == Some(r) && Complete(w, r)
    ensures Monotone(w, s, r) && PicksUp(w, s, r, n, i)
    decreases w.decls.Keys - path, |w.decls[n].inherits| - i + 1
  {
    if i < |w.decls[n].inherits| {
      var t, u := ParentTaken(w, s, n, i, path, r);
      VisitIsMonotone(w, s, w.decls[n].inherits[i], path, t);
      ParentsAreMonotone(w, u, n, i + 1, path, r);
      PicksUpStep(w, s, t, r, n, i);
    }
  }

  lemma PicksUpStep(w: World, s: Progress, t: Progress, r: Progress, n: Name, i: nat)
    requires Complete(w, s) && Complete(w, t) && Complete(w, r) && n in w.decls && i < |w.decls[n].inherits|
    requires w.decls[n].inherits[i] in w.decls && t.conditions[w.decls[n].inherits[i]] != Some(NullCondition)
    requires var u := Inherit(t, n, w.decls[n].inherits[i]);
             Monotone(w, s, t) && Monotone(w, u, r) && PicksUp(w, u, r, n, i + 1)
    ensures Monotone(w, s, r) && PicksUp(w, s, r, n, i)
  {
  }

  /** A preset without an explicit null, whose i-th parent has a condition. */
  predicate Waiting(w: World, s: Progress, n: Name, i: nat) {
    && Complete(w, s) && n in w.decls && s.conditions[n] != Some(NullCondition)
    && i < |w.decls[n].inherits| && w.decls[n].inherits[i] in w.decls && Real(s.conditions[w.decls[n].inherits[i]])
  }

  lemma WaitingStays(w: World, s: Progress, t: Progress, n: Name, i: nat)
    requires Waiting(w, s, n, i) && Complete(w, t) && Monotone(w, s, t)
    ensures Waiting(w, t, n, i)
  {
  }

  lemma InheritIsMonotone(w: World, t: Progress, u: Progress, child: Name, parent: Name)
    requires Complete(w, t) && child in w.decls && parent in w.decls && t.conditions[parent] != Some(NullCondition)
    requires u == Inherit(t, child, parent) && Complete(w, u)
    ensures Monotone(w, t, u)
  {
  }

  lemma PickedUp(w: World, s: Progress, t: Progress, n: Name, i: nat)
    requires Waiting(w, s, n, i) && Complete(w, t) && PicksUp(w, s, t, n, 0)
    ensures Real(t.conditions[n])
  {
  }

  /** The visit to the waiting preset gives it its condition, and what follows leaves it. */
  lemma PicksUpNow(w: World, s: Progress, t: Progress, u: Progress, n: Name, child: Name, path: set<Name>, i: nat)
    requires Complete(w, s) && Complete(w, t) && Complete(w, u) && child in w.decls && Waiting(w, s, n, i)
    requires Visit(w, s, n, path) == Some(t) && u == Inherit(t, child, n)
    ensures Real(u.conditions[n])
  {
    VisitIsMonotone(w, s, n, path, t);
    PickedUp(w, s, t, n, i);
    InheritIsMonotone(w, t, u, child, n);
  }

  /** Any other visit leaves it waiting. */
  lemma StillWaiting(w: World, s: Progress, t: Progress, u: Progress, n: Name, child: Name, parent: Name,
                     path: set<Name>, i: nat)
    requires Complete(w, s) && Complete(w, t) && Complete(w, u) && child in w.decls && parent in w.decls
    requires Waiting(w, s, n, i)
    requires Visit(w, s, parent, path) == Some(t) && u == Inherit(t, child, parent)
    ensures Waiting(w, u, n, i)
  {
    VisitIsMonotone(w, s, parent, path, t);
    InheritIsMonotone(w, t, u, child, parent);
    WaitingStays(w, s, t, n, i);
    WaitingStays(w, t, u, n, i);
  }

  /** A visit to a child visits the preset, and so does the same. */
  lemma {:induction false} ChildPicksUp(w: World, s: Progress, n: Name, child: Name, c: nat, j: nat, path: set<Name>,
                                        i: nat, r: Progress)
    requires Complete(w, s) && child in w.decls && j <= c < |w.decls[child].inherits|
    requires VisitParents(w, s, child, j, path) == Some(r) && Complete(w, r)
    requires Waiting(w, s, n, i) && w.decls[child].inherits[c] == n
    ensures Real(r.conditions[n])
    decreases c - j
  {
    var t, u := ParentTaken(w, s, child, j, path, r);
    if j == c {
      PicksUpNow(w, s, t, u, n, child, path, i);
      ParentsAreMonotone(w, u, child, c + 1, path, r);
    } else {
      StillWaiting(w, s, t, u, n, child, w.decls[child].inherits[j], path, i);
      ChildPicksUp(w, u, n, child, c, j + 1, path, i, r);
    }
  }

  /** Finished presets that should have a condition have one. */
  ghost predicate AtLeast(w: World, m: ConditionTable, s: Progress, path: set<Name>)
    requires Complete(w, s) && IsMeaning(w, m)
  {
    && (forall n {:trigger s.conditions[n]} | n in w.decls && n in s.done ::
          s.conditions[n] != Some(NullCondition) && (m[n].Some? ==> s.conditions[n].Some?))
    && forall n {:trigger s.conditions[n]} | n in w.decls && n !in s.done && n !in path ::
      s.conditions[n] == w.ownConditions[n]
  }

  predicate PartlyAtLeast(w: World, m: ConditionTable, s: Progress, n: Name, i: nat)
    requires n in w.decls && Complete(w, s) && i <= |w.decls[n].inherits|
  {
    && (w.ownConditions[n].Some? ==> s.conditions[n] == w.ownConditions[n])
    && (w.ownConditions[n].None? ==>
          s.conditions[n] != Some(NullCondition)
          && forall j | 0 <= j < i :: At(m, w.decls[n].inherits[j]).Some? ==> s.conditions[n].Some?)
  }

  lemma {:induction false} VisitIsAtLeast(w: World, m: ConditionTable, s: Progress, n: Name, path: set<Name>,
                                          t: Progress)
    requires Ready(w, s, path) && n in w.decls && Visit(w, s, n, path) == Some(t) && Complete(w, t)
    requires IsMeaning(w, m) && AtLeast(w, m, s, path)
    ensures AtLeast(w, m, t, path) && KeepsConditions(w, s, t, path)
    decreases w.decls.Keys - path, 1
  {
    if n in s.done {
      RevisitIsAtLeast(w, m, s, n, path, t);
    } else {
      FirstVisitIsAtLeast(w, m, s, n, path, t);
    }
  }

  lemma {:induction false} FirstVisitIsAtLeast(w: World, m: ConditionTable, s: Progress, n: Name, path: set<Name>,
                                               t: Progress)
    requires Ready(w, s, path) && n in w.decls && n !in s.done && Visit(w, s, n, path) == Some(t) && Complete(w, t)
    requires IsMeaning(w, m) && AtLeast(w, m, s, path)
    ensures AtLeast(w, m, t, path) && KeepsConditions(w, s, t, path)
    decreases w.decls.Keys - path, 0
  {
    var r := FirstVisit(w, s, n, path, t);
    ParentsAreAtLeast(w, m, s, n, 0, path + {n}, r);
    FinishIsAtLeast(w, m, r, n, path);
    KeepsConditionsTransitive(w, s, r, t, path);
  }

  lemma RevisitIsAtLeast(w: World, m: ConditionTable, s: Progress, n: Name, path: set<Name>, t: Progress)
    requires Ready(w, s, path) && n in w.decls && n in s.done && Visit(w, s, n, path) == Some(t) && Complete(w, t)
    requires IsMeaning(w, m) && AtLeast(w, m, s, path)
    ensures AtLeast(w, m, t, path) && KeepsConditions(w, s, t, path)
  {
    RevisitSettles(w, s, n, path);
    VisitIsMonotone(w, s, n, path, t);
    VisitLeavesRest(w, s, n, path, t);
  }

  lemma FinishIsAtLeast(w: World, m: ConditionTable, t: Progress, n: Name, path: set<Name>)
    requires Complete(w, t) && n in w.decls && n !in t.done && n !in path
    requires IsMeaning(w, m) && AtLeast(w, m, t, path + {n}) && PartlyAtLeast(w, m, t, n, |w.decls[n].inherits|)
    ensures AtLeast(w, m, Finish(t, n), path) && KeepsConditions(w, t, Finish(t, n), path)
  {
    if m[n].Some? {
      MeaningFromOffers(w, m, n);
    }
  }

  lemma MeaningFromOffers(w: World, m: ConditionTable, n: Name)
    requires IsMeaning(w, m) && n in w.decls && m[n].Some?
    ensures w.ownConditions[n] != Some(NullCondition)
    ensures w.ownConditions[n].None? ==>
            exists j | 0 <= j < |w.decls[n].inherits| :: At(m, w.decls[n].inherits[j]).Some?
  {
    MeaningIsNeverNull(w, m, n);
    var offers := [w.ownConditions[n]] + ParentConditions(w.decls[n].inherits, m);
    FirstSetByPosition(offers);
    assert m[n] == Intended(w, m, n);
    if w.ownConditions[n].None? {
      var i :| 0 <= i < |offers| && FirstSet(offers) == offers[i];
      assert offers[i] == At(m, w.decls[n].inherits[i - 1]);
    }
  }

  /** From s to t the conditions of presets that are not finished afterwards were not touched. */
  predicate LeavesRest(w: World, s: Progress, t: Progress)
    requires Complete(w, s) && Complete(w, t)
  {
    s.done <= t.done && forall k {:trigger t.conditions[k]} | k in w.decls && k !in t.done ::
      t.conditions[k] == s.conditions[k]
  }

  /** The same, but for one preset. */
  predicate LeavesRestExcept(w: World, s: Progress, t: Progress, n: Name)
    requires Complete(w, s) && Complete(w, t)
  {
    && s.done <= t.done
    && forall k {:trigger t.conditions[k]} | k in w.decls && k !in t.done && k != n ::
      t.conditions[k] == s.conditions[k]
  }

  /** A visit touches the conditions of presets that are finished afterwards and of no others. */
  lemma {:induction false} VisitLeavesRest(w: World, s: Progress, n: Name, path: set<Name>, t: Progress)
    requires Complete(w, s) && n in w.decls && Visit(w, s, n, path) == Some(t) && Complete(w, t)
    ensures n in t.done && LeavesRest(w, s, t)
    decreases w.decls.Keys - path, 0
  {
    var r := VisitTaken(w, s, n, path, t);
    ParentsLeaveRest(w, s, n, 0, path + {n}, r);
  }

  lemma {:induction false} ParentsLeaveRest(w: World, s: Progress, n: Name, i: nat, path: set<Name>, r: Progress)
    requires Complete(w, s) && n in w.decls && i <= |w.decls[n].inherits|
    requires VisitParents(w, s, n, i, path) == Some(r) && Complete(w, r)
    ensures LeavesRestExcept(w, s, r, n)
    decreases w.decls.Keys - path, |w.decls[n].inherits| - i + 1
  {
    if i < |w.decls[n].inherits| {
      var parent := w.decls[n].inherits[i];
      var t, u := ParentTaken(w, s, n, i, path, r);
      VisitLeavesRest(w, s, parent, path, t);
      ParentsLeaveRest(w, u, n, i + 1, path, r);
      LeavesRestStep(w, s, t, r, n, parent);
    }
  }

  lemma LeavesRestStep(w: World, s: Progress, t: Progress, r: Progress, n: Name, parent: Name)
    requires Complete(w, s) && Complete(w, t) && Complete(w, r) && n in w.decls && parent in w.decls
    requires LeavesRest(w, s, t) && LeavesRestExcept(w, Inherit(t, n, parent), r, n)
    ensures LeavesRestExcept(w, s, r, n)
  {
  }

  lemma {:induction false} ParentsAreAtLeast(w: World, m: ConditionTable, s: Progress, n: Name, i: nat, path: set<Name>,
                                             r: Progress)
    requires Ready(w, s, path) && n in path && Inherited(w, s, n, i)
    requires VisitParents(w, s, n, i, path) == Some(r) && Complete(w, r)
    requires IsMeaning(w, m) && AtLeast(w, m, s, path) && PartlyAtLeast(w, m, s, n, i)
    ensures AtLeast(w, m, r, path) && PartlyAtLeast(w, m, r, n, |w.decls[n].inherits|)
    ensures KeepsConditions(w, s, r, path - {n})
    decreases w.decls.Keys - path, |w.decls[n].inherits| - i + 2
  {
    if i < |w.decls[n].inherits| {
      var parent := w.decls[n].inherits[i];
      var t, u := ParentTaken(w, s, n, i, path, r);
      VisitIsAtLeast(w, m, s, parent, path, t);
      VisitSettles(w, s, parent, path, t);
      StepIsAtLeast(w, m, s, t, n, i, path);
      InheritedStep(w, s, t, n, i, path);
      ParentsAreAtLeast(w, m, u, n, i + 1, path, r);
      KeepsConditionsTransitive(w, s, u, r, path - {n});
    }
  }

  lemma StepIsAtLeast(w: World, m: ConditionTable, s: Progress, t: Progress, n: Name, i: nat, path: set<Name>)
    requires Complete(w, s) && Complete(w, t) && n in path && n in w.decls && n !in t.done && i < |w.decls[n].inherits|
    requires w.decls[n].inherits[i] in t.done && w.decls[n].inherits[i] in w.decls
    requires IsMeaning(w, m) && AtLeast(w, m, t, path) && PartlyAtLeast(w, m, s, n, i) && KeepsConditions(w, s, t, path)
    ensures var u := Inherit(t, n, w.decls[n].inherits[i]);
            AtLeast(w, m, u, path) && PartlyAtLeast(w, m, u, n, i + 1) && KeepsConditions(w, s, u, path - {n})
  {
  }

  lemma {:induction false} VisitAllIsMonotone(w: World, s: Progress, names: seq<Name>, r: Progress)
    requires Complete(w, s) && (forall n | n in names :: n in w.decls) && VisitAll(w, s, names) == Some(r)
    requires Complete(w, r)
    ensures Monotone(w, s, r)
    decreases |names|
  {
    if names != [] {
      var t := FirstTaken(w, s, names, r);
      VisitIsMonotone(w, s, names[0], {}, t);
      VisitAllIsMonotone(w, t, names[1..], r);
    }
  }

  /** From a state where n and its parent are finished, a later visit to n or to a child of n brings n the condition. */
  lemma {:induction false} LaterVisitPicksUp(w: World, s: Progress, names: seq<Name>, n: Name, i: nat, later: Name,
                                             r: Progress)
    requires Complete(w, s) && (forall n | n in names :: n in w.decls) && VisitAll(w, s, names) == Some(r)
    requires Complete(w, r)
    requires Waiting(w, s, n, i)
    requires later in names && (later == n || IsParentOf(w, n, later))
    ensures Real(r.conditions[n])
    decreases |names|
  {
    var t := FirstTaken(w, s, names, r);
    VisitIsMonotone(w, s, names[0], {}, t);
    VisitAllIsMonotone(w, t, names[1..], r);
    WaitingStays(w, s, t, n, i);
    if names[0] == n {
    } else if names[0] == later {
      var c :| 0 <= c < |w.decls[later].inherits| && w.decls[later].inherits[c] == n;
      var q := VisitTaken(w, s, later, {}, t);
      ChildPicksUp(w, s, n, later, c, 0, {} + {later}, i, q);
    } else {
      LaterVisitPicksUp(w, t, names[1..], n, i, later, r);
    }
  }

  lemma {:induction false} BlockLostInRun(w: World, m: ConditionTable, s: Progress, names: seq<Name>, n: Name, i: nat,
                                          child: Name, r: Progress)
    requires Ready(w, s, {}) && (forall n | n in names :: n in w.decls) && VisitAll(w, s, names) == Some(r)
    requires Complete(w, r)
    requires IsMeaning(w, m) && AtLeast(w, m, s, {})
    requires LosesBlock(w, m, n, i) && IsParentOf(w, n, child) && n != child && n in names && child in names
    ensures Real(r.conditions[n])
    decreases |names|
  {
    var t := FirstTaken(w, s, names, r);
    VisitSettles(w, s, names[0], {}, t);
    VisitIsAtLeast(w, m, s, names[0], {}, t);
    if names[0] == n || names[0] == child {
      FinishedParents(w, t, n, child, i);
      LaterVisitPicksUp(w, t, names[1..], n, i, if names[0] == n then child else n, r);
    } else {
      BlockLostInRun(w, m, t, names[1..], n, i, child, r);
    }
  }

  lemma FinishedParents(w: World, t: Progress, n: Name, child: Name, i: nat)
    requires Settled(w, t) && (n in t.done || child in t.done) && IsParentOf(w, n, child) && n in w.decls
    requires i < |w.decls[n].inherits|
    ensures n in t.done && w.decls[n].inherits[i] in t.done && w.decls[n].inherits[i] in w.decls
  {
    if n !in t.done {
      var k :| 0 <= k < |t.done| && t.done[k] == child;
      var c :| 0 <= c < |w.decls[child].inherits| && w.decls[child].inherits[c] == n;
      ParentsAreDone(w, t, k, c);
    }
    var k :| 0 <= k < |t.done| && t.done[k] == n;
    ParentsAreDone(w, t, k, i);
  }

  // ---- The exact condition ----

  /** When every preset is visited once by the driver, the conditions that inheritance leaves are the intended ones
      exactly when no preset that blocks a condition with an explicit null has both a child and a parent with a
      condition. */
  lemma ConditionsIntendedIff(w: World, m: ConditionTable, names: seq<Name>)
    requires Elements(names) == w.decls.Keys && NoDuplicates(names)
    requires VisitAll(w, Start(w), names).Some? && IsMeaning(w, m)
    ensures VisitAll(w, Start(w), names).value.conditions == m <==> !SomeBlockLost(w, m)
  {
    assert forall n | n in names :: n in Elements(names);
    InheritanceIsResolution(w, names);
    if SomeBlockLost(w, m) {
      assert forall n | n in w.decls :: n in Elements(names);
      LostBlockShows(w, m, names);
    } else {
      KeptBlocksShow(w, m, names);
    }
  }

  lemma KeptBlocksShow(w: World, m: ConditionTable, names: seq<Name>)
    requires Elements(names) == w.decls.Keys && NoDuplicates(names)
    requires VisitAll(w, Start(w), names).Some? && IsMeaning(w, m) && !SomeBlockLost(w, m)
    ensures VisitAll(w, Start(w), names).value.conditions == m
  {
    assert forall n | n in names :: n in Elements(names);
    var t := VisitAll(w, Start(w), names).value;
    VisitAllIsExact(w, m, Start(w), names, t);
    AllSettled(w, names);
    ExactWhenDone(w, m, t);
  }

  lemma ExactWhenDone(w: World, m: ConditionTable, t: Progress)
    requires Complete(w, t) && IsMeaning(w, m) && Exact(w, m, t, {}) && forall n | n in w.decls :: n in t.done
    ensures t.conditions == m
  {
    forall n | n in w.decls ensures t.conditions[n] == m[n] {
      assert n in t.done;
    }
    assert t.conditions.Keys == m.Keys;
  }

  lemma LostBlockShows(w: World, m: ConditionTable, names: seq<Name>)
    requires (forall n | n in names :: n in w.decls) && (forall n | n in w.decls :: n in names) && Acyclic(Parents(w))
    requires VisitAll(w, Start(w), names).Some? && IsMeaning(w, m) && SomeBlockLost(w, m)
    ensures VisitAll(w, Start(w), names).value.conditions != m
  {
    var n, i: nat :| LosesBlock(w, m, n, i);
    var child :| IsParentOf(w, n, child);
    NotOwnParent(w, n, child);
    BlockLostInRun(w, m, Start(w), names, n, i, child, VisitAll(w, Start(w), names).value);
    MeaningIsNeverNull(w, m, n);
  }

  lemma NotOwnParent(w: World, n: Name, child: Name)
    requires Acyclic(Parents(w)) && n in w.decls && IsParentOf(w, n, child)
    ensures n != child
  {
    if n == child {
      var loop := [n, n];
      assert loop[0] == loop[1];
      assert IsWalk(Parents(w), loop);
    }
  }

  /** The intended conditions exist whenever inheritance is well defined. */
  lemma MeaningExists(w: World, names: seq<Name>)
    requires Elements(names) == w.decls.Keys && VisitAll(w, Start(w), names).Some?
    ensures exists m :: IsMeaning(w, m)
  {
    AllSettled(w, names);
    SettledMeaning(w, VisitAll(w, Start(w), names).value);
  }

  lemma SettledMeaning(w: World, t: Progress)
    requires Settled(w, t) && forall n | n in w.decls :: n in t.done
    ensures exists m :: IsMeaning(w, m)
  {
    var m := BuildMeaning(w, t, |t.done|);
    assert t.done[..|t.done|] == t.done;
    BuiltIsMeaning(w, m, t.done);
  }

  lemma BuiltIsMeaning(w: World, m: ConditionTable, done: seq<Name>)
    requires m.Keys == Elements(done) && (forall n | n in w.decls :: n in done) && MeaningSoFar(w, m)
    ensures IsMeaning(w, m)
  {
    forall n ensures n in m.Keys <==> n in w.decls.Keys {
    }
  }

  /** The presets of m have the intended conditions. */
  ghost predicate MeaningSoFar(w: World, m: ConditionTable) {
    forall n {:trigger m[n]} | n in m :: n in w.decls && m[n] == Intended(w, m, n)
  }

  lemma {:induction false} BuildMeaning(w: World, t: Progress, k: nat) returns (m: ConditionTable)
    requires Settled(w, t) && k <= |t.done|
    ensures m.Keys == Elements(t.done[..k]) && MeaningSoFar(w, m)
  {
    if k == 0 {
      return map[];
    }
    var before := BuildMeaning(w, t, k - 1);
    m := BuiltOneMore(w, t, before, k - 1);
    ElementsUpTo(t.done, k);
  }

  lemma ElementsUpTo(names: seq<Name>, k: nat)
    requires 0 < k <= |names|
    ensures Elements(names[..k]) == Elements(names[..k - 1]) + {names[k - 1]}
  {
    assert names[..k] == names[..k - 1] + [names[k - 1]];
  }

  lemma BuiltOneMore(w: World, t: Progress, before: ConditionTable, k: nat) returns (m: ConditionTable)
    requires Settled(w, t) && k < |t.done|
    requires before.Keys == Elements(t.done[..k]) && MeaningSoFar(w, before)
    ensures m.Keys == before.Keys + {t.done[k]} && MeaningSoFar(w, m)
  {
    assert t.done[k] in Parents(w);
    m := before[t.done[k] := Intended(w, before, t.done[k])];
    forall x | x in m ensures x in w.decls && m[x] == Intended(w, m, x) {
      var kx :| 0 <= kx <= k && t.done[kx] == x;
      BuiltKeepsIntended(w, t, before, m, k, kx);
    }
  }

  /** The intended condition of a preset depends on presets that come before it. */
  lemma BuiltKeepsIntended(w: World, t: Progress, before: ConditionTable, m: ConditionTable, k: nat, kx: nat)
    requires Settled(w, t) && kx <= k < |t.done| && t.done[kx] in w.decls
    requires before.Keys == Elements(t.done[..k]) && m.Keys == before.Keys + {t.done[k]}
    requires forall x | x in before && x != t.done[k] :: m[x] == before[x]
    ensures Intended(w, m, t.done[kx]) == Intended(w, before, t.done[kx])
  {
    var x := t.done[kx];
    forall i | 0 <= i < |w.decls[x].inherits|
      ensures At(m, w.decls[x].inherits[i]) == At(before, w.decls[x].inherits[i]) {
      ParentsAreDone(w, t, kx, i);
    }
    assert ParentConditions(w.decls[x].inherits, m) == ParentConditions(w.decls[x].inherits, before);
  }

  // ---- A second pass ----

  /** No preset has an explicit null. */
  ghost predicate NoNulls(w: World) {
    forall n | n in w.decls :: w.ownConditions[n] != Some(NullCondition)
  }

  /** A preset without a condition, one of whose parents has one. */
  ghost predicate Lacks(w: World, m: ConditionTable, n: Name, i: nat) {
    n in w.decls && At(m, n) == None && i < |w.decls[n].inherits| && At(m, w.decls[n].inherits[i]).Some?
  }

  ghost predicate SomeLacks(w: World, m: ConditionTable) {
    exists n, i: nat :: Lacks(w, m, n, i)
  }

  lemma {:induction false} VisitAllIsAtLeast(w: World, m: ConditionTable, s: Progress, names: seq<Name>, r: Progress)
    requires Ready(w, s, {}) && (forall n | n in names :: n in w.decls) && VisitAll(w, s, names) == Some(r)
    requires Complete(w, r)
    requires IsMeaning(w, m) && AtLeast(w, m, s, {})
    ensures AtLeast(w, m, r, {})
    decreases |names|
  {
    if names != [] {
      var t := FirstTaken(w, s, names, r);
      VisitSettles(w, s, names[0], {}, t);
      VisitIsAtLeast(w, m, s, names[0], {}, t);
      VisitAllIsAtLeast(w, m, t, names[1..], r);
    }
  }

  /** A full pass leaves no explicit null behind. */
  lemma NoNullsLeft(w: World, names: seq<Name>)
    requires Elements(names) == w.decls.Keys && VisitAll(w, Start(w), names).Some?
    ensures NoNulls(Reread(w, VisitAll(w, Start(w), names).value))
  {
    assert forall n | n in names :: n in Elements(names);
    MeaningExists(w, names);
    var m :| IsMeaning(w, m);
    VisitAllIsAtLeast(w, m, Start(w), names, VisitAll(w, Start(w), names).value);
    AllSettled(w, names);
  }

  /** The conditions that a pass over presets without explicit nulls leaves, whatever the order. */
  lemma PassWithoutNulls(w: World, m: ConditionTable, names: seq<Name>)
    requires Elements(names) == w.decls.Keys && NoDuplicates(names)
    requires VisitAll(w, Start(w), names).Some? && IsMeaning(w, m) && NoNulls(w)
    ensures VisitAll(w, Start(w), names).value.conditions == m
  {
    ConditionsIntendedIff(w, m, names);
  }

  /** Whatever a first pass over any presets has left, a second full pass, in any order, leaves every condition alone
      exactly when no preset without a condition has a parent with one. */
  lemma SecondPassKeepsConditionsIff(w: World, names: seq<Name>, again: seq<Name>)
    requires Elements(names) == w.decls.Keys && Elements(again) == w.decls.Keys && NoDuplicates(again)
    requires VisitAll(w, Start(w), names).Some?
    ensures var t := VisitAll(w, Start(w), names).value;
            var u := VisitAll(Reread(w, t), Start(Reread(w, t)), again);
            u.Some? && (u.value.conditions == t.conditions <==> !SomeLacks(w, t.conditions))
  {
    var t := VisitAll(w, Start(w), names).value;
    var w2 := Reread(w, t);
    SecondPassKeeps(w, names, again);
    NoNullsLeft(w, names);
    MeaningExists(w2, again);
    var m2 :| IsMeaning(w2, m2);
    PassWithoutNulls(w2, m2, again);
    InheritanceIsResolution(w2, again);
    OwnIsMeaningIff(w2, m2);
    assert SomeLacks(w2, t.conditions) <==> SomeLacks(w, t.conditions) by {
      assert forall n, i: nat :: Lacks(w2, t.conditions, n, i) <==> Lacks(w, t.conditions, n, i);
    }
  }

  /** Without explicit nulls the presets' own conditions are the intended ones exactly when no preset lacks one. */
  lemma OwnIsMeaningIff(w: World, m: ConditionTable)
    requires IsMeaning(w, m) && NoNulls(w) && Acyclic(Parents(w))
    ensures m == w.ownConditions <==> !SomeLacks(w, w.ownConditions)
  {
    if n, i: nat :| Lacks(w, w.ownConditions, n, i) {
      LackedIsInherited(w, m, n, i);
    } else {
      AcyclicIffOrdered(Parents(w));
      var order :| Ordered(Parents(w), order) && Elements(order) == Parents(w).Keys;
      OwnIsMeaning(w, m, order);
      forall n | n in w.decls ensures m[n] == w.ownConditions[n] {
        assert n in Elements(order);
      }
      assert m.Keys == w.ownConditions.Keys;
    }
  }

  lemma LackedIsInherited(w: World, m: ConditionTable, n: Name, i: nat)
    requires IsMeaning(w, m) && NoNulls(w) && Lacks(w, w.ownConditions, n, i)
    ensures m[n] != w.ownConditions[n]
  {
    KeepsOwn(w, m, w.decls[n].inherits[i]);
    MeaningIsNeverNull(w, m, n);
  }

  /** A real condition of one's own is one's meaning. */
  lemma KeepsOwn(w: World, m: ConditionTable, n: Name)
    requires IsMeaning(w, m)
    ensures n in w.decls && Real(w.ownConditions[n]) ==> m[n] == w.ownConditions[n]
  {
    if n in w.decls && Real(w.ownConditions[n]) {
      var offers := [w.ownConditions[n]] + ParentConditions(w.decls[n].inherits, m);
      assert FirstSet(offers) == offers[0].OrElse(FirstSet(offers[1..]));
      assert m[n] == Intended(w, m, n);
    }
  }

  lemma {:induction false} OwnIsMeaning(w: World, m: ConditionTable, order: seq<Name>)
    requires IsMeaning(w, m) && NoNulls(w) && Ordered(Parents(w), order) && !SomeLacks(w, w.ownConditions)
    ensures forall n | n in order :: n in w.decls && m[n] == w.ownConditions[n]
  {
    if order != [] {
      var init, n := order[..|order| - 1], order[|order| - 1];
      assert forall i | 0 <= i < |init| :: init[..i] == order[..i];
      OwnIsMeaning(w, m, init);
      assert n in Parents(w) && Parents(w)[n] <= Elements(init);
      KeepsOwn(w, m, n);
      if w.ownConditions[n] == None {
        NoneStaysNone(w, m, n);
      }
      assert forall x | x in order :: x in init || x == n;
    }
  }

  lemma NoneStaysNone(w: World, m: ConditionTable, n: Name)
    requires IsMeaning(w, m) && n in w.decls && w.ownConditions[n] == None && !SomeLacks(w, w.ownConditions)
    requires forall p | p in Parents(w)[n] :: p in w.decls && m[p] == w.ownConditions[p]
    ensures m[n] == None
  {
    var offers := [w.ownConditions[n]] + ParentConditions(w.decls[n].inherits, m);
    forall i | 0 <= i < |offers| ensures offers[i] == None {
      if i > 0 {
        var p := w.decls[n].inherits[i - 1];
        assert !Lacks(w, w.ownConditions, n, i - 1);
        assert offers[i] == At(m, p);
        assert p in w.decls ==> p in Parents(w)[n];
      }
    }
    FirstSetByPosition(offers);
    assert m[n] == Intended(w, m, n);
  }

  /** A preset that blocks a condition some parent has. */
  ghost predicate Blocks(w: World, m: ConditionTable, n: Name, i: nat) {
    && n in w.decls && w.ownConditions[n] == Some(NullCondition)
    && i < |w.decls[n].inherits| && At(m, w.decls[n].inherits[i]).Some?
  }

  /** In particular, after a first pass that left the intended conditions, a second full pass leaves them alone exactly
      when no explicit null blocks anything: the first pass has forgotten the nulls. */
  lemma SecondPassConditionsIff(w: World, m: ConditionTable, names: seq<Name>)
    requires Elements(names) == w.decls.Keys && NoDuplicates(names)
    requires VisitAll(w, Start(w), names).Some? && IsMeaning(w, m) && !SomeBlockLost(w, m)
    ensures var t := VisitAll(w, Start(w), names).value;
            var u := VisitAll(Reread(w, t), Start(Reread(w, t)), names);
            u.Some? && t.conditions == m && (u.value.conditions == m <==> !exists n, i: nat :: Blocks(w, m, n, i))
  {
    ConditionsIntendedIff(w, m, names);
    SecondPassKeepsConditionsIff(w, names, names);
    forall n, i: nat ensures Blocks(w, m, n, i) <==> Lacks(w, m, n, i) {
      BlocksIsLacks(w, m, n, i);
    }
  }

  /** Among the intended conditions, a preset lacks a parent's condition only because it blocks it. */
  lemma BlocksIsLacks(w: World, m: ConditionTable, n: Name, i: nat)
    requires IsMeaning(w, m)
    ensures Blocks(w, m, n, i) <==> Lacks(w, m, n, i)
  {
    if n in w.decls {
      MeaningIsNeverNull(w, m, n);
    }
  }

  /** After two passes nothing changes any more: a third full pass, in any order, leaves every condition alone. */
  lemma ThirdPassIsIdle(w: World, names: seq<Name>, again: seq<Name>, third: seq<Name>)
    requires Elements(names) == w.decls.Keys && Elements(again) == w.decls.Keys && Elements(third) == w.decls.Keys
    requires NoDuplicates(again) && NoDuplicates(third) && VisitAll(w, Start(w), names).Some?
    ensures var w2 := Reread(w, VisitAll(w, Start(w), names).value);
            VisitAll(w2, Start(w2), again).Some?
            && var u := VisitAll(w2, Start(w2), again).value;
               var v := VisitAll(Reread(w2, u), Start(Reread(w2, u)), third);
               v.Some? && v.value.conditions == u.conditions && v.value.fields == u.fields
  {
    var w2 := Reread(w, VisitAll(w, Start(w), names).value);
    SecondPassKeeps(w, names, again);
    NoNullsLeft(w, names);
    MeaningExists(w2, again);
    var m2 :| IsMeaning(w2, m2);
    PassWithoutNulls(w2, m2, again);
    SecondPassKeeps(w2, again, third);
    SecondPassKeepsConditionsIff(w2, again, third);
    forall n, i: nat ensures !Lacks(w2, m2, n, i) {
      BlocksIsLacks(w2, m2, n, i);
    }
  }

  // ---- The block that does not hold ----

  function Plain(inherits: seq<Name>): Declaration {
    Declaration(inherits, true, "")
  }

  const NO_FIELDS := Fields(map[], "", "", "", "", "", "", "",
                            None, None, None, None, None, None, None, None, None, map[])

  /** Three hidden presets of one file: base has condition c, mid inherits base but blocks its condition with an
      explicit null, leaf inherits mid. */
  function Blocked(base: Name, mid: Name, leaf: Name, c: Condition): World
    requires base != mid && mid != leaf && leaf != base
  {
    PresetsRead(
      map[base := Plain([]), mid := Plain([base]), leaf := Plain([mid])],
      map[base := NO_FIELDS, mid := NO_FIELDS, leaf := NO_FIELDS],
      map[base := Some(c), mid := Some(NullCondition), leaf := None],
      map["" := File(3, {""})])
  }

  /** Inheritance succeeds on these presets, and mid ends with a condition although it should have none. */
  lemma ExplicitNullForgotten(base: Name, mid: Name, leaf: Name, c: Condition, m: ConditionTable)
    requires base != mid && mid != leaf && leaf != base && c != NullCondition
    requires IsMeaning(Blocked(base, mid, leaf, c), m)
    ensures var w := Blocked(base, mid, leaf, c);
            VisitAll(w, Start(w), [base, mid, leaf]).Some?
            && m[mid] == None && VisitAll(w, Start(w), [base, mid, leaf]).value.conditions != m
  {
    var w := Blocked(base, mid, leaf, c);
    var names := [base, mid, leaf];
    BlockedIsInheritable(base, mid, leaf, c);
    InheritanceIsResolution(w, names);
    BlockedIsLost(base, mid, leaf, c, m);
    ConditionsIntendedIff(w, m, names);
  }

  lemma BlockedIsLost(base: Name, mid: Name, leaf: Name, c: Condition, m: ConditionTable)
    requires base != mid && mid != leaf && leaf != base && c != NullCondition
    requires IsMeaning(Blocked(base, mid, leaf, c), m)
    ensures m[mid] == None && SomeBlockLost(Blocked(base, mid, leaf, c), m)
  {
    var w := Blocked(base, mid, leaf, c);
    KeepsOwn(w, m, base);
    MeaningIsNeverNull(w, m, mid);
    assert w.decls[leaf].inherits[0] == mid && w.decls[mid].inherits[0] == base;
    assert IsParentOf(w, mid, leaf);
    assert LosesBlock(w, m, mid, 0);
  }

  lemma BlockedIsInheritable(base: Name, mid: Name, leaf: Name, c: Condition)
    requires base != mid && mid != leaf && leaf != base
    ensures Inheritable(Blocked(base, mid, leaf, c))
    ensures Elements([base, mid, leaf]) == Blocked(base, mid, leaf, c).decls.Keys
            && NoDuplicates([base, mid, leaf])
  {
    BlockedIsAcyclic(base, mid, leaf, c);
    BlockedIsResolved(Blocked(base, mid, leaf, c));
  }

  /** Hidden presets of one file that set nothing are resolved as they are. */
  ghost predicate SetsNothing(w: World, n: Name)
    requires n in w.decls
  {
    |w.decls[n].inherits| <= 1 && w.decls[n].hidden && w.own[n] == NO_FIELDS && w.decls[n].originFile == ""
    && forall i | 0 <= i < |w.decls[n].inherits| :: w.decls[n].inherits[i] in w.decls
  }

  lemma BlockedIsResolved(w: World)
    requires forall n | n in w.decls :: SetsNothing(w, n)
    requires "" in w.files && w.files[""].reachableFiles == {""}
    ensures IsResolution(w, w.own)
  {
    forall n | n in w.decls
      ensures Acceptable(w, n, w.own[n]) && Resolves(w.own[n], w.decls[n].inherits, w.own, w.own[n]) {
      assert forall p | p in w.decls :: SetsNothing(w, p);
      BlockedResolves(w, n);
    }
  }

  lemma BlockedIsAcyclic(base: Name, mid: Name, leaf: Name, c: Condition)
    requires base != mid && mid != leaf && leaf != base
    ensures var w := Blocked(base, mid, leaf, c);
            Acyclic(Parents(w)) && Elements([base, mid, leaf]) == w.decls.Keys && NoDuplicates([base, mid, leaf])
  {
    var w := Blocked(base, mid, leaf, c);
    var g := Parents(w);
    assert g[base] == {} && g[mid] == {base} && g[leaf] == {mid} by {
      assert w.decls[base].inherits == [] && w.decls[mid].inherits == [base] && w.decls[leaf].inherits == [mid];
    }
    ThreeInOrder(g, base, mid, leaf);
  }

  lemma ThreeInOrder(g: Graph<Name>, base: Name, mid: Name, leaf: Name)
    requires base != mid && mid != leaf && leaf != base && g.Keys == {base, mid, leaf}
    requires g[base] == {} && g[mid] == {base} && g[leaf] == {mid}
    ensures Acyclic(g) && Elements([base, mid, leaf]) == g.Keys && NoDuplicates([base, mid, leaf])
  {
    assert Ordered(g, [base]) by {
      OrderedSnoc(g, [], base);
      assert [] + [base] == [base];
    }
    assert Ordered(g, [base, mid]) by {
      OrderedSnoc(g, [base], mid);
      assert [base] + [mid] == [base, mid];
    }
    assert Ordered(g, [base, mid, leaf]) by {
      OrderedSnoc(g, [base, mid], leaf);
      assert [base, mid] + [leaf] == [base, mid, leaf];
    }
    AcyclicIffOrdered(g);
  }

  lemma BlockedResolves(w: World, n: Name)
    requires n in w.decls && |w.decls[n].inherits| <= 1 && w.decls[n].hidden
    requires forall p | p in w.decls :: w.own[p] == NO_FIELDS && w.decls[p].originFile == ""
    requires forall i | 0 <= i < |w.decls[n].inherits| :: w.decls[n].inherits[i] in w.decls
    requires "" in w.files && w.files[""].reachableFiles == {""}
    ensures Acceptable(w, n, w.own[n]) && Resolves(w.own[n], w.decls[n].inherits, w.own, w.own[n])
  {
    ResolvesAlone(NO_FIELDS, w.own);
    if |w.decls[n].inherits| == 1 {
      ResolvesStep(NO_FIELDS, [], w.own, NO_FIELDS, w.decls[n].inherits[0]);
      assert [] + [w.decls[n].inherits[0]] == w.decls[n].inherits;
      assert InheritFields(NO_FIELDS, NO_FIELDS) == NO_FIELDS;
    } else {
      assert w.decls[n].inherits == [];
    }
  }
}
