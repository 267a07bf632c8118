/** The presets as an object that VisitPreset updates in place. */
module PresetGraph {
  import opened Options
  import opened Digraph
  import opened ConditionTree
  import opened Presets
  import opened Inheritance

  /** The presets in progress are those of path, and none is verified. */
  ghost predicate InProgressAre(cycleStatus: map<Name, CycleStatus>, path: set<Name>) {
    && (forall n | n in cycleStatus :: cycleStatus[n] != Verified)
    && forall n :: n in path <==> n in cycleStatus && cycleStatus[n] == InProgress
  }

  /** The method reports an error where the function does, and otherwise has reached the function's state. */
  ghost predicate Reports(r: Option<Progress>, ok: bool, s: Progress) {
    r == if ok then Some(s) else None
  }

  /** One turn of the loop over the parents has led from s to t. */
  ghost predicate Turned(w: World, s: Progress, n: Name, i: nat, path: set<Name>, ok: bool, t: Progress)
    requires n in w.decls && Complete(w, s) && i < |w.decls[n].inherits|
  {
    if ok then Complete(w, t) && VisitParents(w, s, n, i, path) == VisitParents(w, t, n, i + 1, path)
    else VisitParents(w, s, n, i, path) == None
  }

  class Graph {
    const w: World
    var fields: FieldTable
    var conditions: ConditionTable
    /** The presets whose visit has finished, in the order of their first finish. */
    ghost var done: seq<Name>

    ghost function State(): Progress
      reads this
    {
      Progress(fields, conditions, done)
    }

    constructor (w: World)
      ensures this.w == w && State() == Start(w)
    {
      this.w := w;
      fields := w.own;
      conditions := w.ownConditions;
      done := [];
    }

    /** The status map is a parameter passed by value: what a visit marks as verified, its caller never sees.
        So a status found at the start of a visit is never Verified. After an error the presets are in an
        unspecified state; the caller discards them. */
    method VisitPreset(name: Name, cycleStatus: map<Name, CycleStatus>, ghost path: set<Name>) returns (ok: bool)
      requires Complete(w, State()) && name in w.decls && InProgressAre(cycleStatus, path)
      modifies this
      ensures Reports(Visit(w, old(State()), name, path), ok, State())
      decreases w.decls.Keys - path, 0
    {
      match if name in cycleStatus then cycleStatus[name] else Unvisited {
        case InProgress => return false;
        case Verified => assert false;
        case Unvisited =>
      }
      var status := cycleStatus[name := InProgress];
      if "" in fields[name].environment {
        return false;
      }
      ok := VisitParentPresets(name, status, path + {name});
      if !ok {
        return false;
      }
      ForgetNull(name);
      if !Checked(w, name, fields[name]) {
        return false;
      }
      status := status[name := Verified];
      done := if name in done then done else done + [name];
      return true;
    }

    /** A null condition has done its duty once the parents have been inherited from. */
    method ForgetNull(name: Name)
      requires name in conditions
      modifies this`conditions
      ensures conditions == old(conditions)[name := DropNull(old(conditions)[name])]
    {
      if conditions[name] == Some(NullCondition) {
        conditions := conditions[name := None];
      }
    }

    /** The loop over the parents. */
    method VisitParentPresets(name: Name, status: map<Name, CycleStatus>, ghost path: set<Name>) returns (ok: bool)
      requires Complete(w, State()) && name in w.decls && InProgressAre(status, path)
      modifies this
      ensures Reports(VisitParents(w, old(State()), name, 0, path), ok, State())
      decreases w.decls.Keys - path, 2
    {
      ghost var result := VisitParents(w, State(), name, 0, path);
      var i: nat := 0;
      while i < |w.decls[name].inherits|
        invariant i <= |w.decls[name].inherits| && Complete(w, State())
        invariant result == VisitParents(w, State(), name, i, path)
      {
        ok := VisitAndInherit(name, i, status, path);
        if !ok {
          return false;
        }
        i := i + 1;
      }
      return true;
    }

    /** One turn of that loop: the parent must exist in a reachable file; it is visited and then inherited from. */
    method VisitAndInherit(name: Name, i: nat, status: map<Name, CycleStatus>, ghost path: set<Name>) returns (ok: bool)
      requires Complete(w, State()) && name in w.decls && i < |w.decls[name].inherits| && InProgressAre(status, path)
      modifies this
      ensures Turned(w, old(State()), name, i, path, ok, State())
      decreases w.decls.Keys - path, 1
    {
      var parent := w.decls[name].inherits[i];
      VisitParentsStep(w, State(), name, i, path);
      if parent !in w.decls {
        return false;
      }
      if w.decls[parent].originFile !in w.files[w.decls[name].originFile].reachableFiles {
        return false;
      }
      ok := VisitPreset(parent, status, path);
      if ok {
        InheritFrom(name, parent);
      }
    }

    method InheritFrom(name: Name, parent: Name)
      requires Complete(w, State()) && name in w.decls && parent in w.decls
      modifies this
      ensures State() == Inherit(old(State()), name, parent) && Complete(w, State())
    {
      fields := fields[name := InheritFields(fields[name], fields[parent])];
      conditions := conditions[name := conditions[name].OrElse(conditions[parent])];
    }

    /** ComputePresetInheritance over the presets as they were read, in any order. */
    method ComputePresetInheritance(names: seq<Name>) returns (ok: bool)
      requires State() == Start(w) && Elements(names) == w.decls.Keys
      modifies this
      ensures ok <==> Inheritable(w)
      ensures ok ==> IsResolution(w, fields) && Some(State()) == VisitAll(w, Start(w), names)
    {
      var cycleStatus := map n | n in w.decls :: Unvisited;
      InheritanceIsResolution(w, names);
      assert names[0..] == names;
      for i := 0 to |names|
        invariant Complete(w, State())
        invariant VisitAll(w, Start(w), names) == VisitAll(w, State(), names[i..])
      {
        assert names[i..][0] == names[i] && names[i..][1..] == names[i + 1..];
        ok := VisitPreset(names[i], cycleStatus, {});
        if !ok {
          return false;
        }
      }
      return true;
    }
  }
}
