/** Finite directed graphs: walks, reachability, acyclicity, and topological orders. */
module Digraph {

  /** How far a depth-first walk has come with a node. */
  datatype CycleStatus = Unvisited | InProgress | Verified

  /** The successors of every node; a successor that is not itself a key is a dangling edge. */
  type Graph<!T> = map<T, set<T>>

  ghost predicate IsWalk<T>(g: Graph<T>, w: seq<T>) {
    && |w| > 0
    && (forall i | 0 <= i < |w| :: w[i] in g)
    && (forall i | 0 <= i < |w| - 1 :: w[i + 1] in g[w[i]])
  }

  ghost predicate WalkBetween<T>(g: Graph<T>, w: seq<T>, x: T, y: T) {
    IsWalk(g, w) && w[0] == x && w[|w| - 1] == y
  }

  /** There is a walk, possibly of length zero, from x to y. */
  ghost predicate Reaches<T(!new)>(g: Graph<T>, x: T, y: T) {
    exists w :: WalkBetween(g, w, x, y)
  }

  ghost predicate Acyclic<T(!new)>(g: Graph<T>) {
    forall w | IsWalk(g, w) && |w| > 1 :: w[0] != w[|w| - 1]
  }

  /** Each element comes after all its successors and occurs once. */
  ghost predicate Ordered<T>(g: Graph<T>, order: seq<T>) {
    && (forall i | 0 <= i < |order| :: order[i] in g && g[order[i]] <= Elements(order[..i]))
    && (forall i, j | 0 <= i < j < |order| :: order[i] != order[j])
  }

  function Elements<T>(s: seq<T>): set<T> {
    set x | x in s
  }

  lemma ElementsSnoc<T>(s: seq<T>, x: T)
    ensures Elements(s + [x]) == Elements(s) + {x}
  {
  }

  lemma OrderedSnoc<T>(g: Graph<T>, order: seq<T>, x: T)
    requires Ordered(g, order) && x in g && x !in order && g[x] <= Elements(order)
    ensures Ordered(g, order + [x])
  {
    var next := order + [x];
    forall i | 0 <= i < |next| ensures next[i] in g && g[next[i]] <= Elements(next[..i]) {
      if i < |order| {
        assert next[..i] == order[..i];
      } else {
        assert next[..i] == order;
      }
    }
  }

  lemma WalkPrefix<T>(g: Graph<T>, w: seq<T>, x: T)
    requires IsWalk(g, w + [x]) && w != []
    ensures IsWalk(g, w)
  {
    assert forall i | 0 <= i < |w| :: (w + [x])[i] == w[i];
  }

  lemma WalkConcat<T>(g: Graph<T>, v: seq<T>, w: seq<T>)
    requires IsWalk(g, v) && IsWalk(g, w) && v[|v| - 1] == w[0]
    ensures WalkBetween(g, v + w[1..], v[0], w[|w| - 1])
  {
    var u := v + w[1..];
    forall i | 0 <= i < |u| - 1 ensures u[i + 1] in g[u[i]] {
      if i >= |v| - 1 {
        assert u[i + 1] == w[i + 1 - (|v| - 1)] && u[i] == w[i - (|v| - 1)];
      }
    }
  }

  lemma ReachesTransitive<T(!new)>(g: Graph<T>, x: T, y: T, z: T)
    requires Reaches(g, x, y) && Reaches(g, y, z)
    ensures Reaches(g, x, z)
  {
    var v :| WalkBetween(g, v, x, y);
    var w :| WalkBetween(g, w, y, z);
    WalkConcat(g, v, w);
  }

  lemma ReachesSelf<T(!new)>(g: Graph<T>, x: T)
    requires x in g
    ensures Reaches(g, x, x)
  {
    assert WalkBetween(g, [x], x, x);
  }

  lemma ReachesStep<T(!new)>(g: Graph<T>, x: T, y: T)
    requires x in g && y in g && y in g[x]
    ensures Reaches(g, x, y)
  {
    assert WalkBetween(g, [x, y], x, y);
  }

  /** What x reaches is x itself and what its successors reach. */
  lemma ReachesFirstStep<T(!new)>(g: Graph<T>, x: T, y: T)
    requires Reaches(g, x, y) && x != y
    ensures exists s | s in g[x] && s in g :: Reaches(g, s, y)
  {
    var w :| WalkBetween(g, w, x, y);
    assert WalkBetween(g, w[1..], w[1], y);
  }

  /** In an ordered list, walks only go backwards. */
  lemma {:induction false} WalksGoBack<T(!new)>(g: Graph<T>, order: seq<T>, w: seq<T>, i: nat)
    requires Ordered(g, order) && IsWalk(g, w) && |w| > 1 && i < |order| && order[i] == w[0]
    ensures w[|w| - 1] in order[..i]
  {
    assert w[1] in order[..i];
    var j :| 0 <= j < i && order[j] == w[1];
    if |w| > 2 {
      WalksGoBack(g, order, w[1..], j);
      assert w[1..][|w| - 2] == w[|w| - 1];
      assert forall x | x in order[..j] :: x in order[..i];
    }
  }

  /** No cycle passes through a node of an ordered list. */
  lemma OrderedHasNoCycle<T(!new)>(g: Graph<T>, order: seq<T>, w: seq<T>)
    requires Ordered(g, order) && IsWalk(g, w) && |w| > 1 && w[0] in order
    ensures w[0] != w[|w| - 1]
  {
    var i :| 0 <= i < |order| && order[i] == w[0];
    WalksGoBack(g, order, w, i);
  }

  /** A graph is acyclic exactly when all its nodes can be listed successors first
      (for a graph without dangling edges). */
  lemma AcyclicIffOrdered<T(!new)>(g: Graph<T>)
    requires forall x | x in g :: g[x] <= g.Keys
    ensures Acyclic(g) <==> exists order :: Ordered(g, order) && Elements(order) == g.Keys
  {
    if order :| Ordered(g, order) && Elements(order) == g.Keys {
      forall w | IsWalk(g, w) && |w| > 1 ensures w[0] != w[|w| - 1] {
        assert w[0] in Elements(order);
        OrderedHasNoCycle(g, order, w);
      }
    }
    if Acyclic(g) {
      assert Ordered(g, []);
      var order := ExtendToOrder(g, []);
      assert Ordered(g, order) && Elements(order) == g.Keys;
    }
  }

  lemma {:induction false} ExtendToOrder<T(!new)>(g: Graph<T>, done: seq<T>) returns (order: seq<T>)
    requires forall x | x in g :: g[x] <= g.Keys
    requires Acyclic(g) && Ordered(g, done)
    ensures Ordered(g, order) && Elements(order) == g.Keys
    decreases g.Keys - Elements(done)
  {
    var left := g.Keys - Elements(done);
    if left == {} {
      forall x | x in g.Keys ensures x in Elements(done) {
        assert x !in left;
      }
      return done;
    }
    var start :| start in left;
    var x := NextReady(g, left, [start]);
    assert g[x] <= Elements(done);
    OrderedSnoc(g, done, x);
    ElementsSnoc(done, x);
    order := ExtendToOrder(g, done + [x]);
  }

  /** Walking inside a finite set without a cycle ends at a node with no successor in the set. */
  lemma {:induction false} NextReady<T(!new)>(g: Graph<T>, left: set<T>, w: seq<T>) returns (x: T)
    requires Acyclic(g) && left <= g.Keys && IsWalk(g, w) && Elements(w) <= left
    requires forall i, j | 0 <= i < j < |w| :: w[i] != w[j]
    ensures x in left && g[x] !! left
    decreases left - Elements(w)
  {
    var last := w[|w| - 1];
    assert last in Elements(w);
    if g[last] !! left {
      return last;
    }
    var y :| y in g[last] && y in left;
    var longer := w + [y];
    assert IsWalk(g, longer);
    forall i | 0 <= i < |w| ensures w[i] != y {
      if w[i] == y {
        var loop := longer[i..];
        assert loop[0] == loop[|loop| - 1];
        assert IsWalk(g, loop);
      }
    }
    ElementsSnoc(w, y);
    assert y !in Elements(w);
    x := NextReady(g, left, longer);
  }
}
