/** The optional values used throughout, and the "first set value" that inheritance is about. */
module Options {

  datatype Option<+T> = None | Some(value: T) {

    function OrElse(other: Option<T>): Option<T> {
      if Some? then this else other
    }
  }

  /** The first of the values that is set. */
  function FirstSet<T>(xs: seq<Option<T>>): Option<T> {
    if xs == [] then None else xs[0].OrElse(FirstSet(xs[1..]))
  }

  /** FirstSet, said by position: the value at the first index that is set, and None exactly when nothing is set. */
  lemma {:induction false} FirstSetByPosition<T>(xs: seq<Option<T>>)
    ensures FirstSet(xs) == None <==> forall i | 0 <= i < |xs| :: xs[i] == None
    ensures FirstSet(xs) != None ==>
              exists i | 0 <= i < |xs| :: FirstSet(xs) == xs[i] && forall j | 0 <= j < i :: xs[j] == None
  {
    if xs == [] {
    } else {
      FirstSetByPosition(xs[1..]);
      assert forall j | 1 <= j < |xs| :: xs[j] == xs[1..][j - 1];
      assert forall j | 0 <= j < |xs| - 1 :: xs[1..][j] == xs[j + 1];
      if xs[0] == None && FirstSet(xs[1..]) != None {
        var i :| 0 <= i < |xs[1..]| && FirstSet(xs[1..]) == xs[1..][i] && forall j | 0 <= j < i :: xs[1..][j] == None;
        assert FirstSet(xs) == xs[i + 1];
        assert forall j | 0 <= j < i + 1 :: xs[j] == None;
      }
    }
  }

  lemma {:induction false} FirstSetSnoc<T>(xs: seq<Option<T>>, x: Option<T>)
    ensures FirstSet(xs + [x]) == FirstSet(xs).OrElse(x)
  {
    if xs == [] {
      assert xs + [x] == [x];
    } else {
      FirstSetSnoc(xs[1..], x);
      assert (xs + [x])[1..] == xs[1..] + [x];
    }
  }
}
