/** The sorted vectors of an argument parser's bindings: KeywordActionMap and PositionActionMap
    (cmArgumentParser.cxx). */
module ActionMaps {
  import opened Options

  ghost predicate StrictTotalOrder<K(!new)>(less: (K, K) -> bool) {
    && (forall a :: !less(a, a))
    && (forall a, b, c {:trigger less(a, b), less(b, c)} :: less(a, b) && less(b, c) ==> less(a, c))
    && (forall a, b :: less(a, b) || a == b || less(b, a))
  }

  ghost predicate Sorted<K, V>(entries: seq<(K, V)>, less: (K, K) -> bool) {
    forall i, j :: 0 <= i < j < |entries| ==> less(entries[i].0, entries[j].0)
  }

  /** The action bound to a key, found by looking at the entries one by one from the i-th on. */
  function LookupFrom<K(==), V>(entries: seq<(K, V)>, key: K, i: nat): Option<V>
    requires i <= |entries|
    decreases |entries| - i
  {
    if i == |entries| then None
    else if entries[i].0 == key then Some(entries[i].1)
    else LookupFrom(entries, key, i + 1)
  }

  function Lookup<K(==), V>(entries: seq<(K, V)>, key: K): Option<V> {
    LookupFrom(entries, key, 0)
  }

  /** With one entry per key, looking up finds that entry wherever it stands. */
  lemma {:induction false} LookupFromAt<K, V>(entries: seq<(K, V)>, key: K, i: nat, at: nat)
    requires i <= at < |entries| && entries[at].0 == key
    requires forall j :: i <= j < at ==> entries[j].0 != key
    ensures LookupFrom(entries, key, i) == Some(entries[at].1)
    decreases at - i
  {
    if i < at {
      LookupFromAt(entries, key, i + 1, at);
    }
  }

  lemma {:induction false} LookupFromNone<K, V>(entries: seq<(K, V)>, key: K, i: nat)
    requires i <= |entries|
    ensures LookupFrom(entries, key, i).None? <==> forall j :: i <= j < |entries| ==> entries[j].0 != key
    decreases |entries| - i
  {
    if i < |entries| {
      LookupFromNone(entries, key, i + 1);
    }
  }

  /** The first entry that is not before the key. */
  ghost predicate IsLowerBound<K, V>(entries: seq<(K, V)>, less: (K, K) -> bool, key: K, at: nat) {
    && at <= |entries|
    && (forall j :: 0 <= j < at ==> less(entries[j].0, key))
    && (forall j :: at <= j < |entries| ==> !less(entries[j].0, key))
  }

  /** At the lower bound stands the key's entry if there is one. */
  lemma LowerBoundDecides<K(!new), V>(entries: seq<(K, V)>, less: (K, K) -> bool, key: K, at: nat)
    requires StrictTotalOrder(less) && Sorted(entries, less) && IsLowerBound(entries, less, key, at)
    ensures Lookup(entries, key) == if at < |entries| && entries[at].0 == key then Some(entries[at].1) else None
  {
    if at < |entries| && entries[at].0 == key {
      LookupFromAt(entries, key, 0, at);
    } else {
      forall j | 0 <= j < |entries| ensures entries[j].0 != key {
        if at < j {
          assert less(entries[at].0, entries[j].0) && !less(entries[at].0, key);
        }
      }
      LookupFromNone(entries, key, 0);
    }
  }

  function Inserted<T>(s: seq<T>, at: nat, x: T): seq<T>
    requires at <= |s|
  {
    s[..at] + [x] + s[at..]
  }

  lemma InsertKeepsSorted<K(!new), V>(entries: seq<(K, V)>, less: (K, K) -> bool, key: K, value: V, at: nat)
    requires StrictTotalOrder(less) && Sorted(entries, less) && IsLowerBound(entries, less, key, at)
    requires at < |entries| ==> entries[at].0 != key
    ensures Sorted(Inserted(entries, at, (key, value)), less)
  {
    var more := Inserted(entries, at, (key, value));
    forall j | at <= j < |entries| ensures less(key, entries[j].0) {
      if at < j {
        assert less(entries[at].0, entries[j].0);
      }
    }
    forall i, j | 0 <= i < j < |more| ensures less(more[i].0, more[j].0) {
      assert more[i] == if i < at then entries[i] else if i == at then (key, value) else entries[i - 1];
      assert more[j] == if j < at then entries[j] else if j == at then (key, value) else entries[j - 1];
    }
  }

  /** Inserting binds the key and changes no other key. */
  lemma InsertBinds<K(!new), V>(entries: seq<(K, V)>, key: K, value: V, at: nat, other: K)
    requires at <= |entries| && Lookup(entries, key).None?
    ensures Lookup(Inserted(entries, at, (key, value)), other) == if other == key then Some(value)
            else Lookup(entries, other)
  {
    LookupFromNone(entries, key, 0);
    InsertBindsFrom(entries, key, value, at, other, 0);
  }

  lemma {:induction false} InsertBindsFrom<K, V>(entries: seq<(K, V)>, key: K, value: V, at: nat, other: K, i: nat)
    requires i <= at <= |entries|
    requires forall j :: 0 <= j < |entries| ==> entries[j].0 != key
    ensures LookupFrom(Inserted(entries, at, (key, value)), other, i) ==
            if other == key then Some(value) else LookupFrom(entries, other, i)
    decreases at - i
  {
    var more := Inserted(entries, at, (key, value));
    if i < at {
      assert more[i] == entries[i];
      InsertBindsFrom(entries, key, value, at, other, i + 1);
    } else {
      assert more[at] == (key, value);
      if other != key {
        LookupShifted(entries, more, other, at);
      }
    }
  }

  lemma {:induction false} LookupShifted<K, V>(entries: seq<(K, V)>, more: seq<(K, V)>, key: K, i: nat)
    requires i <= |entries| && |more| == |entries| + 1
    requires forall j :: i <= j < |entries| ==> more[j + 1] == entries[j]
    ensures LookupFrom(more, key, i + 1) == LookupFrom(entries, key, i)
    decreases |entries| - i
  {
    if i < |entries| {
      assert more[i + 1] == entries[i];
      LookupShifted(entries, more, key, i + 1);
    }
  }

  class ActionMap<K(==, !new), V> {
    var entries: seq<(K, V)>
    const less: (K, K) -> bool

    ghost predicate Valid()
      reads this
    {
      StrictTotalOrder(less) && Sorted(entries, less)
    }

    constructor (order: (K, K) -> bool)
      requires StrictTotalOrder(order)
      ensures Valid() && entries == [] && less == order
    {
      entries, less := [], order;
    }

    /** std::lower_bound. */
    method LowerBound(key: K) returns (at: nat)
      requires Valid()
      ensures IsLowerBound(entries, less, key, at)
    {
      at := 0;
      var count := |entries|;
      while count > 0
        invariant 0 <= at <= at + count <= |entries|
        invariant forall j :: 0 <= j < at ==> less(entries[j].0, key)
        invariant forall j :: at + count <= j < |entries| ==> !less(entries[j].0, key)
      {
        var step := count / 2;
        if less(entries[at + step].0, key) {
          forall j | at <= j < at + step ensures less(entries[j].0, key) {
            assert less(entries[j].0, entries[at + step].0);
          }
          at := at + step + 1;
          count := count - (step + 1);
        } else {
          forall j | at + step < j < |entries| ensures !less(entries[j].0, key) {
            assert less(entries[at + step].0, entries[j].0);
          }
          count := step;
        }
      }
    }

    /** Binds a key that has no action yet; a key that has one keeps it. */
    method Emplace(key: K, value: V) returns (inserted: bool)
      requires Valid()
      modifies this`entries
      ensures Valid()
      ensures inserted <==> Lookup(old(entries), key).None?
      ensures !inserted ==> entries == old(entries)
      ensures inserted ==> forall other ::
              Lookup(entries, other) == if other == key then Some(value) else Lookup(old(entries), other)
    {
      var at := LowerBound(key);
      LowerBoundDecides(entries, less, key, at);
      if at < |entries| && entries[at].0 == key {
        return false;
      }
      InsertKeepsSorted(entries, less, key, value, at);
      forall other ensures Lookup(Inserted(entries, at, (key, value)), other) ==
                           if other == key then Some(value) else Lookup(entries, other) {
        InsertBinds(entries, key, value, at, other);
      }
      entries := Inserted(entries, at, (key, value));
      return true;
    }

    method Find(key: K) returns (found: Option<V>)
      requires Valid()
      ensures found == Lookup(entries, key)
    {
      var at := LowerBound(key);
      LowerBoundDecides(entries, less, key, at);
      return if at < |entries| && entries[at].0 == key then Some(entries[at].1) else None;
    }
  }

  /** The order of std::string_view: the first difference decides, and a proper prefix comes first. */
  function TextLessFrom(a: string, b: string, i: nat): bool
    requires i <= |a| && i <= |b|
    decreases |a| - i
  {
    if i == |b| then false
    else if i == |a| then true
    else if a[i] != b[i] then a[i] < b[i]
    else TextLessFrom(a, b, i + 1)
  }

  function TextLess(a: string, b: string): bool {
    TextLessFrom(a, b, 0)
  }

  lemma {:induction false} TextLessTransitive(a: string, b: string, c: string, i: nat)
    requires i <= |a| && i <= |b| && i <= |c| && TextLessFrom(a, b, i) && TextLessFrom(b, c, i)
    ensures TextLessFrom(a, c, i)
    decreases |a| - i
  {
    if i < |a| && a[i] == b[i] && b[i] == c[i] {
      TextLessTransitive(a, b, c, i + 1);
    }
  }

  lemma {:induction false} TextLessTrichotomy(a: string, b: string, i: nat)
    requires i <= |a| && i <= |b| && forall j :: 0 <= j < i ==> a[j] == b[j]
    ensures TextLessFrom(a, b, i) || a == b || TextLessFrom(b, a, i)
    ensures !TextLessFrom(a, a, i)
    decreases |a| - i
  {
    if i < |a| {
      TextLessTrichotomy(a, a, i + 1);
      if i < |b| && a[i] == b[i] {
        TextLessTrichotomy(a, b, i + 1);
      }
    }
  }

  /** Keywords can be kept in a sorted vector. */
  lemma TextOrder()
    ensures StrictTotalOrder(TextLess)
  {
    forall a, b ensures (TextLess(a, b) || a == b || TextLess(b, a)) && !TextLess(a, a) {
      TextLessTrichotomy(a, b, 0);
    }
    forall a, b, c | TextLess(a, b) && TextLess(b, c) ensures TextLess(a, c) {
      TextLessTransitive(a, b, c, 0);
    }
  }

  /** The texts agree up to k, where the first one ends or has the smaller character. */
  predicate DiffersAt(a: string, b: string, k: nat) {
    && k <= |a| && k < |b| && (forall j | 0 <= j < k :: a[j] == b[j])
    && (k == |a| || a[k] < b[k])
  }

  lemma {:induction false} TextLessFromIff(a: string, b: string, i: nat)
    requires i <= |a| && i <= |b| && forall j | 0 <= j < i :: a[j] == b[j]
    ensures TextLessFrom(a, b, i) <==> exists k: nat :: DiffersAt(a, b, k)
    decreases |a| - i
  {
    if i < |a| && i < |b| && a[i] == b[i] {
      TextLessFromIff(a, b, i + 1);
    } else if TextLessFrom(a, b, i) {
      assert DiffersAt(a, b, i);
    } else {
      forall k: nat ensures !DiffersAt(a, b, k) {
        NotLessFrom(a, b, i, k);
      }
    }
  }

  lemma NotLessFrom(a: string, b: string, i: nat, k: nat)
    requires i <= |a| && i <= |b| && forall j | 0 <= j < i :: a[j] == b[j]
    requires (i == |a| || i == |b| || a[i] != b[i]) && !TextLessFrom(a, b, i)
    ensures !DiffersAt(a, b, k)
  {
  }

  /** The order of keywords is that of a dictionary. */
  lemma TextLessIff(a: string, b: string)
    ensures TextLess(a, b) <==> exists k: nat :: DiffersAt(a, b, k)
  {
    TextLessFromIff(a, b, 0);
  }
}
