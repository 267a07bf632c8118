/** Numbers in a base: the most significant digit first. */
module Digits {

  function Pow(b: nat, n: nat): nat {
    if n == 0 then 1 else Pow(b, n - 1) * b
  }

  predicate InBase(b: nat, ds: seq<nat>) {
    forall i | 0 <= i < |ds| :: ds[i] < b
  }

  /** The number the first n digits denote. */
  function FromBase(b: nat, ds: seq<nat>, n: nat): nat
    requires n <= |ds|
  {
    if n == 0 then 0 else FromBase(b, ds, n - 1) * b + ds[n - 1]
  }

  function ToBase(b: nat, v: nat, n: nat): (ds: seq<nat>)
    requires b > 0
    ensures |ds| == n && InBase(b, ds)
    decreases n
  {
    if n == 0 then [] else ToBase(b, v / b, n - 1) + [v % b]
  }

  lemma DivMod(b: nat, q: nat, r: nat)
    requires r < b
    ensures (q * b + r) / b == q && (q * b + r) % b == r
  {
    var v := q * b + r;
    assert v == v / b * b + v % b;
    Monotone(v / b + 1, q, b);
    Monotone(q + 1, v / b, b);
  }

  lemma Monotone(x: int, y: int, b: nat)
    ensures x <= y ==> x * b <= y * b
  {
  }

  lemma {:induction false} FromBasePrefix(b: nat, xs: seq<nat>, ys: seq<nat>, n: nat)
    requires n <= |xs| && n <= |ys| && forall i | 0 <= i < n :: xs[i] == ys[i]
    ensures FromBase(b, xs, n) == FromBase(b, ys, n)
  {
    if n > 0 {
      FromBasePrefix(b, xs, ys, n - 1);
    }
  }

  /** Digits are determined by the number they denote. */
  lemma {:induction false} DigitsReadBack(b: nat, ds: seq<nat>, n: nat)
    requires n <= |ds| && InBase(b, ds) && b > 0
    ensures ToBase(b, FromBase(b, ds, n), n) == ds[..n]
  {
    if n > 0 {
      DigitsReadBack(b, ds, n - 1);
      DivMod(b, FromBase(b, ds, n - 1), ds[n - 1]);
    }
  }

  lemma Distribute(x: int, b: nat)
    ensures (x + 1) * b == x * b + b
  {
  }

  lemma LastDigit(b: nat, ds: seq<nat>, d: nat)
    ensures FromBase(b, ds + [d], |ds| + 1) == FromBase(b, ds, |ds|) * b + d
  {
    FromBasePrefix(b, ds + [d], ds, |ds|);
  }

  /** A number that fits is determined by its digits. */
  lemma {:induction false} NumberReadBack(b: nat, v: nat, n: nat)
    requires b > 0 && v < Pow(b, n)
    ensures FromBase(b, ToBase(b, v, n), n) == v
    decreases n
  {
    if n > 0 {
      Shrinks(b, v, n);
      NumberReadBack(b, v / b, n - 1);
      LastDigit(b, ToBase(b, v / b, n - 1), v % b);
      Divided(b, v);
    }
  }

  lemma Divided(b: nat, v: nat)
    requires b > 0
    ensures v == v / b * b + v % b
  {
  }

  lemma Shrinks(b: nat, v: nat, n: nat)
    requires b > 0 && n > 0 && v < Pow(b, n)
    ensures v / b < Pow(b, n - 1)
  {
    Monotone(Pow(b, n - 1), v / b, b);
  }

  lemma {:induction false} Fits(b: nat, ds: seq<nat>, n: nat)
    requires n <= |ds| && InBase(b, ds)
    ensures FromBase(b, ds, n) < Pow(b, n)
  {
    if n > 0 {
      Fits(b, ds, n - 1);
      Monotone(FromBase(b, ds, n - 1) + 1, Pow(b, n - 1), b);
      Distribute(FromBase(b, ds, n - 1), b);
    }
  }

  function Zeros(k: nat): seq<nat> {
    if k == 0 then [] else Zeros(k - 1) + [0]
  }

  lemma {:induction false} ZerosAre(k: nat)
    ensures |Zeros(k)| == k && forall i | 0 <= i < k :: Zeros(k)[i] == 0
  {
    if k > 0 {
      ZerosAre(k - 1);
    }
  }

  lemma {:induction false} AppendZeros(b: nat, ds: seq<nat>, k: nat)
    ensures |ds + Zeros(k)| == |ds| + k
    ensures FromBase(b, ds + Zeros(k), |ds| + k) == FromBase(b, ds, |ds|) * Pow(b, k)
  {
    ZerosAre(k);
    if k == 0 {
      assert ds + Zeros(0) == ds;
    } else {
      AppendZeros(b, ds, k - 1);
      assert ds + Zeros(k) == ds + Zeros(k - 1) + [0];
      LastDigit(b, ds + Zeros(k - 1), 0);
      Reassociate(FromBase(b, ds, |ds|), Pow(b, k - 1), b);
    }
  }

  lemma Reassociate(x: nat, y: nat, z: nat)
    ensures x * y * z == x * (y * z)
  {
  }

  /** A multiple of a power ends with zeros. */
  lemma {:induction false} EndsWithZeros(b: nat, w: nat, m: nat, k: nat)
    requires b > 0
    ensures ToBase(b, w * Pow(b, k), m + k) == ToBase(b, w, m) + Zeros(k)
    decreases k
  {
    if k == 0 {
      assert ToBase(b, w, m) + Zeros(0) == ToBase(b, w, m);
    } else {
      assert w * Pow(b, k) == w * Pow(b, k - 1) * b + 0;
      DivMod(b, w * Pow(b, k - 1), 0);
      EndsWithZeros(b, w, m, k - 1);
      assert ToBase(b, w, m) + Zeros(k) == ToBase(b, w, m) + Zeros(k - 1) + [0];
    }
  }
}
