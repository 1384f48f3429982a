/** Exact counting and summation over sequences and maps, shared by the
    estimation and inference parts of the classifier. */
module Sums {

  /** Number of occurrences of `c` in `s`. */
  function Count(s: seq<nat>, c: nat): (n: nat)
    ensures n <= |s|
    ensures n > 0 <==> c in s
  {
    if s == [] then 0
    else
      assert s == [s[0]] + s[1..];
      (if s[0] == c then 1 else 0) + Count(s[1..], c)
  }

  /** Largest element of a non-empty sequence. */
  function Max(s: seq<nat>): (m: nat)
    requires s != []
    ensures m in s
    ensures forall i :: 0 <= i < |s| ==> s[i] <= m
  {
    if |s| == 1 then s[0]
    else
      var rest := Max(s[1..]);
      if s[0] < rest then rest else s[0]
  }

  /** Count(s, 0) + ... + Count(s, k - 1): the elements of `s` below `k`. */
  function CountBelow(s: seq<nat>, k: nat): nat
  {
    if k == 0 then 0 else CountBelow(s, k - 1) + Count(s, k - 1)
  }

  lemma {:induction false} CountBelowNil(k: nat)
    ensures CountBelow([], k) == 0
  {
    if k > 0 { CountBelowNil(k - 1); }
  }

  /** Peeling the first element off `s` removes exactly its own contribution. */
  lemma {:induction false} CountBelowCons(s: seq<nat>, k: nat)
    requires s != []
    ensures CountBelow(s, k) == (if s[0] < k then 1 else 0) + CountBelow(s[1..], k)
  {
    if k > 0 { CountBelowCons(s, k - 1); }
  }

  /** When every element is below `k`, the per-value counts below `k` add up
      to the length: every element is counted exactly once. */
  lemma {:induction false} CountBelowAll(s: seq<nat>, k: nat)
    requires forall i :: 0 <= i < |s| ==> s[i] < k
    ensures CountBelow(s, k) == |s|
  {
    if s == [] {
      CountBelowNil(k);
    } else {
      CountBelowCons(s, k);
      CountBelowAll(s[1..], k);
    }
  }

  /** Sum of a sequence of naturals. */
  function Total(s: seq<nat>): nat
  {
    if s == [] then 0 else Total(s[..|s| - 1]) + s[|s| - 1]
  }

  /** Sum of a sequence of reals. */
  function Sum(s: seq<real>): real
  {
    if s == [] then 0.0 else Sum(s[..|s| - 1]) + s[|s| - 1]
  }

  /** Dividing every entry by `d` divides the sum by `d`. */
  lemma {:induction false} SumScaled(p: seq<real>, q: seq<real>, d: real)
    requires d != 0.0 && |p| == |q|
    requires forall i :: 0 <= i < |p| ==> p[i] == q[i] / d
    ensures Sum(p) == Sum(q) / d
  {
    if p != [] {
      var n := |p| - 1;
      SumScaled(p[..n], q[..n], d);
      assert Sum(p) == Sum(q[..n]) / d + q[n] / d;
    }
  }

  /** Adding `delta` to every count adds `delta` once per entry to the total. */
  lemma {:induction false} SumShifted(q: seq<real>, w: seq<nat>, delta: real)
    requires |q| == |w|
    requires forall i :: 0 <= i < |q| ==> q[i] == w[i] as real + delta
    ensures Sum(q) == Total(w) as real + delta * |w| as real
  {
    if q != [] {
      var n := |q| - 1;
      SumShifted(q[..n], w[..n], delta);
    }
  }

  /** A non-empty sum of positive entries is positive. */
  lemma {:induction false} SumPositive(p: seq<real>)
    requires p != []
    requires forall i :: 0 <= i < |p| ==> p[i] > 0.0
    ensures Sum(p) > 0.0
  {
    if |p| > 1 { SumPositive(p[..|p| - 1]); }
  }

  /** With no negative entry, no entry exceeds the sum. */
  lemma {:induction false} EntryAtMostSum(p: seq<real>, i: nat)
    requires i < |p|
    requires forall j :: 0 <= j < |p| ==> p[j] >= 0.0
    ensures p[i] <= Sum(p)
  {
    var n := |p| - 1;
    if i < n {
      EntryAtMostSum(p[..n], i);
    } else if n > 0 {
      SumNonNegative(p[..n]);
    }
  }

  lemma {:induction false} SumNonNegative(p: seq<real>)
    requires forall j :: 0 <= j < |p| ==> p[j] >= 0.0
    ensures Sum(p) >= 0.0
  {
    if p != [] { SumNonNegative(p[..|p| - 1]); }
  }

  /** A vector of `n` zero counts. */
  function Zeros(n: nat): seq<nat>
  {
    seq(n, _ => 0)
  }

  /** Elementwise sum of two count vectors of the same length. */
  function VecAdd(a: seq<nat>, b: seq<nat>): seq<nat>
    requires |a| == |b|
  {
    seq(|a|, i requires 0 <= i < |a| => a[i] + b[i])
  }

  lemma VecAddZeros(b: seq<nat>)
    ensures VecAdd(Zeros(|b|), b) == b
  {
  }

  /** Sum of the values `m[0], ..., m[k - 1]`, an absent key contributing 0.
      When every key of `m` is below `k` this is the sum of all of `m`'s values. */
  function SumKeysBelow(m: map<nat, real>, k: nat): real
  {
    if k == 0 then 0.0
    else SumKeysBelow(m, k - 1) + (if k - 1 in m then m[k - 1] else 0.0)
  }

  /** A map that holds `Count(s, c) / |s|` for each key and whose absent keys
      below `k` are values that do not occur sums to the fraction of `s` below `k`. */
  lemma {:induction false} SumOfFrequencies(m: map<nat, real>, s: seq<nat>, k: nat)
    requires s != []
    requires forall c: nat :: c < k ==>
      if c in m then m[c] == Count(s, c) as real / |s| as real else Count(s, c) == 0
    ensures SumKeysBelow(m, k) == CountBelow(s, k) as real / |s| as real
  {
    if k > 0 {
      SumOfFrequencies(m, s, k - 1);
      var c := k - 1;
      var n := |s| as real;
      var entry := if c in m then m[c] else 0.0;
      assert entry == Count(s, c) as real / n;
      DivAdd(CountBelow(s, c) as real, Count(s, c) as real, n);
    }
  }

  /** A part over a positive whole lies in [0, 1], and is 0 only when the part is. */
  lemma Fraction(a: real, n: real)
    requires 0.0 <= a <= n && n > 0.0
    ensures 0.0 <= a / n <= 1.0
    ensures a / n == 0.0 <==> a == 0.0
  {
  }

  /** The ids `0 .. k - 1`. */
  function Ids(k: nat): (r: set<nat>)
    ensures forall c: nat :: c in r <==> c < k
    ensures |r| == k
  {
    if k == 0 then {} else Ids(k - 1) + {k - 1}
  }

  /** Dividing by a positive number keeps the order of two reals. */
  lemma DivMonotone(a: real, b: real, z: real)
    requires z > 0.0
    ensures a <= b <==> a / z <= b / z
    ensures a < b <==> a / z < b / z
  {
  }

  /** Scaling a non-negative number by at least 1 does not make it smaller. */
  lemma ScaleAtLeastOne(a: real, k: real)
    requires a >= 0.0 && k >= 1.0
    ensures a * k >= a
  {
  }

  lemma WholeOverWhole(n: real)
    requires n > 0.0
    ensures n / n == 1.0
  {
  }

  lemma DivAdd(a: real, b: real, n: real)
    requires n > 0.0
    ensures a / n + b / n == (a + b) / n
  {
  }
}
