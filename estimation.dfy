/** The training side of the multinomial Naive Bayes classifier, stated as
    functions of the training data: label counts (bincount), the dense priors
    that `fit` stores, the sparse priors of `estimate_class_priors`, the
    per-class word counts and their additive (Laplace/Lidstone) smoothing. */
module Estimation {
  import opened Sums

  /** A bag-of-words matrix: one row of word counts per example, over a
      vocabulary of `cols` words (the tensor's second dimension, which exists
      even when there are no rows). */
  datatype Matrix = Matrix(rows: seq<seq<nat>>, cols: nat) {
    predicate WellFormed() {
      forall i :: 0 <= i < |rows| ==> |rows[i]| == cols
    }
  }

  /** Number of bins `bincount` produces: one past the largest label, or none. */
  function NumClasses(labels: seq<nat>): (k: nat)
    ensures k == 0 <==> labels == []
    ensures forall i :: 0 <= i < |labels| ==> labels[i] < k
    ensures labels != [] ==> k - 1 in labels
  {
    if labels == [] then 0 else Max(labels) + 1
  }

  /** `bincount(labels)`: entry `c` counts the examples labelled `c`. */
  function BinCount(labels: seq<nat>): seq<nat>
  {
    seq(NumClasses(labels), c requires 0 <= c => Count(labels, c))
  }

  /** The counts of `bincount` add up to the number of examples. */
  lemma BinCountTotal(labels: seq<nat>)
    ensures Total(BinCount(labels)) == |labels|
  {
    var counts := BinCount(labels);
    var k := |counts|;
    BinCountPrefixTotal(labels, k);
    assert counts[..k] == counts;
    CountBelowAll(labels, k);
  }

  lemma {:induction false} BinCountPrefixTotal(labels: seq<nat>, k: nat)
    requires k <= NumClasses(labels)
    ensures Total(BinCount(labels)[..k]) == CountBelow(labels, k)
  {
    if k > 0 {
      BinCountPrefixTotal(labels, k - 1);
      assert BinCount(labels)[..k][..k - 1] == BinCount(labels)[..k - 1];
    }
  }

  /** The priors `fit` stores: a key for every class id from 0 to the largest
      label, mapped to the fraction of examples that carry it. */
  function DensePriors(labels: seq<nat>): map<nat, real>
  {
    var counts := BinCount(labels);
    map c | c in Ids(|counts|) :: counts[c] as real / |labels| as real
  }

  /** The priors of `estimate_class_priors`: a key for each label that occurs. */
  function SparsePriors(labels: seq<nat>): map<nat, real>
  {
    map c | c in labels :: Count(labels, c) as real / |labels| as real
  }

  /** The dense priors have exactly the keys 0 .. max(labels); each is a
      fraction of the examples, and it is 0 exactly for an id no example has. */
  lemma DensePriorsShape(labels: seq<nat>)
    ensures forall c: nat :: c in DensePriors(labels) <==> c < NumClasses(labels)
    ensures |DensePriors(labels)| == NumClasses(labels)
    ensures forall c :: c in DensePriors(labels) ==>
      0.0 <= DensePriors(labels)[c] <= 1.0 && (DensePriors(labels)[c] == 0.0 <==> c !in labels)
  {
    var p := DensePriors(labels);
    assert p.Keys == Ids(NumClasses(labels));
    forall c | c in p
      ensures 0.0 <= p[c] <= 1.0 && (p[c] == 0.0 <==> c !in labels)
    {
      Fraction(Count(labels, c) as real, |labels| as real);
    }
  }

  /** With at least one example the dense priors sum to 1. */
  lemma DensePriorsSumToOne(labels: seq<nat>)
    requires labels != []
    ensures SumKeysBelow(DensePriors(labels), NumClasses(labels)) == 1.0
  {
    var k := NumClasses(labels);
    var p := DensePriors(labels);
    forall c: nat | c < k
      ensures c in p && p[c] == Count(labels, c) as real / |labels| as real
    {
      assert c in Ids(|BinCount(labels)|);
    }
    SumOfFrequencies(p, labels, k);
    CountBelowAll(labels, k);
    WholeOverWhole(|labels| as real);
  }

  /** The sparse priors have exactly the occurring labels as keys, each with a
      value in (0, 1]. */
  lemma SparsePriorsShape(labels: seq<nat>)
    ensures forall c :: c in SparsePriors(labels) <==> c in labels
    ensures forall c :: c in SparsePriors(labels) ==> 0.0 < SparsePriors(labels)[c] <= 1.0
  {
    var p := SparsePriors(labels);
    forall c | c in p
      ensures 0.0 < p[c] <= 1.0
    {
      Fraction(Count(labels, c) as real, |labels| as real);
    }
  }

  /** The sparse priors sum to 1 over all keys (every key is below
      `NumClasses(labels)`). */
  lemma SparsePriorsSumToOne(labels: seq<nat>)
    requires labels != []
    ensures forall c :: c in SparsePriors(labels) ==> c < NumClasses(labels)
    ensures SumKeysBelow(SparsePriors(labels), NumClasses(labels)) == 1.0
  {
    var k := NumClasses(labels);
    var p := SparsePriors(labels);
    forall c: nat | c < k
      ensures if c in p then p[c] == Count(labels, c) as real / |labels| as real else Count(labels, c) == 0
    {
    }
    SumOfFrequencies(p, labels, k);
    CountBelowAll(labels, k);
    WholeOverWhole(|labels| as real);
  }

  /** The two prior estimators agree: the sparse map is the dense map with its
      zero entries dropped. */
  lemma SparseIsDenseWithoutZeros(labels: seq<nat>)
    ensures forall c :: c in SparsePriors(labels) <==> c in DensePriors(labels) && DensePriors(labels)[c] > 0.0
    ensures forall c :: c in SparsePriors(labels) ==> SparsePriors(labels)[c] == DensePriors(labels)[c]
  {
    DensePriorsShape(labels);
  }

  /** Elementwise sum of the first `n` rows of `m` that carry label `c`,
      starting from a vector of zeros. */
  function ClassRowSum(m: Matrix, labels: seq<nat>, c: nat, n: nat): (w: seq<nat>)
    requires m.WellFormed() && n <= |m.rows| && n <= |labels|
    ensures |w| == m.cols
  {
    if n == 0 then Zeros(m.cols)
    else
      var before := ClassRowSum(m, labels, c, n - 1);
      if labels[n - 1] == c then VecAdd(before, m.rows[n - 1]) else before
  }

  /** A class with no example among the first `n` rows has only zero counts. */
  lemma {:induction false} ClassRowSumAbsent(m: Matrix, labels: seq<nat>, c: nat, n: nat)
    requires m.WellFormed() && n <= |m.rows| && n <= |labels|
    requires forall i :: 0 <= i < n ==> labels[i] != c
    ensures ClassRowSum(m, labels, c, n) == Zeros(m.cols)
  {
    if n > 0 { ClassRowSumAbsent(m, labels, c, n - 1); }
  }

  /** The per-class word counts: one vector for each label that occurs. */
  function ClassWordCounts(m: Matrix, labels: seq<nat>): map<nat, seq<nat>>
    requires m.WellFormed() && |labels| == |m.rows|
  {
    map c | c in labels :: ClassRowSum(m, labels, c, |m.rows|)
  }

  /** Column `j` summed over the first `n` rows. */
  function ColumnTotal(m: Matrix, j: nat, n: nat): nat
    requires m.WellFormed() && j < m.cols && n <= |m.rows|
  {
    if n == 0 then 0 else ColumnTotal(m, j, n - 1) + m.rows[n - 1][j]
  }

  /** Word `j`'s count summed over the classes below `k`. */
  function ClassColumnTotal(m: Matrix, labels: seq<nat>, j: nat, n: nat, k: nat): nat
    requires m.WellFormed() && j < m.cols && n <= |m.rows| && n <= |labels|
  {
    if k == 0 then 0 else ClassColumnTotal(m, labels, j, n, k - 1) + ClassRowSum(m, labels, k - 1, n)[j]
  }

  lemma {:induction false} ClassColumnTotalStep(m: Matrix, labels: seq<nat>, j: nat, n: nat, k: nat)
    requires m.WellFormed() && j < m.cols && 0 < n <= |m.rows| && n <= |labels|
    ensures ClassColumnTotal(m, labels, j, n, k)
         == ClassColumnTotal(m, labels, j, n - 1, k) + (if labels[n - 1] < k then m.rows[n - 1][j] else 0)
  {
    if k > 0 { ClassColumnTotalStep(m, labels, j, n, k - 1); }
  }

  /** No word occurrence is lost or counted twice: summed over all classes,
      the per-class counts of word `j` equal the column total of the matrix. */
  lemma {:induction false} WordCountsConserved(m: Matrix, labels: seq<nat>, j: nat, n: nat, k: nat)
    requires m.WellFormed() && j < m.cols && n <= |m.rows| && n <= |labels|
    requires forall i :: 0 <= i < n ==> labels[i] < k
    ensures ClassColumnTotal(m, labels, j, n, k) == ColumnTotal(m, j, n)
  {
    if n == 0 {
      ClassColumnTotalZero(m, labels, j, k);
    } else {
      ClassColumnTotalStep(m, labels, j, n, k);
      WordCountsConserved(m, labels, j, n - 1, k);
    }
  }

  lemma {:induction false} ClassColumnTotalZero(m: Matrix, labels: seq<nat>, j: nat, k: nat)
    requires m.WellFormed() && j < m.cols
    ensures ClassColumnTotal(m, labels, j, 0, k) == 0
  {
    if k > 0 { ClassColumnTotalZero(m, labels, j, k - 1); }
  }

  /** Additive smoothing of one class's word counts `w` over a vocabulary of
      `v` words: entry `j` is `(w[j] + delta) / (total(w) + delta * v)`. */
  function Smooth(w: seq<nat>, delta: real, v: nat): seq<real>
    requires |w| == v && delta > 0.0
  {
    var denominator := Total(w) as real + delta * v as real;
    seq(v, j requires 0 <= j < v => (w[j] as real + delta) / denominator)
  }

  /** For a non-empty vocabulary, a smoothed vector is a probability
      distribution with no zero entry. */
  lemma SmoothIsDistribution(w: seq<nat>, delta: real, v: nat)
    requires |w| == v && v > 0 && delta > 0.0
    ensures |Smooth(w, delta, v)| == v
    ensures forall j :: 0 <= j < v ==> 0.0 < Smooth(w, delta, v)[j] <= 1.0
    ensures Sum(Smooth(w, delta, v)) == 1.0
  {
    var p := Smooth(w, delta, v);
    SmoothSumsToOne(w, delta, v);
    SmoothPositive(w, delta, v);
    forall j | 0 <= j < v
      ensures p[j] <= 1.0
    {
      EntryAtMostSum(p, j);
    }
  }

  lemma SmoothDenominatorPositive(w: seq<nat>, delta: real, v: nat)
    requires v > 0 && delta > 0.0
    ensures Total(w) as real + delta * v as real > 0.0
  {
    ScaleAtLeastOne(delta, v as real);
  }

  lemma SmoothSumsToOne(w: seq<nat>, delta: real, v: nat)
    requires |w| == v && v > 0 && delta > 0.0
    ensures Sum(Smooth(w, delta, v)) == 1.0
  {
    var p := Smooth(w, delta, v);
    var denominator := Total(w) as real + delta * v as real;
    SmoothDenominatorPositive(w, delta, v);
    var q := seq(v, j requires 0 <= j < v => w[j] as real + delta);
    assert forall j :: 0 <= j < v ==> p[j] == q[j] / denominator;
    SumShifted(q, w, delta);
    SumScaled(p, q, denominator);
    WholeOverWhole(denominator);
  }

  lemma SmoothPositive(w: seq<nat>, delta: real, v: nat)
    requires |w| == v && delta > 0.0
    ensures forall j :: 0 <= j < v ==> Smooth(w, delta, v)[j] > 0.0
  {
    var p := Smooth(w, delta, v);
    var denominator := Total(w) as real + delta * v as real;
    forall j | 0 <= j < v
      ensures p[j] > 0.0
    {
      SmoothDenominatorPositive(w, delta, v);
      DivMonotone(0.0, w[j] as real + delta, denominator);
    }
  }

  /** The conditional probabilities `fit` stores: the smoothed word counts of
      every label that occurs. */
  function SmoothedConditionals(m: Matrix, labels: seq<nat>, delta: real): map<nat, seq<real>>
    requires m.WellFormed() && |labels| == |m.rows| && delta > 0.0
  {
    var counts := ClassWordCounts(m, labels);
    map c | c in counts :: Smooth(counts[c], delta, m.cols)
  }

  /** The conditionals have a key for exactly the labels that occur; each is a
      vector of `cols` entries in (0, 1] that sums to 1 (when the vocabulary is
      not empty). */
  lemma ConditionalsAreDistributions(m: Matrix, labels: seq<nat>, delta: real)
    requires m.WellFormed() && |labels| == |m.rows| && delta > 0.0
    ensures forall c :: c in SmoothedConditionals(m, labels, delta) <==> c in labels
    ensures forall c :: c in SmoothedConditionals(m, labels, delta) ==>
      |SmoothedConditionals(m, labels, delta)[c]| == m.cols
    ensures m.cols > 0 ==> forall c :: c in SmoothedConditionals(m, labels, delta) ==>
      && Sum(SmoothedConditionals(m, labels, delta)[c]) == 1.0
      && forall j :: 0 <= j < m.cols ==> 0.0 < SmoothedConditionals(m, labels, delta)[c][j] <= 1.0
  {
    var conditionals := SmoothedConditionals(m, labels, delta);
    var counts := ClassWordCounts(m, labels);
    forall c | c in conditionals
      ensures |conditionals[c]| == m.cols
      ensures m.cols > 0 ==> Sum(conditionals[c]) == 1.0
      ensures m.cols > 0 ==> forall j :: 0 <= j < m.cols ==> 0.0 < conditionals[c][j] <= 1.0
    {
      if m.cols > 0 { SmoothIsDistribution(counts[c], delta, m.cols); }
    }
  }

  /** The quirk of `fit`: the priors have a key for every id up to the largest
      label but the conditionals only for labels that occur, so every prior key
      has conditionals exactly when the labels leave no gap in 0 .. max. */
  lemma PriorKeysCoveredIffNoGap(m: Matrix, labels: seq<nat>, delta: real)
    requires m.WellFormed() && |labels| == |m.rows| && delta > 0.0
    ensures (forall c :: c in DensePriors(labels) ==> c in SmoothedConditionals(m, labels, delta))
        <==> (forall c: nat :: c < NumClasses(labels) ==> c in labels)
  {
    DensePriorsShape(labels);
    ConditionalsAreDistributions(m, labels, delta);
  }

  /** Labels 0 and 2 without a 1: the prior of class 1 is 0 and class 1 has no
      conditionals. */
  lemma GapExample()
    ensures var m := Matrix([[1], [1]], 1);
      1 in DensePriors([0, 2]) && DensePriors([0, 2])[1] == 0.0
      && 1 !in SmoothedConditionals(m, [0, 2], 1.0)
  {
    var labels: seq<nat> := [0, 2];
    assert NumClasses(labels) == 3;
    DensePriorsShape(labels);
    ConditionalsAreDistributions(Matrix([[1], [1]], 1), labels, 1.0);
  }

  /** Three examples over three words, labels [0, 0, 1], delta = 1: priors
      2/3 and 1/3; class 0 counts [1, 1, 2] smooth to [2/7, 2/7, 3/7] and
      class 1 counts [1, 1, 0] to [2/5, 2/5, 1/5]. */
  lemma WorkedExample()
    ensures DensePriors([0, 0, 1]) == map[0 := 2.0 / 3.0, 1 := 1.0 / 3.0]
    ensures SmoothedConditionals(Matrix([[1, 0, 1], [0, 1, 1], [1, 1, 0]], 3), [0, 0, 1], 1.0)
         == map[0 := [2.0 / 7.0, 2.0 / 7.0, 3.0 / 7.0], 1 := [2.0 / 5.0, 2.0 / 5.0, 1.0 / 5.0]]
  {
    WorkedPriors();
    WorkedConditionals();
  }

  lemma WorkedConditionals()
    ensures SmoothedConditionals(Matrix([[1, 0, 1], [0, 1, 1], [1, 1, 0]], 3), [0, 0, 1], 1.0)
         == map[0 := [2.0 / 7.0, 2.0 / 7.0, 3.0 / 7.0], 1 := [2.0 / 5.0, 2.0 / 5.0, 1.0 / 5.0]]
  {
    WorkedWordCounts();
    WorkedSmoothing();
    var p := SmoothedConditionals(Matrix([[1, 0, 1], [0, 1, 1], [1, 1, 0]], 3), [0, 0, 1], 1.0);
    assert p.Keys == {0, 1};
  }

  lemma WorkedWordCounts()
    ensures ClassWordCounts(Matrix([[1, 0, 1], [0, 1, 1], [1, 1, 0]], 3), [0, 0, 1])
         == map[0 := [1, 1, 2], 1 := [1, 1, 0]]
  {
    WorkedCounts();
    var counts := ClassWordCounts(Matrix([[1, 0, 1], [0, 1, 1], [1, 1, 0]], 3), [0, 0, 1]);
    assert counts.Keys == {0, 1};
  }

  lemma WorkedSmoothing()
    ensures Smooth([1, 1, 2], 1.0, 3) == [2.0 / 7.0, 2.0 / 7.0, 3.0 / 7.0]
    ensures Smooth([1, 1, 0], 1.0, 3) == [2.0 / 5.0, 2.0 / 5.0, 1.0 / 5.0]
  {
    var w: seq<nat> := [1, 1, 2];
    assert w[..2] == [1, 1] && w[..2][..1] == [1] && w[..2][..1][..0] == [];
    assert Total([1]) == 1 && Total([1, 1]) == 2 && Total(w) == 4;
    w := [1, 1, 0];
    assert w[..2] == [1, 1];
    assert Total(w) == 2;
  }

  lemma WorkedPriors()
    ensures DensePriors([0, 0, 1]) == map[0 := 2.0 / 3.0, 1 := 1.0 / 3.0]
  {
    var labels: seq<nat> := [0, 0, 1];
    assert NumClasses(labels) == 2;
    assert Count(labels, 0) == 2 && Count(labels, 1) == 1;
    assert BinCount(labels) == [2, 1];
    DensePriorsShape(labels);
  }

  lemma WorkedCounts()
    ensures var m := Matrix([[1, 0, 1], [0, 1, 1], [1, 1, 0]], 3);
      && ClassRowSum(m, [0, 0, 1], 0, 3) == [1, 1, 2]
      && ClassRowSum(m, [0, 0, 1], 1, 3) == [1, 1, 0]
  {
    var m := Matrix([[1, 0, 1], [0, 1, 1], [1, 1, 0]], 3);
    var labels: seq<nat> := [0, 0, 1];
    assert ClassRowSum(m, labels, 0, 1) == [1, 0, 1];
    assert ClassRowSum(m, labels, 0, 2) == [1, 1, 2];
    assert ClassRowSum(m, labels, 1, 2) == [0, 0, 0];
  }
}
