/** The inference side of the classifier as functions of the fitted state:
    per-class log-posterior scores, the first-argmax prediction rule and the
    softmax of the scores. The natural logarithm and exponential are not
    available as exact functions, so they are parameters (`log`, `exp`). */
module Inference {
  import opened Sums

  /** `sum(feature * log(cond))`: the log-likelihood of a bag of words under one
      class's word distribution. */
  function LogLikelihood(feature: seq<nat>, cond: seq<real>, log: real -> real): real
    requires |feature| == |cond|
  {
    if feature == [] then 0.0
    else
      var n := |feature| - 1;
      LogLikelihood(feature[..n], cond[..n], log) + feature[n] as real * log(cond[n])
  }

  /** Every class id below the number of priors has a prior and conditionals
      of the feature's length, so each class can be scored. */
  predicate Scorable(priors: map<nat, real>, conditionals: map<nat, seq<real>>, v: nat)
  {
    forall c: nat :: c < |priors| ==>
      c in priors && c in conditionals && |conditionals[c]| == v
  }

  /** Score of class `c`: `log(prior(c)) + sum(feature * log(conditional(c)))`,
      the vector indexed by class id. */
  function LogPosteriors(priors: map<nat, real>, conditionals: map<nat, seq<real>>,
                         feature: seq<nat>, log: real -> real): seq<real>
    requires Scorable(priors, conditionals, |feature|)
  {
    seq(|priors|, c requires 0 <= c < |priors| =>
      log(priors[c]) + LogLikelihood(feature, conditionals[c], log))
  }

  /** `k` is the first position holding the maximum of `s`. */
  predicate IsFirstArgmax(s: seq<real>, k: nat)
  {
    && k < |s|
    && (forall i :: 0 <= i < |s| ==> s[i] <= s[k])
    && (forall i :: 0 <= i < k ==> s[i] < s[k])
  }

  /** `argmax(s)`: the first index that reaches the maximum. */
  function FirstArgmax(s: seq<real>): (k: nat)
    requires s != []
    ensures IsFirstArgmax(s, k)
  {
    if |s| == 1 then 0
    else
      var k := FirstArgmax(s[..|s| - 1]);
      if s[|s| - 1] > s[k] then |s| - 1 else k
  }

  /** The first argmax is the only index with its two properties. */
  lemma FirstArgmaxUnique(s: seq<real>, k: nat)
    requires IsFirstArgmax(s, k)
    ensures k == FirstArgmax(s)
  {
  }

  /** `exp` applied to every score; a positive `exp` gives positive entries. */
  function Exps(s: seq<real>, exp: real -> real): (e: seq<real>)
    requires forall x :: exp(x) > 0.0
    ensures |e| == |s|
    ensures forall i :: 0 <= i < |s| ==> e[i] == exp(s[i]) && e[i] > 0.0
  {
    if s == [] then [] else Exps(s[..|s| - 1], exp) + [exp(s[|s| - 1])]
  }

  /** `softmax(s)`: each exponentiated score over the sum of all of them. */
  function Softmax(s: seq<real>, exp: real -> real): seq<real>
    requires forall x :: exp(x) > 0.0
  {
    if s == [] then []
    else
      var e := Exps(s, exp);
      SumPositive(e);
      var z := Sum(e);
      seq(|s|, i requires 0 <= i < |s| => e[i] / z)
  }

  /** The softmax of a non-empty score vector is a probability distribution
      with no zero entry. */
  lemma SoftmaxIsDistribution(s: seq<real>, exp: real -> real)
    requires forall x :: exp(x) > 0.0
    requires s != []
    ensures |Softmax(s, exp)| == |s|
    ensures forall i :: 0 <= i < |s| ==> 0.0 < Softmax(s, exp)[i] <= 1.0
    ensures Sum(Softmax(s, exp)) == 1.0
  {
    var e := Exps(s, exp);
    var p := Softmax(s, exp);
    SumPositive(e);
    var z := Sum(e);
    assert forall i :: 0 <= i < |p| ==> p[i] == e[i] / z;
    SumScaled(p, e, z);
    WholeOverWhole(z);
    forall i | 0 <= i < |s|
      ensures 0.0 < p[i]
    {
      DivMonotone(0.0, e[i], z);
    }
    forall i | 0 <= i < |s|
      ensures p[i] <= 1.0
    {
      EntryAtMostSum(p, i);
    }
  }

  /** With a strictly increasing `exp`, the softmax ranks classes as the scores
      do, so the most probable class is the predicted one (ties included). */
  lemma SoftmaxKeepsArgmax(s: seq<real>, exp: real -> real)
    requires forall x :: exp(x) > 0.0
    requires forall x, y :: x < y ==> exp(x) < exp(y)
    requires s != []
    ensures FirstArgmax(Softmax(s, exp)) == FirstArgmax(s)
  {
    var k := FirstArgmax(s);
    var p := Softmax(s, exp);
    var e := Exps(s, exp);
    SumPositive(e);
    var z := Sum(e);
    forall i | 0 <= i < |s|
      ensures p[i] <= p[k]
      ensures i < k ==> p[i] < p[k]
    {
      DivMonotone(e[i], e[k], z);
    }
    FirstArgmaxUnique(p, k);
  }
}
