/** The `NaiveBayes` classifier object: three fields that are absent until
    `Fit` fills them, the training methods that fill them and the inference
    methods that read them. */
module Classifier {
  import opened Sums
  import opened Estimation
  import opened Inference

  /** A field that is `None` before training. */
  datatype Option<T> = None | Some(value: T)

  /** Why an inference call fails: the model is not trained (a field is
      absent, or for prediction also empty), or class `classId` has a prior but
      no conditionals (a lookup of a missing key). */
  datatype Error = NotTrained | MissingClass(classId: nat)

  datatype Result<T> = Ok(value: T) | Err(error: Error)

  class NaiveBayes {
    var classPriors: Option<map<nat, real>>
    var conditionalProbabilities: Option<map<nat, seq<real>>>
    var vocabSize: Option<nat>

    /** What `Fit` establishes: the three fields are present together, the
        prior keys are the ids 0 .. K - 1 for K priors, and every conditional
        vector has one entry per vocabulary word. */
    ghost predicate Valid()
      reads this
    {
      && (classPriors.Some? <==> conditionalProbabilities.Some?)
      && (classPriors.Some? <==> vocabSize.Some?)
      && (classPriors.Some? ==>
            forall c: nat :: c in classPriors.value <==> c < |classPriors.value|)
      && (conditionalProbabilities.Some? ==>
            forall c :: c in conditionalProbabilities.value ==>
              |conditionalProbabilities.value[c]| == vocabSize.value)
    }

    /** The guard of `predict` and `predict_proba`: neither map is absent or empty. */
    predicate IsTrained()
      reads this
    {
      && classPriors.Some? && classPriors.value != map[]
      && conditionalProbabilities.Some? && conditionalProbabilities.value != map[]
    }

    constructor ()
      ensures Valid()
      ensures classPriors == None && conditionalProbabilities == None && vocabSize == None
    {
      classPriors := None;
      conditionalProbabilities := None;
      vocabSize := None;
    }

    /** Trains on `features` (one row per example) and `labels`: dense priors
        from the label counts, the vocabulary size, then the smoothed
        conditionals. Every field is overwritten from the arguments alone. */
    method Fit(features: Matrix, labels: seq<nat>, delta: real := 1.0)
      requires features.WellFormed() && |labels| == |features.rows|
      requires delta > 0.0
      modifies this
      ensures Valid()
      ensures classPriors == Some(DensePriors(labels))
      ensures vocabSize == Some(features.cols)
      ensures conditionalProbabilities == Some(SmoothedConditionals(features, labels, delta))
    {
      var numExamples := |labels|;
      var classCounts := BinCount(labels);
      classPriors := Some(map c | c in Ids(|classCounts|) :: classCounts[c] as real / numExamples as real);
      vocabSize := Some(features.cols);
      var conditionals := EstimateConditionalProbabilities(features, labels, delta);
      conditionalProbabilities := Some(conditionals);
      DensePriorsShape(labels);
      ConditionalsAreDistributions(features, labels, delta);
    }

    /** The alternative prior estimator (not used by `Fit`): one entry per
        distinct label, its share of the examples. */
    method EstimateClassPriors(labels: seq<nat>) returns (priors: map<nat, real>)
      ensures priors == SparsePriors(labels)
    {
      priors := map[];
      var pending := set l | l in labels;
      while pending != {}
        invariant forall c :: c in pending ==> c in labels
        invariant forall c :: c in priors <==> c in labels && c !in pending
        invariant forall c :: c in priors ==> priors[c] == Count(labels, c) as real / |labels| as real
        decreases pending
      {
        var classId :| classId in pending;
        priors := priors[classId := Count(labels, classId) as real / |labels| as real];
        pending := pending - {classId};
      }
    }

    /** Sums the rows of each label into per-class word counts, then smooths
        each class's counts over `vocabSize` words. */
    method EstimateConditionalProbabilities(features: Matrix, labels: seq<nat>, delta: real)
      returns (conditionals: map<nat, seq<real>>)
      requires features.WellFormed() && |labels| == |features.rows|
      requires delta > 0.0
      requires vocabSize == Some(features.cols)
      ensures conditionals == SmoothedConditionals(features, labels, delta)
    {
      var classWordCounts: map<nat, seq<nat>> := map[];
      var i := 0;
      while i < |features.rows|
        invariant 0 <= i <= |features.rows|
        invariant forall c :: c in classWordCounts <==> c in labels[..i]
        invariant forall c :: c in classWordCounts ==>
          classWordCounts[c] == ClassRowSum(features, labels, c, i)
      {
        var bow := features.rows[i];
        var classId := labels[i];
        if classId in classWordCounts {
          classWordCounts := classWordCounts[classId := VecAdd(classWordCounts[classId], bow)];
        } else {
          ClassRowSumAbsent(features, labels, classId, i);
          VecAddZeros(bow);
          classWordCounts := classWordCounts[classId := bow];
        }
        assert labels[..i + 1] == labels[..i] + [classId];
        i := i + 1;
      }
      assert labels[..i] == labels;
      assert classWordCounts == ClassWordCounts(features, labels);

      conditionals := map[];
      var pending := classWordCounts.Keys;
      while pending != {}
        invariant pending <= classWordCounts.Keys
        invariant forall c :: c in conditionals <==> c in classWordCounts && c !in pending
        invariant forall c :: c in conditionals ==>
          conditionals[c] == Smooth(classWordCounts[c], delta, vocabSize.value)
        decreases pending
      {
        var classId :| classId in pending;
        var wordCounts := classWordCounts[classId];
        conditionals := conditionals[classId := Smooth(wordCounts, delta, vocabSize.value)];
        pending := pending - {classId};
      }
    }

    /** The log-posterior of every class id in 0 .. K - 1, in ascending id
        order; fails when a field is absent, or at the first id that has a
        prior but no conditionals. */
    method EstimateClassPosteriors(feature: seq<nat>, log: real -> real) returns (r: Result<seq<real>>)
      requires Valid()
      requires vocabSize.Some? ==> |feature| == vocabSize.value
      ensures r == Err(NotTrained) <==> classPriors.None? || conditionalProbabilities.None?
      ensures r.Ok? <==>
        && classPriors.Some? && conditionalProbabilities.Some?
        && Scorable(classPriors.value, conditionalProbabilities.value, |feature|)
      ensures r.Ok? ==>
        r.value == LogPosteriors(classPriors.value, conditionalProbabilities.value, feature, log)
      ensures r.Err? && r.error.MissingClass? ==>
        && classPriors.Some? && conditionalProbabilities.Some?
        && r.error.classId < |classPriors.value|
        && r.error.classId !in conditionalProbabilities.value
        && forall c: nat :: c < r.error.classId ==> c in conditionalProbabilities.value
    {
      if conditionalProbabilities.None? || classPriors.None? {
        return Err(NotTrained);
      }
      var priors := classPriors.value;
      var conditionals := conditionalProbabilities.value;
      var logPosteriors := new real[|priors|](_ => 0.0);
      var c := 0;
      while c < |priors|
        invariant 0 <= c <= |priors|
        invariant forall k: nat :: k < c ==> k in conditionals
        invariant forall k: nat :: k < c ==>
          logPosteriors[k] == log(priors[k]) + LogLikelihood(feature, conditionals[k], log)
      {
        if c !in conditionals {
          return Err(MissingClass(c));
        }
        logPosteriors[c] := log(priors[c]) + LogLikelihood(feature, conditionals[c], log);
        c := c + 1;
      }
      return Ok(logPosteriors[..]);
    }

    /** The class id with the highest log-posterior, the first one on a tie. */
    method Predict(feature: seq<nat>, log: real -> real) returns (r: Result<nat>)
      requires Valid()
      requires vocabSize.Some? ==> |feature| == vocabSize.value
      ensures r == Err(NotTrained) <==> !IsTrained()
      ensures r.Ok? <==>
        IsTrained() && Scorable(classPriors.value, conditionalProbabilities.value, |feature|)
      ensures r.Ok? ==>
        && r.value < |classPriors.value|
        && r.value == FirstArgmax(LogPosteriors(classPriors.value, conditionalProbabilities.value, feature, log))
      ensures r.Err? && r.error.MissingClass? ==>
        && IsTrained()
        && r.error.classId < |classPriors.value|
        && r.error.classId !in conditionalProbabilities.value
        && forall c: nat :: c < r.error.classId ==> c in conditionalProbabilities.value
    {
      if !IsTrained() {
        return Err(NotTrained);
      }
      var logPosteriors := EstimateClassPosteriors(feature, log);
      if logPosteriors.Err? {
        return Err(logPosteriors.error);
      }
      var pred := FirstArgmax(logPosteriors.value);
      return Ok(pred);
    }

    /** The softmax of the log-posteriors: a probability for every class id. */
    method PredictProba(feature: seq<nat>, log: real -> real, exp: real -> real)
      returns (r: Result<seq<real>>)
      requires Valid()
      requires vocabSize.Some? ==> |feature| == vocabSize.value
      requires forall x :: exp(x) > 0.0
      ensures r == Err(NotTrained) <==> !IsTrained()
      ensures r.Ok? <==>
        IsTrained() && Scorable(classPriors.value, conditionalProbabilities.value, |feature|)
      ensures r.Ok? ==>
        r.value == Softmax(LogPosteriors(classPriors.value, conditionalProbabilities.value, feature, log), exp)
      ensures r.Err? && r.error.MissingClass? ==>
        && IsTrained()
        && r.error.classId < |classPriors.value|
        && r.error.classId !in conditionalProbabilities.value
        && forall c: nat :: c < r.error.classId ==> c in conditionalProbabilities.value
    {
      if !IsTrained() {
        return Err(NotTrained);
      }
      var logPosteriors := EstimateClassPosteriors(feature, log);
      if logPosteriors.Err? {
        return Err(logPosteriors.error);
      }
      var probs := Softmax(logPosteriors.value, exp);
      return Ok(probs);
    }
  }
}
