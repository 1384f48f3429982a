# Multinomial Naive Bayes classifier: a Dafny model

This project models the `NaiveBayes` class of `src/naive_bayes.py`, a
multinomial Naive Bayes text classifier over bag-of-words count vectors.

- **Training.** `fit` counts the labels (`bincount`) into dense class priors
  `count(c) / num_examples` for every id `0 .. max(label)`. It records the
  vocabulary size (the feature matrix's column count). It then sums the rows of
  each label into per-class word counts `W_c` and smooths them additively:
  `(W_c[j] + delta) / (sum(W_c) + delta * vocab_size)`.
- **Alternative prior estimator.** `estimate_class_priors` builds a map keyed
  only by the labels that occur. `fit` does not use it.
- **Inference.** `estimate_class_posteriors` scores each class id as
  `log prior + sum(feature * log conditional)`. `predict` returns the first
  index of the maximum score. `predict_proba` returns the softmax of the
  scores. All three fail on an untrained model.

Numbers are exact: counts are `nat`, probabilities are `real`. The logarithm
and the exponential have no exact counterpart, so they are parameters `log` and
`exp` of the inference members. The softmax lemmas assume only that `exp` is
positive and strictly increasing.

Modules:

- `Sums` (sums.dfy): counting and summation helpers.
- `Estimation` (estimation.dfy): the training formulas as functions, and their
  properties as lemmas.
- `Inference` (inference.dfy): log-posterior scores, first argmax and softmax,
  with their lemmas.
- `Classifier` (classifier.dfy): the `NaiveBayes` class. Its fields
  `classPriors`, `conditionalProbabilities` and `vocabSize` are `None` until
  `Fit` sets them. Each method is proved against the functions above.

A quirk of the source is kept on purpose. The priors of `fit` have a key for
every id up to the largest label, with 0 for an id that never occurs. The
conditionals have keys only for labels that occur. So when the labels leave a
gap (say 0 and 2 but no 1), posterior estimation looks up a missing key. The
model returns `Err(MissingClass(1))` there; the Python code raises a
`KeyError`. `Estimation.PriorKeysCoveredIffNoGap` proves that this happens
exactly when the labels leave a gap, and `Estimation.GapExample` exhibits one.

Two details of the code are kept as written:

- `fit` stores a key with prior 0 for an id that no example has
  (`src/naive_bayes.py:33-34`); `estimate_class_priors` has no key for it
  (`src/naive_bayes.py:52-55`).
- The two untrained checks differ. `estimate_class_posteriors` fails only when
  a map is `None` (`src/naive_bayes.py:106`). `predict` and `predict_proba`
  also fail when a map is empty (`src/naive_bayes.py:136`, `:163`), which is
  what `fit` leaves after training on no examples.

## Model

| member | source | states |
|---|---|---|
| Sums.Count | src/naive_bayes.py:54-55 | the number of examples with a label is at most the number of examples, and is positive exactly when the label occurs |
| Estimation.NumClasses | src/naive_bayes.py:33 | `bincount` makes one bin more than the largest label: every label is below it, the largest label is one below it, and there are no bins without labels |
| Estimation.BinCountTotal | src/naive_bayes.py:33 | the bin counts add up to the number of examples |
| Estimation.DensePriorsShape | src/naive_bayes.py:32-34 | `fit`'s priors have exactly the keys `0 .. max(labels)` (as many as bins); each value is in [0, 1] and is 0 exactly for an id no example has |
| Estimation.DensePriorsSumToOne | src/naive_bayes.py:32-34 | with at least one example, `fit`'s priors sum to 1 |
| Estimation.SparsePriorsShape | src/naive_bayes.py:50-57 | `estimate_class_priors` has a key for exactly the labels that occur, each value in (0, 1] |
| Estimation.SparsePriorsSumToOne | src/naive_bayes.py:50-57 | every key of the sparse priors is below the bin count, and the values sum to 1 |
| Estimation.SparseIsDenseWithoutZeros | src/naive_bayes.py:50-57 | the two prior estimators agree: the sparse map is the dense map without its zero entries |
| Estimation.ClassRowSum | src/naive_bayes.py:76-83 | a per-class sum of rows has one entry per vocabulary word |
| Estimation.ClassRowSumAbsent | src/naive_bayes.py:80-83 | a class with no example among the rows seen so far has all-zero word counts, so starting a class's sum from its first row is the same as adding that row to zeros |
| Estimation.WordCountsConserved | src/naive_bayes.py:74-83 | summed over all classes, the per-class counts of each word equal that word's column total: every row is added to exactly one class |
| Estimation.SmoothIsDistribution | src/naive_bayes.py:87-88 | with `delta > 0` and a non-empty vocabulary, every smoothed entry is in (0, 1] and the vector sums to 1 |
| Estimation.ConditionalsAreDistributions | src/naive_bayes.py:85-91 | the conditionals have a key for exactly the labels that occur; each vector has `vocab_size` entries, all in (0, 1], summing to 1 |
| Estimation.PriorKeysCoveredIffNoGap | src/naive_bayes.py:113-115 | after `fit`, every prior key has conditionals if and only if the labels leave no gap in `0 .. max(labels)` |
| Estimation.GapExample | src/naive_bayes.py:113-115 | labels 0 and 2: class 1 gets prior 0 and no conditionals |
| Estimation.WorkedExample | src/naive_bayes.py:32-36 | rows [1,0,1], [0,1,1], [1,1,0] with labels [0,0,1] and delta 1 give priors 2/3 and 1/3 and conditionals [2/7,2/7,3/7] and [2/5,2/5,1/5] |
| Inference.FirstArgmax | src/naive_bayes.py:144 | `argmax` returns an index holding the maximum, with every earlier entry strictly smaller |
| Inference.FirstArgmaxUnique | src/naive_bayes.py:144 | only one index has those two properties |
| Inference.Exps | src/naive_bayes.py:171 | exponentiating keeps the length and, for a positive `exp`, gives positive entries |
| Inference.SoftmaxIsDistribution | src/naive_bayes.py:171 | the softmax of a non-empty score vector has the same length, entries in (0, 1], and sums to 1 |
| Inference.SoftmaxKeepsArgmax | src/naive_bayes.py:169-171 | with a strictly increasing `exp`, the first argmax of the softmax is the first argmax of the scores, so `predict` picks the class `predict_proba` rates most probable |
| Classifier.NaiveBayes.constructor | src/naive_bayes.py:14-20 | a new classifier has all three fields absent |
| Classifier.NaiveBayes.Fit | src/naive_bayes.py:22-37 | with `delta` defaulting to 1, the fields become the dense priors of the labels, the column count of the features and the smoothed conditionals, from the arguments alone; the object invariant holds |
| Classifier.NaiveBayes.EstimateClassPriors | src/naive_bayes.py:39-57 | the loop over the distinct labels returns the sparse priors |
| Classifier.NaiveBayes.EstimateConditionalProbabilities | src/naive_bayes.py:59-91 | the loop over rows builds, for each label that occurs, the sum of its rows; the second loop smooths each; the result is the smoothed conditionals |
| Classifier.NaiveBayes.EstimateClassPosteriors | src/naive_bayes.py:93-120 | fails with NotTrained exactly when a map is absent; otherwise succeeds exactly when every class id below the number of priors has conditionals, and then returns `log prior + sum(feature * log conditional)` for each id; otherwise fails at the first id without conditionals |
| Classifier.NaiveBayes.Predict | src/naive_bayes.py:122-146 | fails with NotTrained exactly when a map is absent or empty; on success returns the first argmax of the log-posteriors, an id below the number of priors; otherwise fails at the first class id without conditionals, as `estimate_class_posteriors` does |
| Classifier.NaiveBayes.PredictProba | src/naive_bayes.py:149-172 | the same guard and failures as `Predict`, including the first id without conditionals; on success returns the softmax of the log-posteriors |

## Left out

- `torch.log` and `torch.softmax`/`exp` are not computed. They are the parameters `log` and `exp`. The softmax lemmas assume `exp` is positive and strictly increasing.
- float32 rounding, NaN and infinities are not modelled: all arithmetic is exact over `real`.
- Classifier.NaiveBayes.Fit: requires `delta > 0`. With `delta = 0`, a class whose rows are all zero divides 0 by 0 in the source; that case is not modelled.
- Labels are `nat` in `Fit`: `bincount` rejects negative labels (`src/naive_bayes.py:33`).
- Classifier.NaiveBayes.EstimateClassPriors: labels are `nat` here too, although the source (`src/naive_bayes.py:52-55`) never calls `bincount` and accepts negative labels. Class ids are non-negative throughout the model, so the map keys share one type with `fit`'s priors; negative keys are not modelled.
- Shape mismatches are excluded by `requires`: rows of different lengths, a label count that differs from the row count, an inference feature whose length differs from `vocab_size`. The source checks none of these. A row of a different length or a feature of the wrong length makes `torch` fail or broadcast.
- Classifier.NaiveBayes.Fit: `|labels| == |features.rows|` also excludes a case that runs without error in the source. When there are more labels than rows, `bincount` counts every label into the priors (`src/naive_bayes.py:33-34`), but the row loop (`src/naive_bayes.py:76-78`) reads only the first `len(features)` labels. The priors can then hold keys with no conditionals. Fewer labels than rows makes `labels[i]` fail.
- Classifier.NaiveBayes.EstimateConditionalProbabilities: the accumulator is a fresh value. In the source, the first row of each label is a view into the caller's `features`, and the in-place `+=` overwrites that row with the running sum. The returned sums are the same.
- Classifier.NaiveBayes.EstimateClassPriors and EstimateConditionalProbabilities take the distinct labels and the map keys in any order. The source goes in sorted or insertion order; the resulting maps are the same.
- The inference methods require the object invariant `Valid()`, which only the constructor and `Fit` establish. States that `fit` cannot produce are not considered. Examples: priors whose keys are not `0 .. K-1`, or one field set without the others.
- The `ValueError` of `estimate_class_posteriors` and the `Exception` of `predict`/`predict_proba` are both `NotTrained`; their messages are not modelled.
- The diagnostic `print` of the log-posteriors is output only and is left out.
- The imports of `SentimentExample` and `bag_of_words` are unused by the logic. `src/utils.py` and `src/data_processing.py` are not part of this model.
