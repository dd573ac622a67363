/**
 The training objective: a soft-target softmax cross entropy of the unbiased
 logits against a target built from the biased probabilities plus an
 inverse-usage regulariser, averaged over the batch.
 */
module Objective {
  import opened Vectors
  import opened Numerics

  /** The constant that keeps the usage ratio finite. */
  const Epsilon: real := 0.000001

  /** logits - logsumexp(logits) on one row. */
  function LogProbs(t: Transcendentals, logits: Vec): Vec
  {
    seq(|logits|, k requires 0 <= k < |logits| => logits[k] - LogSumExp(t, logits))
  }

  /** softmax_cross_entropy on one row: -sum_k target[k] * (logit[k] - logsumexp(logits)).
      The target need not be one-hot. */
  function CrossEntropy(t: Transcendentals, target: Vec, logits: Vec): real
    requires |target| == |logits|
  {
    -Dot(target, LogProbs(t, logits))
  }

  /** softmax_cross_entropy over a batch: one value per row. */
  function SoftmaxCrossEntropy(t: Transcendentals, targets: Mat, logits: Mat): (r: Vec)
    requires |targets| == |logits|
    requires forall i :: 0 <= i < |logits| ==> |targets[i]| == |logits[i]|
    ensures |r| == |logits|
  {
    seq(|logits|, i requires 0 <= i < |logits| => CrossEntropy(t, targets[i], logits[i]))
  }

  /** For a one-hot target on class c the cross entropy is the negative
      log-likelihood of c. */
  lemma CrossEntropyOneHot(t: Transcendentals, c: nat, logits: Vec)
    requires c < |logits|
    ensures CrossEntropy(t, OneHot(c, |logits|), logits) == -(logits[c] - LogSumExp(t, logits))
  {
    DotOfPointMass(OneHot(c, |logits|), LogProbs(t, logits), c);
  }

  /** The cross entropy is linear in the target, so the regularised target's loss
      is the biased-target loss plus the weighted regulariser loss. */
  lemma CrossEntropyLinearInTarget(t: Transcendentals, a: Vec, b: Vec, c: real, logits: Vec)
    requires |a| == |b| == |logits|
    ensures CrossEntropy(t, Add(a, Scale(c, b)), logits)
      == CrossEntropy(t, a, logits) + c * CrossEntropy(t, b, logits)
  {
    var lp := LogProbs(t, logits);
    var w := Add(a, Scale(c, b));
    DotLinear(w, a, b, c, lp);
    NegatedCombination(Dot(w, lp), Dot(a, lp), Dot(b, lp), c);
  }

  lemma NegatedCombination(s: real, p: real, q: real, c: real)
    requires s == p + c * q
    ensures -s == -p + c * -q
  {
  }

  /** The regulariser on one row: (probs + eps) / (usage + eps) / K. */
  function ExpectedTopics(probs: Vec, usage: Vec): (r: Vec)
    requires |probs| == |usage| > 0
    requires forall k :: 0 <= k < |usage| ==> usage[k] + Epsilon != 0.0
    ensures |r| == |probs|
    ensures NonNegative(probs) && NonNegative(usage) ==> forall k :: 0 <= k < |r| ==> r[k] > 0.0
  {
    var n := |usage| as real;
    var r := seq(|probs|, k requires 0 <= k < |probs| => (probs[k] + Epsilon) / (usage[k] + Epsilon) / n);
    if NonNegative(probs) && NonNegative(usage) then
      PositiveRatios(probs, usage, r);
      r
    else r
  }

  lemma PositiveRatios(probs: Vec, usage: Vec, r: Vec)
    requires |probs| == |usage| == |r| > 0
    requires NonNegative(probs) && NonNegative(usage)
    requires forall k :: 0 <= k < |r| ==> r[k] == (probs[k] + Epsilon) / (usage[k] + Epsilon) / |usage| as real
    ensures forall k :: 0 <= k < |r| ==> r[k] > 0.0
  {
    forall k | 0 <= k < |r|
      ensures r[k] > 0.0
    {
      var q := (probs[k] + Epsilon) / (usage[k] + Epsilon);
      assert q > 0.0;
    }
  }

  /** With no usage of a topic below zero the regulariser's denominator never
      vanishes. */
  lemma RegulariserDefined(usage: Vec)
    requires NonNegative(usage)
    ensures forall k :: 0 <= k < |usage| ==> usage[k] + Epsilon > 0.0
  {
  }

  /** The regulariser counteracts collapse: of two topics the item predicts
      equally, the more used one is asked for less. */
  lemma ExpectedTopicsFavourUnderusedTopics(probs: Vec, usage: Vec, j: nat, k: nat)
    requires |probs| == |usage| > 0 && NonNegative(probs) && NonNegative(usage)
    requires j < |usage| && k < |usage| && probs[j] == probs[k] && usage[j] < usage[k]
    ensures ExpectedTopics(probs, usage)[k] < ExpectedTopics(probs, usage)[j]
  {
    var n := |usage| as real;
    var x := probs[k] + Epsilon;
    var dj, dk := usage[j] + Epsilon, usage[k] + Epsilon;
    assert x / dk < x / dj by {
      assert x / dk * dk == x && x / dj * dj == x;
    }
    assert x / dk / n < x / dj / n;
  }

  /** An item whose prediction equals the global usage gets the flat regulariser 1/K. */
  lemma ExpectedTopicsFlatAtUsage(usage: Vec)
    requires |usage| > 0 && NonNegative(usage)
    ensures ExpectedTopics(usage, usage) == Uniform(|usage|)
  {
    var r := ExpectedTopics(usage, usage);
    var n := |usage| as real;
    forall k | 0 <= k < |usage|
      ensures r[k] == 1.0 / n
    {
      var d := usage[k] + Epsilon;
      assert r[k] == d / d / n;
      assert d / d == 1.0;
    }
  }

  /** The regularised target on one row:
      biased probs + model_regularization * ExpectedTopics(probs, usage). */
  function TargetRow(biased: Vec, probs: Vec, usage: Vec, regularization: real): (r: Vec)
    requires |biased| == |probs| == |usage| > 0
    requires forall k :: 0 <= k < |usage| ==> usage[k] + Epsilon != 0.0
    ensures |r| == |biased|
    ensures NonNegative(biased) && NonNegative(probs) && NonNegative(usage) && regularization >= 0.0 ==>
      NonNegative(r)
    ensures NonNegative(biased) && NonNegative(probs) && NonNegative(usage) && regularization > 0.0 ==>
      forall k :: 0 <= k < |r| ==> r[k] > 0.0
  {
    Add(biased, Scale(regularization, ExpectedTopics(probs, usage)))
  }

  /** The loss of a regularised target row splits into the loss against the
      biased probabilities and model_regularization times the loss against the
      regulariser. */
  lemma TargetCrossEntropySplits(t: Transcendentals, biased: Vec, probs: Vec, usage: Vec, regularization: real, logits: Vec)
    requires |biased| == |probs| == |usage| == |logits| > 0
    requires forall k :: 0 <= k < |usage| ==> usage[k] + Epsilon != 0.0
    ensures CrossEntropy(t, TargetRow(biased, probs, usage, regularization), logits)
      == CrossEntropy(t, biased, logits) + regularization * CrossEntropy(t, ExpectedTopics(probs, usage), logits)
  {
    CrossEntropyLinearInTarget(t, biased, ExpectedTopics(probs, usage), regularization, logits);
  }

  /** The target rows of the batch. */
  function Targets(biased: Mat, probs: Mat, usage: Vec, regularization: real): (r: Mat)
    requires |usage| > 0 && IsMatrix(biased, |biased|, |usage|) && IsMatrix(probs, |biased|, |usage|)
    requires forall k :: 0 <= k < |usage| ==> usage[k] + Epsilon != 0.0
    ensures IsMatrix(r, |biased|, |usage|)
  {
    seq(|biased|, i requires 0 <= i < |biased| => TargetRow(biased[i], probs[i], usage, regularization))
  }

  /** tf.reduce_mean of the per-row cross entropies. */
  function Loss(t: Transcendentals, targets: Mat, logits: Mat): real
    requires |targets| == |logits| > 0
    requires forall i :: 0 <= i < |logits| ==> |targets[i]| == |logits[i]|
  {
    Sum(SoftmaxCrossEntropy(t, targets, logits)) / |logits| as real
  }

  /** With one-hot targets the loss is the mean negative log-likelihood. */
  lemma LossOfOneHotTargets(t: Transcendentals, classes: seq<nat>, logits: Mat, nTopics: nat)
    requires |classes| == |logits| > 0 && IsMatrix(logits, |logits|, nTopics)
    requires forall i :: 0 <= i < |classes| ==> classes[i] < nTopics
    ensures var targets := seq(|classes|, i requires 0 <= i < |classes| => OneHot(classes[i], nTopics));
      Loss(t, targets, logits)
        == Sum(seq(|classes|, i requires 0 <= i < |classes| => -(logits[i][classes[i]] - LogSumExp(t, logits[i])))) / |logits| as real
  {
    var targets := seq(|classes|, i requires 0 <= i < |classes| => OneHot(classes[i], nTopics));
    var nll := seq(|classes|, i requires 0 <= i < |classes| => -(logits[i][classes[i]] - LogSumExp(t, logits[i])));
    var ce := SoftmaxCrossEntropy(t, targets, logits);
    forall i | 0 <= i < |classes|
      ensures ce[i] == nll[i]
    {
      CrossEntropyOneHot(t, classes[i], logits[i]);
    }
    assert ce == nll;
  }
}
