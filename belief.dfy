/**
 The author belief engine: a fixed number of rounds of a mean-field update
 that turns each item's gathered author topic counts (and, optionally, the
 author's observed topic) into a per-topic bias added to the item logits.

 One round, for batch row i with count row c, label l and previous
 prediction p:
   p'   = one_hot(l)  if author labels are used and l >= 0, else p
   bias = digamma(alpha + c + w * p')            (entry-wise)
   next = softmax(w * bias)
 The prediction before the first round is uniform.
 */
module Belief {
  import opened Vectors
  import opened Numerics

  /** alpha, author_topic_weight and use_author_topics. */
  datatype Params = Params(alpha: real, weight: real, useAuthorTopics: bool)

  /** The state after a round: the new predictions and the biases of that round. */
  datatype RoundResult = RoundResult(prediction: Mat, bias: Mat)

  /** Labels as the topic table yields them: -1 (missing) or a topic index. */
  predicate ValidLabels(labels: seq<int>, nTopics: nat)
  {
    forall i :: 0 <= i < |labels| ==> -1 <= labels[i] < nTopics as int
  }

  /** The batch shape the belief engine works on: one count row and one label
      per item, K topics. */
  predicate WellShaped(counts: Mat, labels: seq<int>, nTopics: nat)
  {
    nTopics > 0 && IsMatrix(counts, |labels|, nTopics)
  }

  /** tf.where(author_topics < 0, prediction, one_hot) on one row, applied only
      when author labels are used. */
  function Override(p: Params, authorTopic: int, previous: Vec): Vec
  {
    if p.useAuthorTopics && authorTopic >= 0 then OneHot(authorTopic, |previous|) else previous
  }

  /** The Dirichlet pseudo-count of one topic: alpha + count + w * predicted share. */
  function PseudoCount(p: Params, count: real, share: real): real
  {
    p.alpha + count + p.weight * share
  }

  /** digamma(alpha + counts + w * prediction) on one row. */
  function TopicBias(t: Transcendentals, p: Params, counts: Vec, prediction: Vec): Vec
    requires |counts| == |prediction|
  {
    seq(|counts|, k requires 0 <= k < |counts| => Digamma(t, PseudoCount(p, counts[k], prediction[k])))
  }

  /** The prediction a round uses for each row, after the label override. */
  function Effective(p: Params, labels: seq<int>, prediction: Mat): Mat
    requires |prediction| == |labels|
  {
    seq(|labels|, i requires 0 <= i < |labels| => Override(p, labels[i], prediction[i]))
  }

  /** One round of the loop body over the whole batch. */
  function Round(t: Transcendentals, p: Params, counts: Mat, labels: seq<int>, prediction: Mat): RoundResult
    requires ExpPositive(t)
    requires |counts| == |labels| == |prediction|
    requires forall i :: 0 <= i < |counts| ==> |counts[i]| == |prediction[i]|
  {
    var eff := Effective(p, labels, prediction);
    var bias := seq(|labels|, i requires 0 <= i < |labels| => TopicBias(t, p, counts[i], eff[i]));
    var next := seq(|labels|, i requires 0 <= i < |labels| => Softmax(t, Scale(p.weight, bias[i])));
    RoundResult(next, bias)
  }

  /** The author topic predictions after n rounds; uniform before the first. */
  function PredictionAfter(t: Transcendentals, p: Params, counts: Mat, labels: seq<int>, nTopics: nat, n: nat): (r: Mat)
    requires ExpPositive(t) && WellShaped(counts, labels, nTopics)
    ensures IsMatrix(r, |labels|, nTopics)
  {
    if n == 0 then seq(|labels|, i => Uniform(nTopics))
    else Round(t, p, counts, labels, PredictionAfter(t, p, counts, labels, nTopics, n - 1)).prediction
  }

  /** The topic biases computed in round n (counting from 1). */
  function BiasOfRound(t: Transcendentals, p: Params, counts: Mat, labels: seq<int>, nTopics: nat, n: nat): (r: Mat)
    requires ExpPositive(t) && WellShaped(counts, labels, nTopics) && n >= 1
    ensures IsMatrix(r, |labels|, nTopics)
  {
    Round(t, p, counts, labels, PredictionAfter(t, p, counts, labels, nTopics, n - 1)).bias
  }

  /** logits_biased = logits + topic_biases. */
  function BiasedLogits(logits: Mat, bias: Mat): (r: Mat)
    requires |logits| == |bias| && forall i :: 0 <= i < |logits| ==> |logits[i]| == |bias[i]|
    ensures |r| == |logits| && forall i :: 0 <= i < |logits| ==> |r[i]| == |logits[i]|
  {
    seq(|logits|, i requires 0 <= i < |logits| => Add(logits[i], bias[i]))
  }

  /** The loop of the source: exactly `rounds` iterations, each reassigning the
      prediction and the bias. */
  method BeliefIterate(t: Transcendentals, p: Params, counts: Mat, labels: seq<int>, nTopics: nat, rounds: nat)
    returns (prediction: Mat, bias: Mat)
    requires ExpPositive(t) && WellShaped(counts, labels, nTopics)
    requires rounds >= 1
    ensures prediction == PredictionAfter(t, p, counts, labels, nTopics, rounds)
    ensures bias == BiasOfRound(t, p, counts, labels, nTopics, rounds)
    ensures forall i :: 0 <= i < |labels| ==> IsDistribution(prediction[i])
  {
    prediction := seq(|labels|, i => Uniform(nTopics));
    bias := [];
    var r := 0;
    while r < rounds
      invariant 0 <= r <= rounds
      invariant prediction == PredictionAfter(t, p, counts, labels, nTopics, r)
      invariant r >= 1 ==> bias == BiasOfRound(t, p, counts, labels, nTopics, r)
    {
      var next := Round(t, p, counts, labels, prediction);
      prediction, bias := next.prediction, next.bias;
      r := r + 1;
    }
    PredictionsAreDistributions(t, p, counts, labels, nTopics, rounds);
  }

  /** Every prediction row is a distribution over topics, in every round; before
      the first round it is the uniform one. */
  lemma PredictionsAreDistributions(t: Transcendentals, p: Params, counts: Mat, labels: seq<int>, nTopics: nat, n: nat)
    requires ExpPositive(t) && WellShaped(counts, labels, nTopics)
    ensures n == 0 ==> forall i :: 0 <= i < |labels| ==> PredictionAfter(t, p, counts, labels, nTopics, n)[i] == Uniform(nTopics)
    ensures forall i :: 0 <= i < |labels| ==> IsDistribution(PredictionAfter(t, p, counts, labels, nTopics, n)[i])
  {
    if n == 0 {
      UniformIsDistribution(nTopics);
    }
  }

  /** The prediction each round feeds to digamma is a distribution as well:
      either the one-hot label or the previous prediction. */
  lemma EffectiveIsDistribution(t: Transcendentals, p: Params, counts: Mat, labels: seq<int>, nTopics: nat, n: nat)
    requires ExpPositive(t) && WellShaped(counts, labels, nTopics) && ValidLabels(labels, nTopics)
    ensures forall i :: 0 <= i < |labels| ==>
      IsDistribution(Effective(p, labels, PredictionAfter(t, p, counts, labels, nTopics, n))[i])
  {
    var prev := PredictionAfter(t, p, counts, labels, nTopics, n);
    PredictionsAreDistributions(t, p, counts, labels, nTopics, n);
    forall i | 0 <= i < |labels|
      ensures IsDistribution(Effective(p, labels, prev)[i])
    {
      if p.useAuthorTopics && labels[i] >= 0 {
        OneHotIsDistribution(labels[i], nTopics);
      }
    }
  }

  /** In every round, with a non-negative weight, the digamma argument of topic k
      lies between alpha + counts[k] and alpha + counts[k] + w: the belief can
      move the pseudo-counts by at most one weighted observation. */
  lemma DigammaArgumentBounded(t: Transcendentals, p: Params, counts: Mat, labels: seq<int>, nTopics: nat, n: nat, i: nat, k: nat)
    requires ExpPositive(t) && WellShaped(counts, labels, nTopics) && ValidLabels(labels, nTopics)
    requires p.weight >= 0.0 && n >= 1 && i < |labels| && k < nTopics
    ensures var e := Effective(p, labels, PredictionAfter(t, p, counts, labels, nTopics, n - 1))[i];
      && BiasOfRound(t, p, counts, labels, nTopics, n)[i][k] == Digamma(t, PseudoCount(p, counts[i][k], e[k]))
      && p.alpha + counts[i][k] <= PseudoCount(p, counts[i][k], e[k]) <= p.alpha + counts[i][k] + p.weight
  {
    var prev := PredictionAfter(t, p, counts, labels, nTopics, n - 1);
    var e := Effective(p, labels, prev)[i];
    EffectiveIsDistribution(t, p, counts, labels, nTopics, n - 1);
    EntryAtMostSum(e, k);
    RoundBiasAt(t, p, counts, labels, prev, i, k);
    WeightedShareBounded(p, counts[i][k], e[k]);
  }

  /** Entry k of row i of a round's bias. */
  lemma RoundBiasAt(t: Transcendentals, p: Params, counts: Mat, labels: seq<int>, prediction: Mat, i: nat, k: nat)
    requires ExpPositive(t)
    requires |counts| == |labels| == |prediction|
    requires forall j :: 0 <= j < |counts| ==> |counts[j]| == |prediction[j]|
    requires i < |labels| && k < |counts[i]|
    ensures |Round(t, p, counts, labels, prediction).bias[i]| == |counts[i]|
    ensures Round(t, p, counts, labels, prediction).bias[i][k]
      == Digamma(t, PseudoCount(p, counts[i][k], Effective(p, labels, prediction)[i][k]))
  {
  }

  lemma WeightedShareBounded(p: Params, count: real, e: real)
    requires p.weight >= 0.0 && 0.0 <= e <= 1.0
    ensures p.alpha + count <= PseudoCount(p, count, e) <= p.alpha + count + p.weight
  {
    var w := p.weight;
    ProductNonNegative(w, e);
    ProductNonNegative(w, 1.0 - e);
    assert w * e == w - w * (1.0 - e);
  }

  lemma ProductNonNegative(x: real, y: real)
    requires x >= 0.0 && y >= 0.0
    ensures x * y >= 0.0
  {
  }

  /** When author labels are used, a labelled author's bias is the same in every
      round: the one-hot label replaces whatever the previous round predicted. */
  lemma LabelledBiasIsFixed(t: Transcendentals, p: Params, counts: Mat, labels: seq<int>, nTopics: nat, n: nat, i: nat)
    requires ExpPositive(t) && WellShaped(counts, labels, nTopics)
    requires n >= 1 && i < |labels| && p.useAuthorTopics && labels[i] >= 0
    ensures BiasOfRound(t, p, counts, labels, nTopics, n)[i] == TopicBias(t, p, counts[i], OneHot(labels[i], nTopics))
  {
  }

  /** An author whose label is unused or missing and whose counts are equal across
      topics keeps the uniform prediction in every round, and every round's bias
      is then the same for all topics. */
  lemma {:induction false} FlatCountsStayUniform(t: Transcendentals, p: Params, counts: Mat, labels: seq<int>, nTopics: nat, n: nat, i: nat, c: real)
    requires ExpPositive(t) && WellShaped(counts, labels, nTopics)
    requires i < |labels| && (!p.useAuthorTopics || labels[i] < 0)
    requires forall k :: 0 <= k < nTopics ==> counts[i][k] == c
    ensures PredictionAfter(t, p, counts, labels, nTopics, n)[i] == Uniform(nTopics)
    ensures n >= 1 ==> forall k :: 0 <= k < nTopics ==>
      BiasOfRound(t, p, counts, labels, nTopics, n)[i][k] == Digamma(t, PseudoCount(p, c, 1.0 / nTopics as real))
  {
    if n >= 1 {
      FlatCountsStayUniform(t, p, counts, labels, nTopics, n - 1, i, c);
      var b := BiasOfRound(t, p, counts, labels, nTopics, n)[i];
      var d := Digamma(t, PseudoCount(p, c, 1.0 / nTopics as real));
      assert forall k :: 0 <= k < nTopics ==> b[k] == d;
      SoftmaxOfConstant(t, Scale(p.weight, b), p.weight * d);
    }
  }

  /** With flat counts and no label in use, the bias shifts all of an item's
      logits by the same amount, so the biased argmax is the unbiased argmax. */
  lemma FlatCountsKeepArgmax(t: Transcendentals, p: Params, counts: Mat, labels: seq<int>, nTopics: nat, n: nat, i: nat, c: real, logits: Mat)
    requires ExpPositive(t) && WellShaped(counts, labels, nTopics) && n >= 1
    requires i < |labels| && (!p.useAuthorTopics || labels[i] < 0)
    requires forall k :: 0 <= k < nTopics ==> counts[i][k] == c
    requires IsMatrix(logits, |labels|, nTopics)
    ensures Argmax(BiasedLogits(logits, BiasOfRound(t, p, counts, labels, nTopics, n))[i]) == Argmax(logits[i])
  {
    FlatCountsStayUniform(t, p, counts, labels, nTopics, n, i, c);
    var b := BiasOfRound(t, p, counts, labels, nTopics, n);
    ArgmaxShiftInvariant(logits[i], BiasedLogits(logits, b)[i], Digamma(t, PseudoCount(p, c, 1.0 / nTopics as real)));
  }

  /** With a positive weight, flat counts with alpha + count > 0 and a digamma
      increasing on the positive reals, an author's observed label gives its topic
      the strictly largest bias in every round. */
  lemma LabelFavoursItsTopic(t: Transcendentals, p: Params, counts: Mat, labels: seq<int>, nTopics: nat, n: nat, i: nat, c: real)
    requires ExpPositive(t) && DigammaIncreasing(t) && WellShaped(counts, labels, nTopics)
    requires n >= 1 && i < |labels| && p.useAuthorTopics && 0 <= labels[i] < nTopics && p.weight > 0.0
    requires forall k :: 0 <= k < nTopics ==> counts[i][k] == c
    requires p.alpha + c > 0.0
    ensures forall k :: 0 <= k < nTopics && k != labels[i] ==>
      BiasOfRound(t, p, counts, labels, nTopics, n)[i][k] < BiasOfRound(t, p, counts, labels, nTopics, n)[i][labels[i]]
  {
    LabelledBiasIsFixed(t, p, counts, labels, nTopics, n, i);
    var b := BiasOfRound(t, p, counts, labels, nTopics, n)[i];
    var l := labels[i];
    forall k | 0 <= k < nTopics && k != l
      ensures b[k] < b[l]
    {
      var lo, hi := p.alpha + c + p.weight * 0.0, p.alpha + c + p.weight * 1.0;
      assert b[k] == Digamma(t, lo) && b[l] == Digamma(t, hi);
      assert 0.0 < lo < hi;
    }
  }
}
