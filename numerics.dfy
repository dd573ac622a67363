/**
 The numeric primitives of the step: softmax, log-sum-exp and argmax over
 exact reals. The transcendental functions exp, log and digamma are not
 computed; they are supplied as function values, and the only fact assumed
 about them is that exp is strictly positive.
 */
module Numerics {
  import opened Vectors

  /** The scalar functions the step applies element-wise. */
  datatype Transcendentals = Transcendentals(exp: real -> real, log: real -> real, digamma: real -> real)

  /** The supplied functions, applied. */
  function Exp(t: Transcendentals, x: real): real { t.exp(x) }

  function Log(t: Transcendentals, x: real): real { t.log(x) }

  function Digamma(t: Transcendentals, x: real): real { t.digamma(x) }

  /** The one property of exp the model relies on. */
  ghost predicate ExpPositive(t: Transcendentals)
  {
    forall x :: Exp(t, x) > 0.0
  }

  /** digamma is strictly increasing on the positive reals (it has poles at 0,
      -1, -2, ... and is increasing between them only); assumed only where stated. */
  ghost predicate DigammaIncreasing(t: Transcendentals)
  {
    forall x, y :: 0.0 < x < y ==> Digamma(t, x) < Digamma(t, y)
  }

  /** exp applied to every entry. */
  function Exps(t: Transcendentals, v: Vec): Vec
  {
    seq(|v|, k requires 0 <= k < |v| => Exp(t, v[k]))
  }

  lemma ExpsPositive(t: Transcendentals, v: Vec)
    requires ExpPositive(t)
    ensures forall k :: 0 <= k < |v| ==> Exps(t, v)[k] > 0.0
  {
    forall k | 0 <= k < |v|
      ensures Exps(t, v)[k] > 0.0
    {
    }
  }

  /** tf.nn.softmax on one row: exp(v[k]) / sum_j exp(v[j]). Every result is a
      point of the open simplex. */
  function Softmax(t: Transcendentals, v: Vec): (r: Vec)
    requires ExpPositive(t)
    ensures |r| == |v|
    ensures forall k :: 0 <= k < |r| ==> r[k] > 0.0
    ensures |v| > 0 ==> IsDistribution(r)
  {
    if |v| == 0 then []
    else
      var e := Exps(t, v);
      ExpsPositive(t, v);
      SumOfPositive(e);
      var r := seq(|v|, k requires 0 <= k < |v| => e[k] / Sum(e));
      NormalisedIsDistribution(e, r);
      r
  }

  /** Dividing a positive vector by its sum gives a point of the open simplex. */
  lemma NormalisedIsDistribution(e: Vec, r: Vec)
    requires |e| > 0 && |r| == |e|
    requires forall k :: 0 <= k < |e| ==> e[k] > 0.0
    requires Sum(e) > 0.0
    requires forall k :: 0 <= k < |r| ==> r[k] == e[k] / Sum(e)
    ensures forall k :: 0 <= k < |r| ==> r[k] > 0.0
    ensures IsDistribution(r)
  {
    var s := Sum(e);
    forall k | 0 <= k < |r|
      ensures r[k] == (1.0 / s) * e[k] && r[k] > 0.0
    {
    }
    SumOfPointwiseScale(1.0 / s, e, r);
  }

  /** tf.reduce_logsumexp on one row. */
  function LogSumExp(t: Transcendentals, v: Vec): real
  {
    Log(t, Sum(Exps(t, v)))
  }

  /** tf.argmax on one row: an index of a largest entry, the lowest such index on ties. */
  function Argmax(v: Vec): (r: nat)
    requires |v| > 0
    ensures r < |v|
    ensures forall j :: 0 <= j < |v| ==> v[j] <= v[r]
    ensures forall j :: 0 <= j < r ==> v[j] < v[r]
  {
    if |v| == 1 then 0
    else
      var r' := Argmax(v[..|v| - 1]);
      if v[|v| - 1] > v[r'] then |v| - 1 else r'
  }

  /** tf.reduce_max on one row: the entry at the argmax, bounding every entry. */
  function Max(v: Vec): (r: real)
    requires |v| > 0
    ensures forall j :: 0 <= j < |v| ==> v[j] <= r
    ensures exists j :: 0 <= j < |v| && v[j] == r
  {
    v[Argmax(v)]
  }

  /** The largest probability of a distribution over n classes lies in [1/n, 1]. */
  lemma MaxOfDistribution(v: Vec)
    requires |v| > 0 && IsDistribution(v)
    ensures 1.0 / |v| as real <= Max(v) <= 1.0
  {
    EntryAtMostSum(v, Argmax(v));
    SumBoundedByEntries(v, Max(v));
    AtLeastShare(Max(v), |v| as real);
  }

  lemma AtLeastShare(x: real, n: real)
    requires n > 0.0 && 1.0 <= n * x
    ensures 1.0 / n <= x
  {
  }

  /** Softmax applied to every row of a batch. */
  function SoftmaxRows(t: Transcendentals, m: Mat): (r: Mat)
    requires ExpPositive(t)
    ensures |r| == |m|
    ensures forall i :: 0 <= i < |m| ==> |r[i]| == |m[i]| && (|m[i]| > 0 ==> IsDistribution(r[i]))
    ensures forall i :: 0 <= i < |m| ==> forall k :: 0 <= k < |m[i]| ==> r[i][k] > 0.0
  {
    seq(|m|, i requires 0 <= i < |m| => Softmax(t, m[i]))
  }

  /** tf.argmax(m, 1): the argmax of every row. */
  function ArgmaxRows(m: Mat): (r: seq<nat>)
    requires forall i :: 0 <= i < |m| ==> |m[i]| > 0
    ensures |r| == |m| && forall i :: 0 <= i < |m| ==> r[i] < |m[i]|
  {
    seq(|m|, i requires 0 <= i < |m| => Argmax(m[i]))
  }

  /** tf.reduce_max(m, 1): the maximum of every row. */
  function MaxRows(m: Mat): (r: seq<real>)
    requires forall i :: 0 <= i < |m| ==> |m[i]| > 0
    ensures |r| == |m|
  {
    seq(|m|, i requires 0 <= i < |m| => Max(m[i]))
  }

  /** The two properties of Argmax determine it: any index that is maximal and
      strictly above every earlier entry is the argmax. */
  lemma ArgmaxUnique(v: Vec, r: nat)
    requires r < |v|
    requires forall j :: 0 <= j < |v| ==> v[j] <= v[r]
    requires forall j :: 0 <= j < r ==> v[j] < v[r]
    ensures Argmax(v) == r
  {
  }

  /** Adding the same amount to every entry does not move the argmax. */
  lemma ArgmaxShiftInvariant(v: Vec, w: Vec, c: real)
    requires |v| > 0 && |w| == |v|
    requires forall k :: 0 <= k < |v| ==> w[k] == v[k] + c
    ensures Argmax(w) == Argmax(v)
  {
    ArgmaxUnique(w, Argmax(v));
  }

  /** n equal positive parts x make up s, so each is the share 1/n of s. */
  lemma EqualShare(x: real, n: real, s: real)
    requires x > 0.0 && n > 0.0 && s == n * x
    ensures x / s == 1.0 / n
  {
    assert x / s * n == 1.0;
  }

  /** The softmax of a constant vector is uniform. */
  lemma SoftmaxOfConstant(t: Transcendentals, v: Vec, c: real)
    requires ExpPositive(t) && |v| > 0
    requires forall k :: 0 <= k < |v| ==> v[k] == c
    ensures Softmax(t, v) == Uniform(|v|)
  {
    var e := Exps(t, v);
    var x := Exp(t, c);
    assert forall k :: 0 <= k < |e| ==> e[k] == x;
    SumOfConstant(e, x);
    var r := Softmax(t, v);
    forall k | 0 <= k < |v|
      ensures r[k] == 1.0 / |v| as real
    {
      assert r[k] == e[k] / Sum(e);
      EqualShare(x, |v| as real, Sum(e));
    }
  }
}
