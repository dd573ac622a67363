/**
 Real-valued vectors and matrices, the exact-arithmetic counterpart of the
 float tensors of shape [K] and [B, K] that the logistic LDA step works on,
 together with the facts about finite sums that the rest of the model uses.
 */
module Vectors {

  /** A vector over topics (a tensor of shape [K]). */
  type Vec = seq<real>

  /** A batch of vectors, one row per item (a tensor of shape [B, K]). */
  type Mat = seq<Vec>

  /** The finite sum of a vector (reduce_sum over the topic axis). */
  function Sum(v: Vec): real
  {
    if |v| == 0 then 0.0 else v[0] + Sum(v[1..])
  }

  /** m has `rows` rows of `cols` columns each. */
  predicate IsMatrix(m: Mat, rows: nat, cols: nat)
  {
    |m| == rows && forall i :: 0 <= i < rows ==> |m[i]| == cols
  }

  predicate NonNegative(v: Vec)
  {
    forall k :: 0 <= k < |v| ==> v[k] >= 0.0
  }

  /** A point of the probability simplex: non-negative entries summing to 1. */
  predicate IsDistribution(v: Vec)
  {
    NonNegative(v) && Sum(v) == 1.0
  }

  /** The one-hot encoding of class c over n classes (tf.one_hot); an index
      outside [0, n), such as the missing-label index -1, gives all zeros. */
  function OneHot(c: int, n: nat): Vec
  {
    seq(n, k => if k == c then 1.0 else 0.0)
  }

  /** The uniform distribution over n classes. */
  function Uniform(n: nat): Vec
    requires n > 0
  {
    seq(n, k => 1.0 / n as real)
  }

  /** Entry-wise sum of two vectors of equal length. */
  function Add(u: Vec, v: Vec): (r: Vec)
    requires |u| == |v|
    ensures |r| == |u| && forall k :: 0 <= k < |u| ==> r[k] == u[k] + v[k]
  {
    seq(|u|, k requires 0 <= k < |u| => u[k] + v[k])
  }

  /** The inner product of two vectors of equal length. */
  function Dot(u: Vec, v: Vec): real
    requires |u| == |v|
  {
    if |u| == 0 then 0.0 else u[0] * v[0] + Dot(u[1..], v[1..])
  }

  /** The vector c * v. */
  function Scale(c: real, v: Vec): (r: Vec)
    ensures |r| == |v| && forall k :: 0 <= k < |v| ==> r[k] == c * v[k]
  {
    seq(|v|, k requires 0 <= k < |v| => c * v[k])
  }

  /** Sum is additive, stated point-wise so that callers need no sequence equality. */
  lemma {:induction false} SumOfPointwiseSum(u: Vec, v: Vec, w: Vec)
    requires |u| == |v| == |w|
    requires forall k :: 0 <= k < |w| ==> w[k] == u[k] + v[k]
    ensures Sum(w) == Sum(u) + Sum(v)
  {
    if |w| > 0 {
      SumOfPointwiseSum(u[1..], v[1..], w[1..]);
    }
  }

  /** Sum is homogeneous. */
  lemma {:induction false} SumOfPointwiseScale(c: real, u: Vec, w: Vec)
    requires |u| == |w|
    requires forall k :: 0 <= k < |w| ==> w[k] == c * u[k]
    ensures Sum(w) == c * Sum(u)
  {
    if |w| > 0 {
      SumOfPointwiseScale(c, u[1..], w[1..]);
      assert Sum(w) == c * u[0] + c * Sum(u[1..]);
    }
  }

  /** The sum of (a[k] - b[k]) / s is (Sum(a) - Sum(b)) / s. */
  lemma {:induction false} SumOfScaledDifference(a: Vec, b: Vec, w: Vec, s: real)
    requires s != 0.0
    requires |a| == |b| == |w|
    requires forall k :: 0 <= k < |w| ==> w[k] == (a[k] - b[k]) / s
    ensures Sum(w) == (Sum(a) - Sum(b)) / s
  {
    if |w| > 0 {
      SumOfScaledDifference(a[1..], b[1..], w[1..], s);
      assert Sum(w) == (a[0] - b[0]) / s + (Sum(a[1..]) - Sum(b[1..])) / s;
    }
  }

  /** The sum of a[k] - b[k] / m is Sum(a) - Sum(b) / m. */
  lemma {:induction false} SumOfShrunkDifference(a: Vec, b: Vec, w: Vec, m: real)
    requires m != 0.0
    requires |a| == |b| == |w|
    requires forall k :: 0 <= k < |w| ==> w[k] == a[k] - b[k] / m
    ensures Sum(w) == Sum(a) - Sum(b) / m
  {
    if |w| > 0 {
      SumOfShrunkDifference(a[1..], b[1..], w[1..], m);
      assert Sum(w) == (a[0] - b[0] / m) + (Sum(a[1..]) - Sum(b[1..]) / m);
    }
  }

  /** The inner product is linear in its first argument. */
  lemma {:induction false} DotLinear(w: Vec, a: Vec, b: Vec, c: real, z: Vec)
    requires |w| == |a| == |b| == |z|
    requires forall k :: 0 <= k < |w| ==> w[k] == a[k] + c * b[k]
    ensures Dot(w, z) == Dot(a, z) + c * Dot(b, z)
  {
    if |w| > 0 {
      DotLinear(w[1..], a[1..], b[1..], c, z[1..]);
      DotStep(w[0], a[0], b[0], z[0], c, Dot(w[1..], z[1..]), Dot(a[1..], z[1..]), Dot(b[1..], z[1..]));
    }
  }

  lemma DotStep(w0: real, a0: real, b0: real, z0: real, c: real, dw: real, da: real, db: real)
    requires w0 == a0 + c * b0 && dw == da + c * db
    ensures w0 * z0 + dw == (a0 * z0 + da) + c * (b0 * z0 + db)
  {
  }

  /** Against a vector that is 1 at c and 0 elsewhere the inner product picks entry c. */
  lemma {:induction false} DotOfPointMass(u: Vec, z: Vec, c: nat)
    requires |u| == |z| && c < |u| && u[c] == 1.0
    requires forall k :: 0 <= k < |u| && k != c ==> u[k] == 0.0
    ensures Dot(u, z) == z[c]
  {
    if c == 0 {
      DotOfZeros(u[1..], z[1..]);
    } else {
      DotOfPointMass(u[1..], z[1..], c - 1);
    }
  }

  lemma {:induction false} DotOfZeros(u: Vec, z: Vec)
    requires |u| == |z|
    requires forall k :: 0 <= k < |u| ==> u[k] == 0.0
    ensures Dot(u, z) == 0.0
  {
    if |u| > 0 {
      DotOfZeros(u[1..], z[1..]);
    }
  }

  /** A vector whose entries all equal c sums to |w| * c. */
  lemma {:induction false} SumOfConstant(w: Vec, c: real)
    requires forall k :: 0 <= k < |w| ==> w[k] == c
    ensures Sum(w) == |w| as real * c
  {
    if |w| > 0 {
      SumOfConstant(w[1..], c);
    }
  }

  /** A vector that is zero except, possibly, at index c sums to its entry at c. */
  lemma {:induction false} SumOfPointMass(w: Vec, c: nat)
    requires c < |w|
    requires forall k :: 0 <= k < |w| && k != c ==> w[k] == 0.0
    ensures Sum(w) == w[c]
  {
    if c == 0 {
      SumOfZeros(w[1..]);
    } else {
      SumOfPointMass(w[1..], c - 1);
    }
  }

  lemma {:induction false} SumOfZeros(w: Vec)
    requires forall k :: 0 <= k < |w| ==> w[k] == 0.0
    ensures Sum(w) == 0.0
  {
    if |w| > 0 {
      SumOfZeros(w[1..]);
    }
  }

  lemma {:induction false} SumOfNonNegative(w: Vec)
    requires NonNegative(w)
    ensures Sum(w) >= 0.0
  {
    if |w| > 0 {
      SumOfNonNegative(w[1..]);
    }
  }

  lemma {:induction false} SumOfPositive(w: Vec)
    requires |w| > 0
    requires forall k :: 0 <= k < |w| ==> w[k] > 0.0
    ensures Sum(w) > 0.0
  {
    if |w| > 1 {
      SumOfPositive(w[1..]);
    }
  }

  /** Each entry of a non-negative vector is at most its sum. */
  lemma {:induction false} EntryAtMostSum(w: Vec, c: nat)
    requires NonNegative(w) && c < |w|
    ensures w[c] <= Sum(w)
  {
    if c == 0 {
      SumOfNonNegative(w[1..]);
    } else {
      EntryAtMostSum(w[1..], c - 1);
    }
  }

  /** A vector whose entries are all at most x sums to at most |w| * x. */
  lemma {:induction false} SumBoundedByEntries(w: Vec, x: real)
    requires forall k :: 0 <= k < |w| ==> w[k] <= x
    ensures Sum(w) <= |w| as real * x
  {
    if |w| > 0 {
      SumBoundedByEntries(w[1..], x);
      assert (|w| - 1) as real * x + x == |w| as real * x;
    }
  }

  /** One-hot vectors of an in-range class and uniform vectors are distributions. */
  lemma OneHotIsDistribution(c: nat, n: nat)
    requires c < n
    ensures IsDistribution(OneHot(c, n))
  {
    SumOfPointMass(OneHot(c, n), c);
  }

  lemma UniformIsDistribution(n: nat)
    requires n > 0
    ensures IsDistribution(Uniform(n))
  {
    SumOfConstant(Uniform(n), 1.0 / n as real);
  }
}
