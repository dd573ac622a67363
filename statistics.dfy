/**
 The global statistics store: the A x K per-author topic counts and the
 K-vector of global topic usage, shared by all batches and changed only by
 the two commits at the end of a training step.

 Count commit (scatter_add): for every batch item i with author a,
   counts[a] += probs_biased[i] - gathered[i] / max_items_per_author
 where gathered[i] is row a as read before the batch; items sharing an
 author all add into that row.

 Usage commit (assign_add):
   usage += sum_i (probs[i] - usage) / (max_items_per_author * n_authors)
 */
module Statistics {
  import opened Vectors

  // ---------------------------------------------------------------------
  // The commits on values
  // ---------------------------------------------------------------------

  /** tf.gather(rows, ids): row ids[i] for every batch item i. */
  function GatherRows(rows: Mat, ids: seq<nat>): Mat
    requires forall i :: 0 <= i < |ids| ==> ids[i] < |rows|
  {
    seq(|ids|, i requires 0 <= i < |ids| => rows[ids[i]])
  }

  /** The change one item asks of its author's row. */
  function CountIncrement(biased: real, gathered: real, maxItems: real): real
    requires maxItems != 0.0
  {
    biased - gathered / maxItems
  }

  /** topic_counts_diff = probs_biased - topic_counts / max_items_per_author. */
  function CountIncrements(biased: Mat, gathered: Mat, maxItems: real): Mat
    requires maxItems != 0.0 && |biased| == |gathered|
    requires forall i :: 0 <= i < |biased| ==> |biased[i]| == |gathered[i]|
  {
    seq(|biased|, i requires 0 <= i < |biased| =>
      seq(|biased[i]|, k requires 0 <= k < |biased[i]| => CountIncrement(biased[i][k], gathered[i][k], maxItems)))
  }

  /** The sum, over the first n items whose author is a, of entry k of their rows of m. */
  function ScatterSum(ids: seq<nat>, m: Mat, n: nat, a: nat, k: nat): real
    requires n <= |ids| == |m|
    requires forall i :: 0 <= i < |m| ==> k < |m[i]|
  {
    if n == 0 then 0.0
    else ScatterSum(ids, m, n - 1, a, k) + (if ids[n - 1] == a then m[n - 1][k] else 0.0)
  }

  /** The number of the first n items whose author is a. */
  function Occurrences(ids: seq<nat>, n: nat, a: nat): nat
    requires n <= |ids|
  {
    if n == 0 then 0 else Occurrences(ids, n - 1, a) + (if ids[n - 1] == a then 1 else 0)
  }

  lemma {:induction false} OccurrencesAtMost(ids: seq<nat>, n: nat, a: nat)
    requires n <= |ids|
    ensures Occurrences(ids, n, a) <= n
  {
    if n > 0 {
      OccurrencesAtMost(ids, n - 1, a);
    }
  }

  /** tf.scatter_add(rows, ids, increments): every increment is added to the row it names. */
  function ScatterAdd(rows: Mat, nTopics: nat, ids: seq<nat>, increments: Mat): (r: Mat)
    requires IsMatrix(rows, |rows|, nTopics) && IsMatrix(increments, |ids|, nTopics)
    ensures IsMatrix(r, |rows|, nTopics)
  {
    seq(|rows|, a requires 0 <= a < |rows| =>
      seq(nTopics, k requires 0 <= k < nTopics => rows[a][k] + ScatterSum(ids, increments, |ids|, a, k)))
  }

  /** The count commit of one batch, the increments computed from the rows
      gathered before it. */
  function CommittedCounts(rows: Mat, nTopics: nat, ids: seq<nat>, biased: Mat, maxItems: real): (r: Mat)
    requires IsMatrix(rows, |rows|, nTopics) && IsMatrix(biased, |ids|, nTopics) && maxItems != 0.0
    requires forall i :: 0 <= i < |ids| ==> ids[i] < |rows|
    ensures IsMatrix(r, |rows|, nTopics)
  {
    ScatterAdd(rows, nTopics, ids, CountIncrements(biased, GatherRows(rows, ids), maxItems))
  }

  /** The sum over the first n items of (probs[i][k] - usage[k]) / scale. */
  function UsageIncrement(usage: Vec, probs: Mat, scale: real, n: nat, k: nat): real
    requires scale != 0.0 && n <= |probs| && k < |usage|
    requires forall i :: 0 <= i < |probs| ==> |probs[i]| == |usage|
  {
    if n == 0 then 0.0
    else UsageIncrement(usage, probs, scale, n - 1, k) + (probs[n - 1][k] - usage[k]) / scale
  }

  /** The usage once the first n items have been added. */
  function PartialUsage(usage: Vec, probs: Mat, scale: real, n: nat): Vec
    requires scale != 0.0 && n <= |probs|
    requires forall i :: 0 <= i < |probs| ==> |probs[i]| == |usage|
  {
    seq(|usage|, k requires 0 <= k < |usage| => usage[k] + UsageIncrement(usage, probs, scale, n, k))
  }

  /** The usage commit of one batch: usage + reduce_sum((probs - usage) / scale, axis=0). */
  function UpdatedUsage(usage: Vec, probs: Mat, scale: real): Vec
    requires scale != 0.0
    requires forall i :: 0 <= i < |probs| ==> |probs[i]| == |usage|
  {
    PartialUsage(usage, probs, scale, |probs|)
  }

  /** The all-ones A x K matrix the counts start from. */
  function Ones(rows: nat, cols: nat): Mat
  {
    seq(rows, a => seq(cols, k => 1.0))
  }

  // ---------------------------------------------------------------------
  // Geometric moves
  // ---------------------------------------------------------------------

  /** x moved toward target so that the fraction f of the gap remains. */
  function Toward(x: real, target: real, f: real): real
  {
    target + f * (x - target)
  }

  /** The fraction of a gap that remains after c items each close 1/m of it. */
  function Kept(c: nat, m: real): real
    requires m != 0.0
  {
    1.0 - c as real / m
  }

  /** d added n times. */
  function Repeat(n: nat, d: real): real
  {
    if n == 0 then 0.0 else Repeat(n - 1, d) + d
  }

  lemma {:induction false} RepeatIsProduct(n: nat, d: real)
    ensures Repeat(n, d) == n as real * d
  {
    if n > 0 {
      RepeatIsProduct(n - 1, d);
      assert (n - 1) as real * d + d == n as real * d;
    }
  }

  /** c shares of (target - x) / m move x toward target, leaving Kept(c, m) of the gap. */
  lemma RepeatedShare(x: real, target: real, c: nat, m: real)
    requires m != 0.0
    ensures x + Repeat(c, (target - x) / m) == Toward(x, target, Kept(c, m))
  {
    RepeatIsProduct(c, (target - x) / m);
    assert c as real * ((target - x) / m) == (c as real / m) * (target - x);
  }

  lemma RemovedShareAtMostWhole(x: real, c: nat, m: real)
    requires x >= 0.0 && m > 0.0 && c as real <= m
    ensures Repeat(c, x / m) <= x
  {
    RepeatIsProduct(c, x / m);
    assert c as real * (x / m) == (c as real / m) * x;
    assert c as real / m <= 1.0;
  }

  // ---------------------------------------------------------------------
  // What the count commit does
  // ---------------------------------------------------------------------

  /** Items of other authors add nothing to a row. */
  lemma {:induction false} ScatterSumOfAbsent(ids: seq<nat>, m: Mat, n: nat, a: nat, k: nat)
    requires n <= |ids| == |m|
    requires forall i :: 0 <= i < |m| ==> k < |m[i]|
    requires forall i :: 0 <= i < n ==> ids[i] != a
    ensures ScatterSum(ids, m, n, a, k) == 0.0
  {
    if n > 0 {
      ScatterSumOfAbsent(ids, m, n - 1, a, k);
    }
  }

  /** Rows of authors absent from the batch are unchanged. */
  lemma {:induction false} AbsentAuthorsUnchanged(rows: Mat, nTopics: nat, ids: seq<nat>, biased: Mat, maxItems: real, a: nat)
    requires IsMatrix(rows, |rows|, nTopics) && IsMatrix(biased, |ids|, nTopics) && maxItems != 0.0
    requires forall i :: 0 <= i < |ids| ==> ids[i] < |rows|
    requires a < |rows| && a !in ids
    ensures CommittedCounts(rows, nTopics, ids, biased, maxItems)[a] == rows[a]
  {
    var incs := CountIncrements(biased, GatherRows(rows, ids), maxItems);
    forall k | 0 <= k < nTopics
      ensures ScatterSum(ids, incs, |ids|, a, k) == 0.0
    {
      ScatterSumOfAbsent(ids, incs, |ids|, a, k);
    }
  }

  /** Every increment to row a is computed from row a as it was before the
      batch, and the increments of all of a's items accumulate. */
  lemma {:induction false} ScatterOfIncrements(rows: Mat, nTopics: nat, ids: seq<nat>, biased: Mat, maxItems: real, n: nat, a: nat, k: nat)
    requires IsMatrix(rows, |rows|, nTopics) && IsMatrix(biased, |ids|, nTopics) && maxItems != 0.0
    requires forall i :: 0 <= i < |ids| ==> ids[i] < |rows|
    requires n <= |ids| && a < |rows| && k < nTopics
    ensures ScatterSum(ids, CountIncrements(biased, GatherRows(rows, ids), maxItems), n, a, k)
      == ScatterSum(ids, biased, n, a, k) - Repeat(Occurrences(ids, n, a), rows[a][k] / maxItems)
  {
    if n > 0 {
      ScatterOfIncrements(rows, nTopics, ids, biased, maxItems, n - 1, a, k);
      var incs := CountIncrements(biased, GatherRows(rows, ids), maxItems);
      if ids[n - 1] == a {
        assert incs[n - 1][k] == biased[n - 1][k] - rows[a][k] / maxItems;
      }
    }
  }

  /** The committed row of author a in closed form: the old row, plus the biased
      probabilities of a's items, minus one share row[a] / max_items_per_author
      of the row as gathered before the batch per item. */
  lemma {:induction false} CommittedCountsClosedForm(rows: Mat, nTopics: nat, ids: seq<nat>, biased: Mat, maxItems: real, a: nat, k: nat)
    requires IsMatrix(rows, |rows|, nTopics) && IsMatrix(biased, |ids|, nTopics) && maxItems != 0.0
    requires forall i :: 0 <= i < |ids| ==> ids[i] < |rows|
    requires a < |rows| && k < nTopics
    ensures CommittedCounts(rows, nTopics, ids, biased, maxItems)[a][k]
      == rows[a][k] + ScatterSum(ids, biased, |ids|, a, k) - Repeat(Occurrences(ids, |ids|, a), rows[a][k] / maxItems)
  {
    var incs := CountIncrements(biased, GatherRows(rows, ids), maxItems);
    assert CommittedCounts(rows, nTopics, ids, biased, maxItems)[a][k] == rows[a][k] + ScatterSum(ids, incs, |ids|, a, k);
    ScatterOfIncrements(rows, nTopics, ids, biased, maxItems, |ids|, a, k);
  }

  /** Items whose biased probabilities are all p contribute p once per item. */
  lemma {:induction false} ScatterSumOfConstantRows(ids: seq<nat>, m: Mat, p: Vec, n: nat, a: nat, k: nat)
    requires n <= |ids| == |m| && k < |p|
    requires forall i :: 0 <= i < |m| ==> k < |m[i]|
    requires forall i :: 0 <= i < n && ids[i] == a ==> m[i] == p
    ensures ScatterSum(ids, m, n, a, k) == Repeat(Occurrences(ids, n, a), p[k])
  {
    if n > 0 {
      ScatterSumOfConstantRows(ids, m, p, n - 1, a, k);
    }
  }

  /** If all of author a's c items predict p, the commit moves row a toward
      max_items_per_author * p, leaving the fraction 1 - c / max_items_per_author
      of the gap: repeated commits converge geometrically to that point when
      c <= max_items_per_author. */
  lemma {:induction false} CountsMoveTowardTarget(rows: Mat, nTopics: nat, ids: seq<nat>, biased: Mat, maxItems: real, a: nat, p: Vec)
    requires IsMatrix(rows, |rows|, nTopics) && IsMatrix(biased, |ids|, nTopics) && maxItems != 0.0
    requires forall i :: 0 <= i < |ids| ==> ids[i] < |rows|
    requires a < |rows| && |p| == nTopics
    requires forall i :: 0 <= i < |ids| && ids[i] == a ==> biased[i] == p
    ensures forall k :: 0 <= k < nTopics ==>
      CommittedCounts(rows, nTopics, ids, biased, maxItems)[a][k]
        == Toward(rows[a][k], maxItems * p[k], Kept(Occurrences(ids, |ids|, a), maxItems))
  {
    forall k | 0 <= k < nTopics
      ensures CommittedCounts(rows, nTopics, ids, biased, maxItems)[a][k]
        == Toward(rows[a][k], maxItems * p[k], Kept(Occurrences(ids, |ids|, a), maxItems))
    {
      CommittedCountsClosedForm(rows, nTopics, ids, biased, maxItems, a, k);
      ScatterSumOfConstantRows(ids, biased, p, |ids|, a, k);
      CountTowardTarget(rows[a][k], p[k], Occurrences(ids, |ids|, a), maxItems);
    }
  }

  lemma CountTowardTarget(x: real, p: real, c: nat, m: real)
    requires m != 0.0
    ensures x + Repeat(c, p) - Repeat(c, x / m) == Toward(x, m * p, Kept(c, m))
  {
    RepeatIsProduct(c, p);
    RepeatIsProduct(c, x / m);
    assert c as real * p == (c as real / m) * (m * p);
    assert c as real * (x / m) == (c as real / m) * x;
  }

  /** Row a of the counts once the first n items of the batch are committed. */
  function PartialRow(rows: Mat, nTopics: nat, ids: seq<nat>, biased: Mat, maxItems: real, n: nat, a: nat): Vec
    requires IsMatrix(rows, |rows|, nTopics) && IsMatrix(biased, |ids|, nTopics) && maxItems != 0.0
    requires forall i :: 0 <= i < |ids| ==> ids[i] < |rows|
    requires n <= |ids| && a < |rows|
  {
    seq(nTopics, k requires 0 <= k < nTopics =>
      rows[a][k] + ScatterSum(ids, CountIncrements(biased, GatherRows(rows, ids), maxItems), n, a, k))
  }

  /** Every item of author a whose biased row sums to 1 adds 1 - Sum(row a) / m to
      the row's mass; items of other authors add nothing. */
  lemma {:induction false} PartialRowMass(rows: Mat, nTopics: nat, ids: seq<nat>, biased: Mat, maxItems: real, n: nat, a: nat)
    requires IsMatrix(rows, |rows|, nTopics) && IsMatrix(biased, |ids|, nTopics) && maxItems != 0.0
    requires forall i :: 0 <= i < |ids| ==> ids[i] < |rows|
    requires n <= |ids| && a < |rows|
    requires forall i :: 0 <= i < |ids| ==> Sum(biased[i]) == 1.0
    ensures Sum(PartialRow(rows, nTopics, ids, biased, maxItems, n, a))
      == Sum(rows[a]) + Repeat(Occurrences(ids, n, a), 1.0 - Sum(rows[a]) / maxItems)
  {
    var cur := PartialRow(rows, nTopics, ids, biased, maxItems, n, a);
    if n == 0 {
      assert cur == rows[a];
    } else {
      PartialRowMass(rows, nTopics, ids, biased, maxItems, n - 1, a);
      var prev := PartialRow(rows, nTopics, ids, biased, maxItems, n - 1, a);
      var incs := CountIncrements(biased, GatherRows(rows, ids), maxItems);
      if ids[n - 1] == a {
        SumOfPointwiseSum(prev, incs[n - 1], cur);
        forall k | 0 <= k < nTopics
          ensures incs[n - 1][k] == biased[n - 1][k] - rows[a][k] / maxItems
        {
        }
        SumOfShrunkDifference(biased[n - 1], rows[a], incs[n - 1], maxItems);
      } else {
        assert cur == prev;
      }
    }
  }

  lemma {:induction false} CommittedRowIsPartial(rows: Mat, nTopics: nat, ids: seq<nat>, biased: Mat, maxItems: real, a: nat)
    requires IsMatrix(rows, |rows|, nTopics) && IsMatrix(biased, |ids|, nTopics) && maxItems != 0.0
    requires forall i :: 0 <= i < |ids| ==> ids[i] < |rows|
    requires a < |rows|
    ensures CommittedCounts(rows, nTopics, ids, biased, maxItems)[a] == PartialRow(rows, nTopics, ids, biased, maxItems, |ids|, a)
  {
  }

  /** When every biased row is a distribution, the row mass of author a moves
      toward max_items_per_author, leaving the fraction 1 - c / max_items_per_author
      of the gap, c being the number of a's items in the batch. */
  lemma {:induction false} CountsRowMass(rows: Mat, nTopics: nat, ids: seq<nat>, biased: Mat, maxItems: real, a: nat)
    requires IsMatrix(rows, |rows|, nTopics) && IsMatrix(biased, |ids|, nTopics) && maxItems != 0.0
    requires forall i :: 0 <= i < |ids| ==> ids[i] < |rows|
    requires a < |rows|
    requires forall i :: 0 <= i < |ids| ==> Sum(biased[i]) == 1.0
    ensures Sum(CommittedCounts(rows, nTopics, ids, biased, maxItems)[a])
      == Toward(Sum(rows[a]), maxItems, Kept(Occurrences(ids, |ids|, a), maxItems))
  {
    CommittedRowIsPartial(rows, nTopics, ids, biased, maxItems, a);
    PartialRowMass(rows, nTopics, ids, biased, maxItems, |ids|, a);
    RowMassToward(Sum(rows[a]), Occurrences(ids, |ids|, a), maxItems);
  }

  lemma RowMassToward(x: real, c: nat, m: real)
    requires m != 0.0
    ensures x + Repeat(c, 1.0 - x / m) == Toward(x, m, Kept(c, m))
  {
    GapShare(x, m);
    RepeatedShare(x, m, c, m);
  }

  lemma GapShare(x: real, m: real)
    requires m != 0.0
    ensures 1.0 - x / m == (m - x) / m
  {
    calc {
      (m - x) / m;
      m / m - x / m;
      { assert m / m == 1.0; }
      1.0 - x / m;
    }
  }

  /** The commit keeps counts non-negative as long as no author has more items in
      the batch than max_items_per_author. */
  lemma {:induction false} CountsStayNonNegative(rows: Mat, nTopics: nat, ids: seq<nat>, biased: Mat, maxItems: real, a: nat)
    requires IsMatrix(rows, |rows|, nTopics) && IsMatrix(biased, |ids|, nTopics) && maxItems > 0.0
    requires forall i :: 0 <= i < |ids| ==> ids[i] < |rows|
    requires a < |rows| && NonNegative(rows[a])
    requires forall i :: 0 <= i < |ids| ==> NonNegative(biased[i])
    requires Occurrences(ids, |ids|, a) as real <= maxItems
    ensures NonNegative(CommittedCounts(rows, nTopics, ids, biased, maxItems)[a])
  {
    forall k | 0 <= k < nTopics
      ensures CommittedCounts(rows, nTopics, ids, biased, maxItems)[a][k] >= 0.0
    {
      CommittedCountsClosedForm(rows, nTopics, ids, biased, maxItems, a, k);
      ScatterSumNonNegative(ids, biased, |ids|, a, k);
      RemovedShareAtMostWhole(rows[a][k], Occurrences(ids, |ids|, a), maxItems);
    }
  }

  lemma {:induction false} ScatterSumNonNegative(ids: seq<nat>, m: Mat, n: nat, a: nat, k: nat)
    requires n <= |ids| == |m|
    requires forall i :: 0 <= i < |m| ==> k < |m[i]| && NonNegative(m[i])
    ensures ScatterSum(ids, m, n, a, k) >= 0.0
  {
    if n > 0 {
      ScatterSumNonNegative(ids, m, n - 1, a, k);
    }
  }

  // ---------------------------------------------------------------------
  // What the usage commit does
  // ---------------------------------------------------------------------

  /** The vector (a - b) / s. */
  function ScaledDifference(a: Vec, b: Vec, s: real): (r: Vec)
    requires |a| == |b| && s != 0.0
    ensures |r| == |a| && forall k :: 0 <= k < |a| ==> r[k] == (a[k] - b[k]) / s
  {
    seq(|a|, k requires 0 <= k < |a| => (a[k] - b[k]) / s)
  }

  /** Every row summing to 1 adds (1 - Sum(usage)) / scale to the usage mass. */
  lemma {:induction false} PartialUsageMass(usage: Vec, probs: Mat, scale: real, n: nat)
    requires scale != 0.0 && n <= |probs| && IsMatrix(probs, |probs|, |usage|)
    requires forall i :: 0 <= i < |probs| ==> Sum(probs[i]) == 1.0
    ensures Sum(PartialUsage(usage, probs, scale, n)) == Sum(usage) + Repeat(n, (1.0 - Sum(usage)) / scale)
  {
    var cur := PartialUsage(usage, probs, scale, n);
    if n == 0 {
      assert cur == usage;
    } else {
      PartialUsageMass(usage, probs, scale, n - 1);
      var prev := PartialUsage(usage, probs, scale, n - 1);
      var step := ScaledDifference(probs[n - 1], usage, scale);
      SumOfPointwiseSum(prev, step, cur);
      SumOfScaledDifference(probs[n - 1], usage, step, scale);
      UnitRowShare(Sum(step), Sum(probs[n - 1]), Sum(usage), scale);
    }
  }

  lemma UnitRowShare(i: real, q: real, x: real, s: real)
    requires s != 0.0
    requires i == (q - x) / s && q == 1.0
    ensures i == (1.0 - x) / s
  {
  }

  /** When every prediction row sums to 1, the usage mass moves toward 1, leaving
      the fraction 1 - B / scale of the gap; a usage summing to 1 therefore still
      sums to 1 afterwards. */
  lemma {:induction false} UsageMass(usage: Vec, probs: Mat, scale: real)
    requires scale != 0.0 && IsMatrix(probs, |probs|, |usage|)
    requires forall i :: 0 <= i < |probs| ==> Sum(probs[i]) == 1.0
    ensures Sum(UpdatedUsage(usage, probs, scale)) == Toward(Sum(usage), 1.0, Kept(|probs|, scale))
  {
    PartialUsageMass(usage, probs, scale, |probs|);
    RepeatedShare(Sum(usage), 1.0, |probs|, scale);
  }

  /** Each item moves entry k down by at most usage[k] / scale when its row is
      non-negative. */
  lemma {:induction false} UsageIncrementLowerBound(usage: Vec, probs: Mat, scale: real, n: nat, k: nat)
    requires scale > 0.0 && n <= |probs| && k < |usage| && IsMatrix(probs, |probs|, |usage|)
    requires forall i :: 0 <= i < |probs| ==> NonNegative(probs[i])
    ensures UsageIncrement(usage, probs, scale, n, k) >= Repeat(n, (0.0 - usage[k]) / scale)
  {
    if n > 0 {
      UsageIncrementLowerBound(usage, probs, scale, n - 1, k);
      DivideMonotone(probs[n - 1][k] - usage[k], 0.0 - usage[k], scale);
    }
  }

  lemma DivideMonotone(x: real, y: real, s: real)
    requires x >= y && s > 0.0
    ensures x / s >= y / s
  {
  }

  /** The usage commit keeps the usage a distribution, provided the batch holds at
      most max_items_per_author * n_authors items. */
  lemma {:induction false} UsageStaysDistribution(usage: Vec, probs: Mat, scale: real)
    requires scale > 0.0 && IsMatrix(probs, |probs|, |usage|)
    requires IsDistribution(usage)
    requires forall i :: 0 <= i < |probs| ==> IsDistribution(probs[i])
    requires |probs| as real <= scale
    ensures IsDistribution(UpdatedUsage(usage, probs, scale))
  {
    UsageMass(usage, probs, scale);
    var r := UpdatedUsage(usage, probs, scale);
    forall k | 0 <= k < |usage|
      ensures r[k] >= 0.0
    {
      UsageIncrementLowerBound(usage, probs, scale, |probs|, k);
      RepeatedShare(usage[k], 0.0, |probs|, scale);
      KeptNonNegative(usage[k], |probs|, scale);
    }
  }

  lemma KeptNonNegative(x: real, c: nat, m: real)
    requires x >= 0.0 && m > 0.0 && c as real <= m
    ensures Toward(x, 0.0, Kept(c, m)) >= 0.0
  {
    assert c as real / m <= 1.0;
  }

  /** If every item predicts p, entry k gains (p[k] - usage[k]) / scale per item. */
  lemma {:induction false} UsageIncrementOfConstantRows(usage: Vec, probs: Mat, scale: real, p: Vec, n: nat, k: nat)
    requires scale != 0.0 && n <= |probs| && k < |usage| == |p| && IsMatrix(probs, |probs|, |usage|)
    requires forall i :: 0 <= i < |probs| ==> probs[i] == p
    ensures UsageIncrement(usage, probs, scale, n, k) == Repeat(n, (p[k] - usage[k]) / scale)
  {
    if n > 0 {
      UsageIncrementOfConstantRows(usage, probs, scale, p, n - 1, k);
      assert probs[n - 1][k] == p[k];
    }
  }

  /** If every item predicts p, the commit moves each usage entry toward p,
      leaving the fraction 1 - B / scale of the gap: usage converges
      geometrically to p under repeated such commits. */
  lemma {:induction false} UsageMovesTowardTarget(usage: Vec, probs: Mat, scale: real, p: Vec)
    requires scale != 0.0 && |p| == |usage| && IsMatrix(probs, |probs|, |usage|)
    requires forall i :: 0 <= i < |probs| ==> probs[i] == p
    ensures forall k :: 0 <= k < |usage| ==>
      UpdatedUsage(usage, probs, scale)[k] == Toward(usage[k], p[k], Kept(|probs|, scale))
  {
    forall k | 0 <= k < |usage|
      ensures UpdatedUsage(usage, probs, scale)[k] == Toward(usage[k], p[k], Kept(|probs|, scale))
    {
      UsageIncrementOfConstantRows(usage, probs, scale, p, |probs|, k);
      RepeatedShare(usage[k], p[k], |probs|, scale);
    }
  }

  // ---------------------------------------------------------------------
  // The shared state
  // ---------------------------------------------------------------------

  /** The two non-trainable variables: topic_counts (A x K, initialised to ones)
      and topic_dist_total (K, initialised to 1/K). */
  class GlobalStatistics {
    const nAuthors: nat
    const nTopics: nat
    const counts: array2<real>
    const usage: array<real>

    ghost predicate Valid()
    {
      counts.Length0 == nAuthors && counts.Length1 == nTopics && usage.Length == nTopics && nTopics > 0
    }

    /** The counts as a matrix value. */
    ghost function Counts(): (m: Mat)
      reads counts
      ensures IsMatrix(m, counts.Length0, counts.Length1)
    {
      seq(counts.Length0, a requires 0 <= a < counts.Length0 reads counts =>
        seq(counts.Length1, k requires 0 <= k < counts.Length1 reads counts => counts[a, k]))
    }

    /** The usage as a vector value. */
    ghost function Usage(): Vec
      reads usage
    {
      usage[..]
    }

    constructor (nAuthors: nat, nTopics: nat)
      requires nTopics > 0
      ensures Valid() && fresh(counts) && fresh(usage)
      ensures this.nAuthors == nAuthors && this.nTopics == nTopics
      ensures Counts() == Ones(nAuthors, nTopics)
      ensures Usage() == Uniform(nTopics)
    {
      this.nAuthors := nAuthors;
      this.nTopics := nTopics;
      counts := new real[nAuthors, nTopics]((a, k) => 1.0);
      usage := new real[nTopics](k => 1.0 / nTopics as real);
      new;
      forall a | 0 <= a < nAuthors
        ensures Counts()[a] == Ones(nAuthors, nTopics)[a]
      {
      }
    }

    /** tf.gather(topic_counts_var, author_ids): read-only. */
    method Gather(ids: seq<nat>) returns (rows: Mat)
      requires Valid()
      requires forall i :: 0 <= i < |ids| ==> ids[i] < nAuthors
      ensures rows == GatherRows(Counts(), ids)
      ensures IsMatrix(rows, |ids|, nTopics)
    {
      rows := seq(|ids|, i requires 0 <= i < |ids| reads counts =>
        seq(nTopics, k requires 0 <= k < nTopics reads counts => counts[ids[i], k]));
    }

    /** tf.scatter_add(topic_counts_var, author_ids, topic_counts_diff), with
        topic_counts_diff computed from the rows gathered before the batch. */
    method CommitCounts(ids: seq<nat>, biased: Mat, gathered: Mat, maxItems: real)
      requires Valid() && maxItems != 0.0
      requires forall i :: 0 <= i < |ids| ==> ids[i] < nAuthors
      requires IsMatrix(biased, |ids|, nTopics) && IsMatrix(gathered, |ids|, nTopics)
      modifies counts
      ensures Counts() == ScatterAdd(old(Counts()), nTopics, ids, CountIncrements(biased, gathered, maxItems))
    {
      var incs := CountIncrements(biased, gathered, maxItems);
      var i := 0;
      while i < |ids|
        invariant 0 <= i <= |ids|
        invariant forall a, k :: 0 <= a < nAuthors && 0 <= k < nTopics ==>
          counts[a, k] == old(counts[a, k]) + ScatterSum(ids, incs, i, a, k)
      {
        var a := ids[i];
        var k := 0;
        while k < nTopics
          invariant 0 <= k <= nTopics
          invariant forall a', k' :: 0 <= a' < nAuthors && 0 <= k' < nTopics ==>
            counts[a', k'] == old(counts[a', k']) + ScatterSum(ids, incs, i, a', k')
              + (if a' == a && k' < k then incs[i][k'] else 0.0)
        {
          counts[a, k] := counts[a, k] + incs[i][k];
          k := k + 1;
        }
        i := i + 1;
      }
      ghost var before := old(Counts());
      ghost var after := ScatterAdd(before, nTopics, ids, incs);
      forall a | 0 <= a < nAuthors
        ensures Counts()[a] == after[a]
      {
        assert forall k :: 0 <= k < nTopics ==> before[a][k] == old(counts[a, k]);
      }
    }

    /** tf.assign_add(topic_dist_total_var, reduce_sum(topic_dist_diff, axis=0)),
        every difference taken against the usage before the batch. */
    method CommitUsage(probs: Mat, maxItems: real)
      requires Valid() && maxItems != 0.0 && nAuthors > 0
      requires IsMatrix(probs, |probs|, nTopics)
      modifies usage
      ensures Usage() == UpdatedUsage(old(Usage()), probs, maxItems * nAuthors as real)
    {
      var scale := maxItems * nAuthors as real;
      var before := usage[..];
      var k := 0;
      while k < nTopics
        invariant 0 <= k <= nTopics
        invariant forall j :: 0 <= j < k ==> usage[j] == before[j] + UsageIncrement(before, probs, scale, |probs|, j)
        invariant forall j :: k <= j < nTopics ==> usage[j] == before[j]
      {
        var total := 0.0;
        var i := 0;
        while i < |probs|
          invariant 0 <= i <= |probs|
          invariant total == UsageIncrement(before, probs, scale, i, k)
        {
          total := total + (probs[i][k] - before[k]) / scale;
          i := i + 1;
        }
        usage[k] := usage[k] + total;
        k := k + 1;
      }
    }
  }

  /** The counts start with every row summing to K, and the usage starts as a
      distribution. */
  lemma {:induction false} InitialState(nAuthors: nat, nTopics: nat, a: nat)
    requires nTopics > 0 && a < nAuthors
    ensures Sum(Ones(nAuthors, nTopics)[a]) == nTopics as real
    ensures IsDistribution(Uniform(nTopics))
  {
    SumOfConstant(Ones(nAuthors, nTopics)[a], 1.0);
    UniformIsDistribution(nTopics);
  }
}
