/** Brier score and expected calibration error of clipped predictions. */
module Calibration {
  import opened Prelude
  import opened RealLaws
  import opened Sums

  function Clip(v: real): real { MinReal(MaxReal(v, 0.0), 1.0) }

  function Clipped(p: seq<real>): (c: seq<real>)
    ensures |c| == |p|
  {
    seq(|p|, i requires 0 <= i < |p| => Clip(p[i]))
  }

  function Mean(a: seq<real>): real
    requires a != []
  {
    Sum(a) / |a| as real
  }

  function Brier(y: seq<real>, p: seq<real>): real
    requires |y| == |p| > 0
  {
    Mean(Squares(Minus(Clipped(p), y)))
  }

  // ---------------------------------------------------------------- bins

  function Edge(i: nat, bins: nat): real
    requires bins > 0
  {
    i as real / bins as real
  }

  /** Half-open bins, the last one closed. */
  predicate InBin(v: real, idx: nat, bins: nat)
    requires idx < bins
  {
    if idx < bins - 1 then Edge(idx, bins) <= v < Edge(idx + 1, bins)
    else Edge(idx, bins) <= v <= Edge(idx + 1, bins)
  }

  function BinCount(c: seq<real>, idx: nat, bins: nat): (n: nat)
    requires idx < bins
    ensures n <= |c|
  {
    if c == [] then 0
    else BinCount(c[..|c| - 1], idx, bins) + if InBin(c[|c| - 1], idx, bins) then 1 else 0
  }

  /** Sum of the values whose prediction lies in the bin. */
  function BinSum(vals: seq<real>, c: seq<real>, idx: nat, bins: nat): real
    requires idx < bins && |vals| == |c|
  {
    if c == [] then 0.0
    else BinSum(vals[..|c| - 1], c[..|c| - 1], idx, bins) + if InBin(c[|c| - 1], idx, bins) then vals[|c| - 1] else 0.0
  }

  /** The bin a clipped prediction falls in. */
  function BinOf(v: real, bins: nat): nat
    requires bins > 0 && 0.0 <= v <= 1.0
  {
    MinInt((v * bins as real).Floor, bins - 1)
  }

  lemma EdgeBelowIff(v: real, i: nat, bins: nat)
    requires bins > 0
    ensures Edge(i, bins) <= v <==> i as real <= v * bins as real
  {
    var b := bins as real;
    DivThenMul(i as real, b);
    if Edge(i, bins) <= v {
      MulMonotone(Edge(i, bins), v, b);
    }
    if i as real <= v * b {
      DivMonotone(i as real, v * b, b);
      assert v * b / b == v;
    }
  }

  /** Every clipped prediction lies in exactly one bin. */
  lemma ExactlyOneBin(v: real, idx: nat, bins: nat)
    requires idx < bins && 0.0 <= v <= 1.0
    ensures InBin(v, idx, bins) <==> idx == BinOf(v, bins)
  {
    var b := bins as real;
    MulMonotone(v, 1.0, b);
    ProductNonNegative(v, b);
    EdgeBelowIff(v, idx, bins);
    EdgeBelowIff(v, idx + 1, bins);
    assert Edge(bins, bins) == 1.0;
  }

  // ---------------------------------------------------------------- expected calibration error

  function WeightedGap(count: nat, confSum: real, accSum: real, total: nat): real {
    if count == 0 then 0.0
    else count as real / MaxInt(total, 1) as real * AbsReal(confSum / count as real - accSum / count as real)
  }

  function Gap(y: seq<real>, c: seq<real>, idx: nat, bins: nat): real
    requires idx < bins && |y| == |c|
  {
    WeightedGap(BinCount(c, idx, bins), BinSum(c, c, idx, bins), BinSum(y, c, idx, bins), |c|)
  }

  function Gaps(y: seq<real>, c: seq<real>, bins: nat): (g: seq<real>)
    requires |y| == |c|
    ensures |g| == bins
  {
    seq(bins, idx requires 0 <= idx < bins => Gap(y, c, idx, bins))
  }

  /** The expected calibration error. */
  function EceOf(y: seq<real>, p: seq<real>, bins: nat): real
    requires |y| == |p|
  {
    Sum(Gaps(y, Clipped(p), bins))
  }

  method MaskedSums(y: seq<real>, pv: seq<real>, lo: real, hi: real, idx: nat, bins: nat)
    returns (count: nat, confSum: real, accSum: real)
    requires |y| == |pv| && idx < bins && lo == Edge(idx, bins) && hi == Edge(idx + 1, bins)
    ensures count == BinCount(pv, idx, bins)
    ensures confSum == BinSum(pv, pv, idx, bins) && accSum == BinSum(y, pv, idx, bins)
  {
    count, confSum, accSum := 0, 0.0, 0.0;
    for i := 0 to |pv|
      invariant count == BinCount(pv[..i], idx, bins)
      invariant confSum == BinSum(pv[..i], pv[..i], idx, bins)
      invariant accSum == BinSum(y[..i], pv[..i], idx, bins)
    {
      assert pv[..i + 1][..i] == pv[..i] && y[..i + 1][..i] == y[..i];
      var inMask := if idx < bins - 1 then pv[i] >= lo && pv[i] < hi else pv[i] >= lo && pv[i] <= hi;
      if inMask {
        count, confSum, accSum := count + 1, confSum + pv[i], accSum + y[i];
      }
    }
    assert pv[..|pv|] == pv && y[..|pv|] == y;
  }

  method Ece(y: seq<real>, p: seq<real>, bins: nat) returns (ece: real)
    requires |y| == |p| && bins > 0
    ensures ece == EceOf(y, p, bins)
  {
    var pv := Clipped(p);
    var edges := seq(bins + 1, i requires 0 <= i <= bins => Edge(i, bins));
    ghost var gaps := Gaps(y, pv, bins);
    ece := 0.0;
    for idx := 0 to bins
      invariant ece == Sum(gaps[..idx])
    {
      assert gaps[..idx + 1][..idx] == gaps[..idx];
      var count, confSum, accSum := MaskedSums(y, pv, edges[idx], edges[idx + 1], idx, bins);
      if count != 0 {
        ece := ece + WeightedGap(count, confSum, accSum, |pv|);
      }
    }
    assert gaps[..bins] == gaps;
  }

  // ---------------------------------------------------------------- binning loses nothing

  function BinSums(vals: seq<real>, c: seq<real>, bins: nat, k: nat): real
    requires k <= bins && |vals| == |c|
  {
    if k == 0 then 0.0 else BinSums(vals, c, bins, k - 1) + BinSum(vals, c, k - 1, bins)
  }

  ghost predicate UnitValues(c: seq<real>) { forall v :: v in c ==> 0.0 <= v <= 1.0 }

  lemma {:induction false} BinSumsStep(vals: seq<real>, c: seq<real>, bins: nat, k: nat)
    requires k <= bins && 0 < bins && |vals| == |c| > 0 && 0.0 <= c[|c| - 1] <= 1.0
    ensures var n := |c| - 1;
            BinSums(vals, c, bins, k)
            == BinSums(vals[..n], c[..n], bins, k) + if k > BinOf(c[n], bins) then vals[n] else 0.0
  {
    if k > 0 {
      BinSumsStep(vals, c, bins, k - 1);
      ExactlyOneBin(c[|c| - 1], k - 1, bins);
    }
  }

  /** Adding up bin by bin is adding up. */
  lemma {:induction false} BinsPartition(vals: seq<real>, c: seq<real>, bins: nat)
    requires |vals| == |c| && UnitValues(c) && bins > 0
    ensures BinSums(vals, c, bins, bins) == Sum(vals)
  {
    if c == [] {
      EmptyBins(vals, c, bins, bins);
    } else {
      var n := |c| - 1;
      assert forall v :: v in c[..n] ==> v in c;
      BinsPartition(vals[..n], c[..n], bins);
      assert c[n] in c;
      BinSumsStep(vals, c, bins, bins);
    }
  }

  lemma {:induction false} EmptyBins(vals: seq<real>, c: seq<real>, bins: nat, k: nat)
    requires vals == [] && c == [] && k <= bins
    ensures BinSums(vals, c, bins, k) == 0.0
  {
    if k > 0 {
      EmptyBins(vals, c, bins, k - 1);
    }
  }

  function TotalCount(c: seq<real>, bins: nat, k: nat): nat
    requires k <= bins
  {
    if k == 0 then 0 else TotalCount(c, bins, k - 1) + BinCount(c, k - 1, bins)
  }

  lemma {:induction false} TotalCountStep(c: seq<real>, bins: nat, k: nat)
    requires k <= bins && 0 < bins && c != [] && 0.0 <= c[|c| - 1] <= 1.0
    ensures var n := |c| - 1;
            TotalCount(c, bins, k) == TotalCount(c[..n], bins, k) + if k > BinOf(c[n], bins) then 1 else 0
  {
    if k > 0 {
      TotalCountStep(c, bins, k - 1);
      ExactlyOneBin(c[|c| - 1], k - 1, bins);
    }
  }

  lemma {:induction false} EmptyCounts(bins: nat, k: nat)
    requires k <= bins
    ensures TotalCount([], bins, k) == 0
  {
    if k > 0 {
      EmptyCounts(bins, k - 1);
    }
  }

  /** The bin counts add up to the number of predictions. */
  lemma {:induction false} CountsAddUp(p: seq<real>, bins: nat)
    requires bins > 0
    ensures TotalCount(Clipped(p), bins, bins) == |p|
  {
    if p == [] {
      EmptyCounts(bins, bins);
    } else {
      var c, n := Clipped(p), |p| - 1;
      assert Clipped(p[..n]) == c[..n];
      CountsAddUp(p[..n], bins);
      TotalCountStep(c, bins, bins);
    }
  }

  // ---------------------------------------------------------------- bounds on the error

  lemma {:induction false} BinSumMinus(a: seq<real>, b: seq<real>, c: seq<real>, idx: nat, bins: nat)
    requires idx < bins && |a| == |b| == |c|
    ensures BinSum(Minus(a, b), c, idx, bins) == BinSum(a, c, idx, bins) - BinSum(b, c, idx, bins)
  {
    if c != [] {
      var n := |c| - 1;
      assert Minus(a, b)[..n] == Minus(a[..n], b[..n]);
      BinSumMinus(a[..n], b[..n], c[..n], idx, bins);
    }
  }

  lemma {:induction false} BinSumTriangle(d: seq<real>, c: seq<real>, idx: nat, bins: nat)
    requires idx < bins && |d| == |c|
    ensures AbsReal(BinSum(d, c, idx, bins)) <= BinSum(Magnitudes(d), c, idx, bins)
  {
    if c != [] {
      var n := |c| - 1;
      assert Magnitudes(d)[..n] == Magnitudes(d[..n]);
      BinSumTriangle(d[..n], c[..n], idx, bins);
    }
  }

  lemma {:induction false} EmptyBinSum(vals: seq<real>, c: seq<real>, idx: nat, bins: nat)
    requires idx < bins && |vals| == |c| && BinCount(c, idx, bins) == 0
    ensures BinSum(vals, c, idx, bins) == 0.0
  {
    if c != [] {
      EmptyBinSum(vals[..|c| - 1], c[..|c| - 1], idx, bins);
    }
  }

  lemma WeightedGapIs(count: nat, conf: real, acc: real, total: nat)
    requires 0 < count && 0 < total
    ensures WeightedGap(count, conf, acc, total) == AbsReal(conf - acc) / total as real
  {
    var k, n := count as real, total as real;
    var x, y := conf / k, acc / k;
    DivThenMul(conf, k);
    DivThenMul(acc, k);
    ProductOfDifference(x, y, k);
    var g := AbsReal(x - y);
    assert g * k == AbsReal(conf - acc);
    assert k / n * g == g * k / n;
  }

  /** One bin's contribution is the size of its summed error over the total. */
  lemma GapIs(y: seq<real>, c: seq<real>, idx: nat, bins: nat)
    requires idx < bins && |y| == |c| > 0
    ensures Gap(y, c, idx, bins) == AbsReal(BinSum(Minus(c, y), c, idx, bins)) / |c| as real
  {
    BinSumMinus(c, y, c, idx, bins);
    var count := BinCount(c, idx, bins);
    if count == 0 {
      EmptyBinSum(c, c, idx, bins);
      EmptyBinSum(y, c, idx, bins);
    } else {
      WeightedGapIs(count, BinSum(c, c, idx, bins), BinSum(y, c, idx, bins), |c|);
    }
  }

  /** The sizes of the summed errors of the bins. */
  function BinErrors(d: seq<real>, c: seq<real>, bins: nat): (e: seq<real>)
    requires |d| == |c|
    ensures |e| == bins
  {
    seq(bins, idx requires 0 <= idx < bins => AbsReal(BinSum(d, c, idx, bins)))
  }

  lemma {:induction false} SumDivided(a: seq<real>, b: seq<real>, n: real)
    requires n > 0.0 && |a| == |b| && forall i :: 0 <= i < |a| ==> a[i] == b[i] / n
    ensures Sum(a) == Sum(b) / n
  {
    if a != [] {
      var k := |a| - 1;
      SumDivided(a[..k], b[..k], n);
      assert Sum(b[..k]) / n + b[k] / n == (Sum(b[..k]) + b[k]) / n;
    }
  }

  lemma GapAt(y: seq<real>, c: seq<real>, idx: nat, bins: nat)
    requires idx < bins && |y| == |c| > 0
    ensures Gaps(y, c, bins)[idx] == BinErrors(Minus(c, y), c, bins)[idx] / |c| as real
  {
    GapIs(y, c, idx, bins);
  }

  lemma EceIsBinErrors(y: seq<real>, c: seq<real>, bins: nat)
    requires |y| == |c| > 0
    ensures Sum(Gaps(y, c, bins)) == Sum(BinErrors(Minus(c, y), c, bins)) / |c| as real
  {
    forall idx | 0 <= idx < bins ensures Gaps(y, c, bins)[idx] == BinErrors(Minus(c, y), c, bins)[idx] / |c| as real {
      GapAt(y, c, idx, bins);
    }
    SumDivided(Gaps(y, c, bins), BinErrors(Minus(c, y), c, bins), |c| as real);
  }

  lemma {:induction false} BinErrorBounds(d: seq<real>, c: seq<real>, bins: nat, k: nat)
    requires k <= bins && |d| == |c|
    ensures AbsReal(BinSums(d, c, bins, k)) <= Sum(BinErrors(d, c, bins)[..k]) <= BinSums(Magnitudes(d), c, bins, k)
  {
    if k > 0 {
      assert BinErrors(d, c, bins)[..k][..k - 1] == BinErrors(d, c, bins)[..k - 1];
      BinErrorBounds(d, c, bins, k - 1);
      BinSumTriangle(d, c, k - 1, bins);
    }
  }

  /**
   For any number of bins the calibration error lies between the error of the overall mean
   and the mean absolute error.
   */
  lemma EceBounds(y: seq<real>, p: seq<real>, bins: nat)
    requires |y| == |p| > 0 && bins > 0
    ensures AbsReal(Mean(Clipped(p)) - Mean(y)) <= EceOf(y, p, bins)
    ensures EceOf(y, p, bins) <= Mean(Magnitudes(Minus(Clipped(p), y)))
  {
    var c := Clipped(p);
    var d, n := Minus(c, y), |c| as real;
    EceIsBinErrors(y, c, bins);
    BinErrorTotals(d, c, bins);
    SumMinus(c, y);
    DivMonotone(Sum(BinErrors(d, c, bins)), Sum(Magnitudes(d)), n);
    DivMonotone(AbsReal(Sum(d)), Sum(BinErrors(d, c, bins)), n);
    MeanGap(Sum(c), Sum(y), n);
  }

  lemma BinErrorTotals(d: seq<real>, c: seq<real>, bins: nat)
    requires |d| == |c| && UnitValues(c) && bins > 0
    ensures AbsReal(Sum(d)) <= Sum(BinErrors(d, c, bins)) <= Sum(Magnitudes(d))
  {
    BinErrorBounds(d, c, bins, bins);
    assert BinErrors(d, c, bins)[..bins] == BinErrors(d, c, bins);
    BinsPartition(d, c, bins);
    BinsPartition(Magnitudes(d), c, bins);
  }

  lemma MeanGap(a: real, b: real, n: real)
    requires n > 0.0
    ensures AbsReal(a / n - b / n) == AbsReal(a - b) / n
  {
    assert a / n - b / n == (a - b) / n;
  }

  lemma {:induction false} SumOfZeros(a: seq<real>)
    requires forall i :: 0 <= i < |a| ==> a[i] == 0.0
    ensures Sum(a) == 0.0
  {
    if a != [] { SumOfZeros(a[..|a| - 1]); }
  }

  lemma NoPredictionsNoError(y: seq<real>, p: seq<real>, bins: nat)
    requires y == [] && p == [] && bins > 0
    ensures EceOf(y, p, bins) == 0.0
  {
    var gaps := Gaps(y, Clipped(p), bins);
    forall idx | 0 <= idx < bins
      ensures gaps[idx] == 0.0
    {
      assert BinCount(Clipped(p), idx, bins) == 0;
    }
    SumOfZeros(gaps);
  }

  /** With labels between 0 and 1 the calibration error is a proportion. */
  lemma EceInUnit(y: seq<real>, p: seq<real>, bins: nat)
    requires |y| == |p| && bins > 0
    requires UnitValues(y)
    ensures 0.0 <= EceOf(y, p, bins) <= 1.0
    ensures p == [] ==> EceOf(y, p, bins) == 0.0
  {
    if p == [] {
      NoPredictionsNoError(y, p, bins);
      return;
    }
    EceBounds(y, p, bins);
    hide EceOf, Sum;
    var m := Magnitudes(Minus(Clipped(p), y));
    forall v | v in m ensures v <= 1.0 {
      var i :| 0 <= i < |m| && m[i] == v;
      assert y[i] in y;
    }
    SumBound(m, 1.0);
    DivMonotone(Sum(m), |m| as real, |m| as real);
  }

  /** The squared calibration error never exceeds the Brier score. */
  lemma EceSquaredAtMostBrier(y: seq<real>, p: seq<real>, bins: nat)
    requires |y| == |p| > 0 && bins > 0
    ensures EceOf(y, p, bins) * EceOf(y, p, bins) <= Brier(y, p)
  {
    var d := Minus(Clipped(p), y);
    EceBounds(y, p, bins);
    MeanMagnitudeSquared(d);
    SquareAtMost(EceOf(y, p, bins), Mean(Magnitudes(d)));
  }

  lemma MeanMagnitudeSquared(d: seq<real>)
    requires d != []
    ensures Mean(Magnitudes(d)) * Mean(Magnitudes(d)) <= Mean(Squares(d))
  {
    CauchySchwarz(Magnitudes(d));
    forall i | 0 <= i < |d| ensures Squares(Magnitudes(d))[i] == Squares(d)[i] {
      var x := d[i];
      assert AbsReal(x) * AbsReal(x) == x * x;
    }
    assert Squares(Magnitudes(d)) == Squares(d);
    MeanSquare(Sum(Magnitudes(d)), Sum(Squares(d)), |d| as real);
  }

  lemma SquareAtMost(e: real, mean: real)
    requires 0.0 <= e <= mean
    ensures e * e <= mean * mean
  {
    MulMonotone(e, mean, e);
    MulMonotone(e, mean, mean);
  }

  lemma MeanSquare(s: real, q: real, n: real)
    requires n > 0.0 && s * s <= n * q
    ensures (s / n) * (s / n) <= q / n
  {
    var r := s / n;
    DivThenMul(s, n);
    assert n * (n * (r * r)) == s * s;
    var t := n * (r * r);
    DivMonotone(n * t, n * q, n);
    assert n * t / n == t && n * q / n == q;
    DivMonotone(t, q, n);
    assert t / n == r * r;
  }

  // ---------------------------------------------------------------- what the scores measure

  /** Predictions below zero count as zero and above one as one; the others stand. */
  lemma ClippedIs(p: seq<real>, i: nat)
    requires i < |p|
    ensures Clipped(p)[i] == if p[i] < 0.0 then 0.0 else if p[i] > 1.0 then 1.0 else p[i]
  {
  }

  /** The Brier score of one prediction is its squared error. */
  lemma BrierOfOne(y: real, p: real)
    ensures 0.0 <= p <= 1.0 ==> Brier([y], [p]) == (p - y) * (p - y)
    ensures p < 0.0 ==> Brier([y], [p]) == y * y
    ensures p > 1.0 ==> Brier([y], [p]) == (1.0 - y) * (1.0 - y)
  {
    var e := Squares(Minus(Clipped([p]), [y]));
    assert |e| == 1 && e[..0] == [];
    assert Sum(e) == e[0];
  }

  /** And the total of two series is the total of both. */
  function SquaredErrors(y: seq<real>, p: seq<real>): (e: seq<real>)
    requires |y| == |p|
    ensures |e| == |p|
  {
    Squares(Minus(Clipped(p), y))
  }

  lemma SquaresOfBoth(a: seq<real>, b: seq<real>)
    ensures Squares(a + b) == Squares(a) + Squares(b)
  {
    forall i | 0 <= i < |a + b|
      ensures Squares(a + b)[i] == (Squares(a) + Squares(b))[i]
    {
      var x := (a + b)[i];
      assert x == if i < |a| then a[i] else b[i - |a|];
      assert Squares(a + b)[i] == x * x;
    }
  }

  lemma SquaredErrorsOfBoth(y1: seq<real>, p1: seq<real>, y2: seq<real>, p2: seq<real>)
    requires |y1| == |p1| && |y2| == |p2|
    ensures SquaredErrors(y1 + y2, p1 + p2) == SquaredErrors(y1, p1) + SquaredErrors(y2, p2)
  {
    hide Clip;
    var both := Clipped(p1 + p2);
    assert both == Clipped(p1) + Clipped(p2);
    var m1, m2 := Minus(Clipped(p1), y1), Minus(Clipped(p2), y2);
    assert Minus(both, y1 + y2) == m1 + m2;
    SquaresOfBoth(m1, m2);
  }

  lemma MeanTimes(a: seq<real>)
    requires a != []
    ensures Mean(a) * |a| as real == Sum(a)
  {
    DivThenMul(Sum(a), |a| as real);
  }

  lemma BrierOfBoth(y1: seq<real>, p1: seq<real>, y2: seq<real>, p2: seq<real>)
    requires |y1| == |p1| > 0 && |y2| == |p2| > 0
    ensures Brier(y1 + y2, p1 + p2) * (|p1| + |p2|) as real
         == Brier(y1, p1) * |p1| as real + Brier(y2, p2) * |p2| as real
  {
    hide Squares, Minus, Clipped, Sum;
    SquaredErrorsOfBoth(y1, p1, y2, p2);
    var e1, e2 := SquaredErrors(y1, p1), SquaredErrors(y2, p2);
    SumSplit(e1, e2);
    MeanTimes(e1);
    MeanTimes(e2);
    MeanTimes(e1 + e2);
  }

  /** With a single bin the calibration error is the gap between the mean prediction and the mean label. */
  lemma EceOfOneBin(y: seq<real>, p: seq<real>)
    requires |y| == |p| > 0
    ensures EceOf(y, p, 1) == AbsReal(Mean(Clipped(p)) - Mean(y))
  {
    var c := Clipped(p);
    var d := Minus(c, y);
    EceIsBinErrors(y, c, 1);
    BinsPartition(d, c, 1);
    assert BinErrors(d, c, 1)[..0] == [] && Sum(BinErrors(d, c, 1)) == BinErrors(d, c, 1)[0];
    assert BinSums(d, c, 1, 1) == BinSum(d, c, 0, 1);
    SumMinus(c, y);
    MeanGap(Sum(c), Sum(y), |c| as real);
  }

  /** For any bins it is the mean over the bins of the errors that each bin's members leave together. */
  lemma EceIs(y: seq<real>, p: seq<real>, bins: nat)
    requires |y| == |p| > 0 && bins > 0
    ensures EceOf(y, p, bins) * |p| as real == Sum(BinErrors(Minus(Clipped(p), y), Clipped(p), bins))
  {
    hide Sum, Gaps, BinErrors;
    EceIsBinErrors(y, Clipped(p), bins);
    DivThenMul(Sum(BinErrors(Minus(Clipped(p), y), Clipped(p), bins)), |p| as real);
  }
}
