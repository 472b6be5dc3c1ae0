/** The running drawdown loop and what it really computes: the worst contiguous loss. */
module Drawdown {
  import opened Prelude
  import opened Sums

  /** A contiguous stretch of the series sums to the difference of two running totals. */
  lemma SliceSum(xs: seq<real>, j: nat, k: nat)
    requires j <= k <= |xs|
    ensures Sum(xs[j..k]) == Sum(xs[..k]) - Sum(xs[..j])
  {
    assert xs[..k] == xs[..j] + xs[j..k];
    SumSplit(xs[..j], xs[j..k]);
  }

  /** `peak` is the highest running total up to `n`, starting at zero. */
  ghost predicate IsPeak(xs: seq<real>, n: nat, peak: real)
    requires n <= |xs|
  {
    && (forall j :: 0 <= j <= n ==> Sum(xs[..j]) <= peak)
    && (exists j :: 0 <= j <= n && Sum(xs[..j]) == peak)
  }

  /** `dd` is the least sum of a contiguous, possibly empty, stretch of the first `n` values. */
  ghost predicate IsWorstStretch(xs: seq<real>, n: nat, dd: real)
    requires n <= |xs|
  {
    && (forall j, k :: 0 <= j <= k <= n ==> dd <= Sum(xs[j..k]))
    && (exists j, k :: 0 <= j <= k <= n && Sum(xs[j..k]) == dd)
  }

  lemma PeakStep(xs: seq<real>, n: nat, peak: real)
    requires n < |xs| && IsPeak(xs, n, peak)
    ensures IsPeak(xs, n + 1, MaxReal(peak, Sum(xs[..n + 1])))
  {
    var j :| 0 <= j <= n && Sum(xs[..j]) == peak;
    if peak < Sum(xs[..n + 1]) {
      assert Sum(xs[..n + 1]) == MaxReal(peak, Sum(xs[..n + 1]));
    } else {
      assert 0 <= j <= n + 1 && Sum(xs[..j]) == MaxReal(peak, Sum(xs[..n + 1]));
    }
  }

  lemma WorstStep(xs: seq<real>, n: nat, peak: real, dd: real)
    requires n < |xs| && IsPeak(xs, n + 1, peak) && IsWorstStretch(xs, n, dd)
    ensures IsWorstStretch(xs, n + 1, MinReal(dd, Sum(xs[..n + 1]) - peak))
  {
    var fall := Sum(xs[..n + 1]) - peak;
    forall j, k | 0 <= j <= k <= n + 1 ensures MinReal(dd, fall) <= Sum(xs[j..k]) {
      if k == n + 1 {
        SliceSum(xs, j, k);
      }
    }
    var p :| 0 <= p <= n + 1 && Sum(xs[..p]) == peak;
    var a, b :| 0 <= a <= b <= n && Sum(xs[a..b]) == dd;
    SliceSum(xs, p, n + 1);
    if dd <= fall {
      assert 0 <= a <= b <= n + 1 && Sum(xs[a..b]) == MinReal(dd, fall);
    } else {
      assert 0 <= p <= n + 1 <= n + 1 && Sum(xs[p..n + 1]) == MinReal(dd, fall);
    }
  }

  method MaxDrawdown(series: seq<real>) returns (maxDd: real)
    ensures IsWorstStretch(series, |series|, maxDd)
  {
    if series == [] {
      assert Sum(series[0..0]) == 0.0;
      return 0.0;
    }
    var peak, cum := 0.0, 0.0;
    maxDd := 0.0;
    assert Sum(series[..0]) == 0.0 && Sum(series[0..0]) == 0.0;
    for i := 0 to |series|
      invariant cum == Sum(series[..i])
      invariant IsPeak(series, i, peak)
      invariant IsWorstStretch(series, i, maxDd)
    {
      assert series[..i + 1][..i] == series[..i];
      cum := cum + series[i];
      PeakStep(series, i, peak);
      peak := MaxReal(peak, cum);
      WorstStep(series, i, peak, maxDd);
      maxDd := MinReal(maxDd, cum - peak);
    }
  }
}
