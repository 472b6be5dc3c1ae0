/** The two-sample Kolmogorov-Smirnov statistic evaluated at the pooled sample points. */
module KolmogorovSmirnov {
  import opened Prelude
  import opened RealLaws

  // ---------------------------------------------------------------- sorting and searching

  ghost predicate Sorted(s: seq<real>) { forall i, j :: 0 <= i < j < |s| ==> s[i] <= s[j] }

  /** How many samples are at most `x`. */
  function CountAtMost(s: seq<real>, x: real): (n: nat)
    ensures n <= |s|
  {
    if s == [] then 0 else (if s[0] <= x then 1 else 0) + CountAtMost(s[1..], x)
  }

  function Insert(v: real, s: seq<real>): seq<real> {
    if s == [] || v <= s[0] then [v] + s else [s[0]] + Insert(v, s[1..])
  }

  function Sort(s: seq<real>): (r: seq<real>)
    ensures |r| == |s|
  {
    if s == [] then [] else InsertLength(s[0], Sort(s[1..])); Insert(s[0], Sort(s[1..]))
  }

  lemma {:induction false} InsertLength(v: real, s: seq<real>)
    ensures |Insert(v, s)| == |s| + 1
  {
    if s != [] && v > s[0] {
      InsertLength(v, s[1..]);
    }
  }

  lemma {:induction false} InsertElements(v: real, s: seq<real>)
    ensures multiset(Insert(v, s)) == multiset{v} + multiset(s)
  {
    if s != [] {
      assert s == [s[0]] + s[1..];
      if v > s[0] {
        InsertElements(v, s[1..]);
      }
    }
  }

  lemma {:induction false} InsertSorted(v: real, s: seq<real>)
    requires Sorted(s)
    ensures Sorted(Insert(v, s))
  {
    if s != [] && v > s[0] {
      InsertSorted(v, s[1..]);
      InsertElements(v, s[1..]);
      forall i | 0 <= i < |Insert(v, s[1..])| ensures s[0] <= Insert(v, s[1..])[i] {
        assert Insert(v, s[1..])[i] in multiset(Insert(v, s[1..]));
      }
    }
  }

  lemma {:induction false} SortIsSorted(s: seq<real>)
    ensures Sorted(Sort(s)) && multiset(Sort(s)) == multiset(s)
  {
    if s != [] {
      SortIsSorted(s[1..]);
      InsertSorted(s[0], Sort(s[1..]));
      InsertElements(s[0], Sort(s[1..]));
      assert s == [s[0]] + s[1..];
    }
  }

  lemma {:induction false} InsertCount(v: real, s: seq<real>, x: real)
    ensures CountAtMost(Insert(v, s), x) == CountAtMost([v] + s, x)
  {
    assert ([v] + s)[1..] == s;
    if s != [] && v > s[0] {
      InsertCount(v, s[1..], x);
      assert ([s[0]] + Insert(v, s[1..]))[1..] == Insert(v, s[1..]);
      assert ([v] + s[1..])[1..] == s[1..];
    }
  }

  lemma {:induction false} SortCount(s: seq<real>, x: real)
    ensures CountAtMost(Sort(s), x) == CountAtMost(s, x)
  {
    if s != [] {
      SortCount(s[1..], x);
      InsertCount(s[0], Sort(s[1..]), x);
      assert ([s[0]] + Sort(s[1..]))[1..] == Sort(s[1..]);
    }
  }

  /** Where `x` would be inserted after any equal samples: binary search between `lo` and `hi`. */
  function SearchRight(s: seq<real>, x: real, lo: nat, hi: nat): nat
    requires lo <= hi <= |s|
    decreases hi - lo
  {
    if lo == hi then lo
    else
      var mid := (lo + hi) / 2;
      if x < s[mid] then SearchRight(s, x, lo, mid) else SearchRight(s, x, mid + 1, hi)
  }

  lemma {:induction false} SearchRightCounts(s: seq<real>, x: real, lo: nat, hi: nat)
    requires lo <= hi <= |s| && Sorted(s)
    requires forall i :: 0 <= i < lo ==> s[i] <= x
    requires forall i :: hi <= i < |s| ==> x < s[i]
    ensures SearchRight(s, x, lo, hi) == CountAtMost(s, x)
    decreases hi - lo
  {
    if lo == hi {
      PrefixCount(s, x, lo);
    } else {
      var mid := (lo + hi) / 2;
      if x < s[mid] {
        SearchRightCounts(s, x, lo, mid);
      } else {
        SearchRightCounts(s, x, mid + 1, hi);
      }
    }
  }

  lemma {:induction false} PrefixCount(s: seq<real>, x: real, k: nat)
    requires k <= |s|
    requires forall i :: 0 <= i < |s| ==> (i < k <==> s[i] <= x)
    ensures CountAtMost(s, x) == k
  {
    if s != [] {
      PrefixCount(s[1..], x, if k == 0 then 0 else k - 1);
    }
  }

  // ---------------------------------------------------------------- the statistic

  /** The empirical distribution function. */
  function Cdf(s: seq<real>, x: real): real
    requires s != []
  {
    CountAtMost(s, x) as real / |s| as real
  }

  function Gap(a: seq<real>, b: seq<real>, x: real): real
    requires a != [] && b != []
  {
    AbsReal(Cdf(a, x) - Cdf(b, x))
  }

  /** The largest gap between the two distribution functions over the given points. */
  function MaxGap(sa: seq<real>, sb: seq<real>, points: seq<real>): real
    requires sa != [] && sb != []
  {
    if points == [] then 0.0
    else
      var x := points[|points| - 1];
      var here := AbsReal(SearchRight(sa, x, 0, |sa|) as real / |sa| as real
                          - SearchRight(sb, x, 0, |sb|) as real / |sb| as real);
      MaxReal(MaxGap(sa, sb, points[..|points| - 1]), here)
  }

  function Ks(expected: seq<real>, actual: seq<real>): real {
    var e, a := Sort(expected), Sort(actual);
    if e == [] || a == [] then 0.0 else MaxGap(e, a, Sort(e + a))
  }

  lemma SortedGap(a: seq<real>, b: seq<real>, x: real)
    requires a != [] && b != []
    ensures AbsReal(SearchRight(Sort(a), x, 0, |a|) as real / |a| as real
                    - SearchRight(Sort(b), x, 0, |b|) as real / |b| as real)
         == Gap(a, b, x)
  {
    hide Sort, SearchRight, CountAtMost, Sorted;
    SortIsSorted(a);
    SortIsSorted(b);
    SearchRightCounts(Sort(a), x, 0, |a|);
    SearchRightCounts(Sort(b), x, 0, |b|);
    SortCount(a, x);
    SortCount(b, x);
  }

  lemma {:induction false} MaxGapIsMax(a: seq<real>, b: seq<real>, points: seq<real>)
    requires a != [] && b != [] && points != []
    ensures forall x :: x in points ==> Gap(a, b, x) <= MaxGap(Sort(a), Sort(b), points)
    ensures exists x :: x in points && Gap(a, b, x) == MaxGap(Sort(a), Sort(b), points)
  {
    var rest, last := points[..|points| - 1], points[|points| - 1];
    SortedGap(a, b, last);
    assert last in points && (forall x :: x in points <==> x in rest || x == last);
    if rest != [] {
      MaxGapIsMax(a, b, rest);
    } else {
      assert MaxGap(Sort(a), Sort(b), points) == Gap(a, b, last);
    }
  }

  lemma PooledPoints(a: seq<real>, b: seq<real>)
    ensures forall x :: x in Sort(Sort(a) + Sort(b)) <==> x in a || x in b
  {
    var pooled := Sort(Sort(a) + Sort(b));
    SortIsSorted(a);
    SortIsSorted(b);
    SortIsSorted(Sort(a) + Sort(b));
    forall x ensures x in pooled <==> x in a || x in b {
      assert x in pooled <==> x in multiset(pooled);
      assert x in Sort(a) <==> x in multiset(Sort(a));
      assert x in Sort(b) <==> x in multiset(Sort(b));
      assert x in a <==> x in multiset(a);
      assert x in b <==> x in multiset(b);
    }
  }

  /** Between sample points the counts do not move. */
  lemma {:induction false} CountIsStep(s: seq<real>, p: real, x: real)
    requires p <= x && forall v :: v in s && v <= x ==> v <= p
    ensures CountAtMost(s, p) == CountAtMost(s, x)
  {
    if s != [] {
      assert s[0] in s && forall v :: v in s[1..] ==> v in s;
      CountIsStep(s[1..], p, x);
    }
  }

  lemma {:induction false} NoneAtMost(s: seq<real>, x: real)
    requires forall v :: v in s ==> v > x
    ensures CountAtMost(s, x) == 0
  {
    if s != [] {
      assert s[0] in s && forall v :: v in s[1..] ==> v in s;
      NoneAtMost(s[1..], x);
    }
  }

  /** The greatest pooled point at or below `x`, if there is one. */
  lemma {:induction false} PointBelow(points: seq<real>, x: real) returns (p: Option<real>)
    ensures p.Some? ==> p.value in points && p.value <= x && forall v :: v in points && v <= x ==> v <= p.value
    ensures p.None? ==> forall v :: v in points ==> v > x
  {
    if points == [] {
      return None;
    }
    p := PointBelow(points[1..], x);
    assert forall v :: v in points <==> v == points[0] || v in points[1..];
    if points[0] <= x && (p.None? || p.value < points[0]) {
      p := Some(points[0]);
    }
  }

  lemma GapIsStep(a: seq<real>, b: seq<real>, x: real, points: seq<real>)
    requires a != [] && b != [] && forall v :: v in points <==> v in a || v in b
    ensures Gap(a, b, x) == 0.0 || exists p :: p in points && Gap(a, b, p) == Gap(a, b, x)
  {
    var p := PointBelow(points, x);
    if p.Some? {
      CountIsStep(a, p.value, x);
      CountIsStep(b, p.value, x);
      assert Gap(a, b, p.value) == Gap(a, b, x);
    } else {
      NoneAtMost(a, x);
      NoneAtMost(b, x);
    }
  }

  /** The statistic is the supremum of the gap over the whole real line, and it is attained. */
  lemma KsIsSupremum(a: seq<real>, b: seq<real>)
    requires a != [] && b != []
    ensures forall x: real :: Gap(a, b, x) <= Ks(a, b)
    ensures exists x: real :: Gap(a, b, x) == Ks(a, b)
  {
    var points := Sort(Sort(a) + Sort(b));
    PooledPoints(a, b);
    assert a[0] in points;
    MaxGapIsMax(a, b, points);
    forall x: real ensures Gap(a, b, x) <= Ks(a, b) {
      GapIsStep(a, b, x, points);
      assert Gap(a, b, a[0]) >= 0.0;
    }
  }

  lemma CdfInUnit(s: seq<real>, x: real)
    requires s != []
    ensures 0.0 <= Cdf(s, x) <= 1.0
  {
    DivMonotone(0.0, CountAtMost(s, x) as real, |s| as real);
    DivMonotone(CountAtMost(s, x) as real, |s| as real, |s| as real);
  }

  lemma KsInUnit(a: seq<real>, b: seq<real>)
    ensures 0.0 <= Ks(a, b) <= 1.0
  {
    if a != [] && b != [] {
      KsIsSupremum(a, b);
      var x: real :| Gap(a, b, x) == Ks(a, b);
      CdfInUnit(a, x);
      CdfInUnit(b, x);
    }
  }

  lemma KsSymmetric(a: seq<real>, b: seq<real>)
    ensures Ks(a, b) == Ks(b, a)
  {
    if a != [] && b != [] {
      KsIsSupremum(a, b);
      KsIsSupremum(b, a);
      var x: real :| Gap(a, b, x) == Ks(a, b);
      var y: real :| Gap(b, a, y) == Ks(b, a);
      assert Gap(b, a, x) <= Ks(b, a) && Gap(a, b, y) <= Ks(a, b);
    }
  }

  /** With a non-empty middle sample the statistic obeys the triangle inequality. */
  lemma KsTriangle(a: seq<real>, b: seq<real>, c: seq<real>)
    requires b != []
    ensures Ks(a, c) <= Ks(a, b) + Ks(b, c)
  {
    KsInUnit(a, b);
    KsInUnit(b, c);
    if a != [] && c != [] {
      KsIsSupremum(a, b);
      KsIsSupremum(b, c);
      KsIsSupremum(a, c);
      var x: real :| Gap(a, c, x) == Ks(a, c);
      assert Gap(a, b, x) <= Ks(a, b) && Gap(b, c, x) <= Ks(b, c);
    }
  }

  /** It is zero exactly when the two empirical distributions coincide. */
  lemma KsZeroIff(a: seq<real>, b: seq<real>)
    requires a != [] && b != []
    ensures Ks(a, b) == 0.0 <==> forall x: real :: Cdf(a, x) == Cdf(b, x)
  {
    KsIsSupremum(a, b);
    if Ks(a, b) == 0.0 {
      forall x: real ensures Cdf(a, x) == Cdf(b, x) {
        assert Gap(a, b, x) <= 0.0;
      }
    }
  }

  /** Without a sample on one side there is nothing to compare. */
  lemma KsOfEmpty(a: seq<real>, b: seq<real>)
    ensures a == [] || b == [] ==> Ks(a, b) == 0.0
  {
  }

  /** A distribution function is a share of the sample, and every point counts once. */
  lemma CdfIs(s: seq<real>, x: real)
    requires s != []
    ensures Cdf(s, x) * |s| as real == CountAtMost(s, x) as real
    ensures forall v :: CountAtMost([v], x) == if v <= x then 1 else 0
  {
    DivThenMul(CountAtMost(s, x) as real, |s| as real);
  }

  lemma {:induction false} CountOfBoth(a: seq<real>, b: seq<real>, x: real)
    ensures CountAtMost(a + b, x) == CountAtMost(a, x) + CountAtMost(b, x)
  {
    if a == [] {
      assert a + b == b;
    } else {
      assert (a + b)[1..] == a[1..] + b;
      CountOfBoth(a[1..], b, x);
    }
  }
}
