/**
 The statistics of a benchmark, in exact real arithmetic: an in-place exchange sort, order
 statistics, the mean, and a two-step stand-in for the standard deviation.
 */
module Benchmark {

  datatype Stats = Stats(mean: real, median: real, min: real, max: real, stdDev: real, p95: real, p99: real)

  const NO_STATS := Stats(0.0, 0.0, 0.0, 0.0, 0.0, 0.0, 0.0)

  const NANOSECONDS_PER_MILLISECOND := 1_000_000

  /** Duration.Milliseconds: Go's division truncates toward zero. */
  function Milliseconds(t: int): int {
    if t >= 0 then t / NANOSECONDS_PER_MILLISECOND else -(-t / NANOSECONDS_PER_MILLISECOND)
  }

  function Samples(times: seq<int>): seq<real> {
    seq(|times|, i requires 0 <= i < |times| => Milliseconds(times[i]) as real)
  }

  // ---------------------------------------------------------------- sums over samples

  function Total(s: seq<real>, f: real -> real): real {
    if s == [] then 0.0 else Total(s[..|s| - 1], f) + f(s[|s| - 1])
  }

  function Itself(): real -> real { v => v }

  function Square(x: real): real { x * x }

  function SquaredDistance(m: real): real -> real { v => Square(v - m) }

  function OneIfAtMost(x: real): real -> real { v => if v <= x then 1.0 else 0.0 }

  lemma {:induction false} Remove(s: seq<real>, i: nat)
    requires i < |s|
    ensures multiset(s) - multiset{s[i]} == multiset(s[..i] + s[i + 1..])
  {
    assert s == s[..i] + ([s[i]] + s[i + 1..]);
  }

  lemma {:induction false} RemoveLast(s: seq<real>)
    requires s != []
    ensures multiset(s[..|s| - 1]) == multiset(s) - multiset{s[|s| - 1]}
  {
    Remove(s, |s| - 1);
    assert s[..|s| - 1] + s[|s|..] == s[..|s| - 1];
  }

  lemma {:induction false} TotalWithout(s: seq<real>, f: real -> real, i: nat)
    requires i < |s|
    ensures Total(s, f) == Total(s[..i] + s[i + 1..], f) + f(s[i])
  {
    var n := |s| - 1;
    var without := s[..i] + s[i + 1..];
    if i == n {
      assert without == s[..n];
    } else {
      TotalWithout(s[..n], f, i);
      assert s[..n][..i] + s[..n][i + 1..] == without[..|without| - 1];
    }
  }

  /** A sum does not depend on the order of the samples. */
  lemma {:induction false} TotalOfPermutation(a: seq<real>, b: seq<real>, f: real -> real)
    requires multiset(a) == multiset(b)
    ensures Total(a, f) == Total(b, f)
  {
    if a == [] {
      assert |multiset(b)| == 0;
    } else {
      var n := |a| - 1;
      assert a[n] in multiset(a) && a[n] in multiset(b);
      var i :| 0 <= i < |b| && b[i] == a[n];
      RemoveLast(a);
      Remove(b, i);
      TotalOfPermutation(a[..n], b[..i] + b[i + 1..], f);
      TotalWithout(b, f, i);
    }
  }

  lemma {:induction false} OneMore(x: real, n: nat)
    ensures x * (n + 1) as real == x * n as real + x
  {
    assert (n + 1) as real == n as real + 1.0;
  }

  lemma {:induction false} TotalBounds(s: seq<real>, f: real -> real, lo: real, hi: real)
    requires forall k | 0 <= k < |s| :: lo <= f(s[k]) <= hi
    ensures lo * |s| as real <= Total(s, f) <= hi * |s| as real
  {
    if s != [] {
      var n := |s| - 1;
      TotalBounds(s[..n], f, lo, hi);
      OneMore(lo, n);
      OneMore(hi, n);
    }
  }

  // ---------------------------------------------------------------- sorting

  ghost predicate Sorted(s: seq<real>) { forall i, j | 0 <= i < j < |s| :: s[i] <= s[j] }

  ghost predicate IsSort(sorted: seq<real>, s: seq<real>) { Sorted(sorted) && multiset(sorted) == multiset(s) }

  lemma {:induction false} SameLength(a: seq<real>, b: seq<real>)
    requires multiset(a) == multiset(b)
    ensures |a| == |b|
  {
    assert |multiset(a)| == |multiset(b)|;
  }

  lemma {:induction false} LastIsLargest(a: seq<real>, b: seq<real>)
    requires Sorted(a) && a != [] && b != [] && multiset(a) == multiset(b)
    ensures b[|b| - 1] <= a[|a| - 1]
  {
    assert b[|b| - 1] in multiset(b) && b[|b| - 1] in multiset(a);
    var i :| 0 <= i < |a| && a[i] == b[|b| - 1];
    assert i < |a| - 1 ==> a[i] <= a[|a| - 1];
  }

  /** There is only one way to sort. */
  lemma {:induction false} SortIsUnique(a: seq<real>, b: seq<real>)
    requires Sorted(a) && Sorted(b) && multiset(a) == multiset(b)
    ensures a == b
  {
    SameLength(a, b);
    if a != [] {
      var n := |a| - 1;
      LastIsLargest(a, b);
      LastIsLargest(b, a);
      RemoveLast(a);
      RemoveLast(b);
      SortIsUnique(a[..n], b[..n]);
      assert a == a[..n] + [a[n]];
    }
  }

  lemma {:induction false} SwapPermutes(s: seq<real>, i: nat, j: nat)
    requires i < j < |s|
    ensures multiset(s[i := s[j]][j := s[i]]) == multiset(s)
  {
    assert multiset(s[i := s[j]]) == multiset(s) - multiset{s[i]} + multiset{s[j]};
  }

  method Swap(a: array<real>, i: nat, j: nat)
    requires i < j < a.Length
    modifies a
    ensures a[i] == old(a[j]) && a[j] == old(a[i])
    ensures forall k | 0 <= k < a.Length && k != i && k != j :: a[k] == old(a[k])
    ensures multiset(a[..]) == multiset(old(a[..]))
  {
    ghost var s := a[..];
    a[i], a[j] := a[j], a[i];
    assert a[..] == s[i := s[j]][j := s[i]];
    SwapPermutes(s, i, j);
  }

  method ExchangeSort(a: array<real>)
    modifies a
    ensures IsSort(a[..], old(a[..]))
  {
    var i := 0;
    while i < a.Length
      invariant 0 <= i <= a.Length
      invariant forall p, q | 0 <= p < q < a.Length && p < i :: a[p] <= a[q]
      invariant multiset(a[..]) == multiset(old(a[..]))
    {
      var j := i + 1;
      while j < a.Length
        invariant i < j <= a.Length
        invariant forall p, q | 0 <= p < q < a.Length && p < i :: a[p] <= a[q]
        invariant forall q | i < q < j :: a[i] <= a[q]
        invariant multiset(a[..]) == multiset(old(a[..]))
      {
        if a[i] > a[j] {
          Swap(a, i, j);
        }
        j := j + 1;
      }
      i := i + 1;
    }
  }

  // ---------------------------------------------------------------- what the statistics are

  function Mean(s: seq<real>): real
    requires s != []
  {
    Total(s, Itself()) / |s| as real
  }

  function SquaredError(s: seq<real>): real
    requires s != []
  {
    Total(s, SquaredDistance(Mean(s)))
  }

  /** One averaging step from the reciprocal of the variance, whatever its name promises. */
  function StdDev(s: seq<real>): real
    requires s != []
  {
    if |s| == 1 then 0.0
    else
      var variance := SquaredError(s) / (|s| - 1) as real;
      if variance <= 0.0 then variance
      else
        var guess := 1.0 / variance;
        (guess + SquaredError(s) / guess) / 2.0
  }

  function Median(sorted: seq<real>): real
    requires sorted != []
  {
    var half := |sorted| / 2;
    if |sorted| % 2 == 0 then (sorted[half - 1] + sorted[half]) / 2.0 else sorted[half]
  }

  function Rank(n: nat, fraction: real): int { (n as real * fraction).Floor }

  function P95Rank(n: nat): (r: int)
    ensures n > 0 ==> 0 <= n / 2 <= r < n
  {
    assert n > 0 ==> n as real * 0.95 < n as real;
    assert n > 0 ==> (n / 2) as real <= n as real * 0.95;
    Rank(n, 0.95)
  }

  function P99Rank(n: nat): (r: int)
    ensures n > 0 ==> P95Rank(n) <= r < n
  {
    assert n > 0 ==> n as real * 0.99 < n as real;
    Rank(n, 0.99)
  }

  /** The statistics of `s`, of which `sorted` is the sorted form. */
  ghost predicate Describes(st: Stats, s: seq<real>, sorted: seq<real>)
    requires s != []
  {
    var n := |sorted|;
    && IsSort(sorted, s) && n == |s|
    && st.mean == Mean(s)
    && st.median == Median(sorted)
    && st.min == sorted[0] && st.max == sorted[n - 1]
    && st.stdDev == StdDev(s)
    && st.p95 == sorted[P95Rank(n)] && st.p99 == sorted[P99Rank(n)]
  }

  /** The order of the samples does not matter to any field. */
  lemma {:induction false} OrderDoesNotMatter(st: Stats, s: seq<real>, sorted: seq<real>, s': seq<real>)
    requires s != [] && multiset(s) == multiset(s') && Describes(st, s, sorted)
    ensures s' != [] && Describes(st, s', sorted)
  {
    SameLength(s, s');
    TotalOfPermutation(s, s', Itself());
    TotalOfPermutation(s, s', SquaredDistance(Mean(s)));
  }

  /** The samples determine the statistics. */
  lemma {:induction false} DescribedOnce(s: seq<real>, st: Stats, sorted: seq<real>, st': Stats, sorted': seq<real>)
    requires s != [] && Describes(st, s, sorted) && Describes(st', s, sorted')
    ensures st == st'
  {
    SortIsUnique(sorted, sorted');
  }

  lemma {:induction false} SortKeepsSamples(s: seq<real>, sorted: seq<real>)
    requires IsSort(sorted, s) && s != []
    ensures |sorted| == |s|
    ensures forall v :: v in s <==> v in sorted
    ensures forall v <- s :: sorted[0] <= v <= sorted[|sorted| - 1]
  {
    SameLength(sorted, s);
    forall v ensures v in s <==> v in sorted { assert v in multiset(s) <==> v in multiset(sorted); }
  }

  lemma {:induction false} Between(total: real, n: int, lo: real, hi: real)
    requires n > 0 && lo * n as real <= total <= hi * n as real
    ensures lo <= total / n as real <= hi
  {
    var q := total / n as real;
    assert q * n as real == total;
    if q < lo { Less(q, lo, n as real); }
    if hi < q { Less(hi, q, n as real); }
  }

  lemma {:induction false} Less(a: real, b: real, n: real)
    requires a < b && n > 0.0
    ensures a * n < b * n
  {
    assert (b - a) * n > 0.0;
  }

  lemma {:induction false} RanksAreOrdered(sorted: seq<real>)
    requires sorted != [] && Sorted(sorted)
    ensures var n := |sorted|;
            sorted[0] <= Median(sorted) <= sorted[P95Rank(n)] <= sorted[P99Rank(n)] <= sorted[n - 1]
  {
    var n := |sorted|;
    var half := n / 2;
    assert sorted[0] <= sorted[half] <= sorted[P95Rank(n)];
    assert n % 2 == 0 ==> sorted[0] <= sorted[half - 1] <= sorted[half];
  }

  lemma {:induction false} MeanIsBetween(s: seq<real>, lo: real, hi: real)
    requires s != [] && forall v <- s :: lo <= v <= hi
    ensures lo <= Mean(s) <= hi
  {
    forall k | 0 <= k < |s| ensures lo <= Itself()(s[k]) <= hi { assert s[k] in s; }
    TotalBounds(s, Itself(), lo, hi);
    Between(Total(s, Itself()), |s|, lo, hi);
  }

  /** The fields are ordered as their names say; minimum, maximum and percentiles are samples, and the first two bound all. */
  lemma {:induction false} FieldsAreOrdered(st: Stats, s: seq<real>, sorted: seq<real>)
    requires s != [] && Describes(st, s, sorted)
    ensures st.min <= st.median <= st.p95 <= st.p99 <= st.max
    ensures st.min <= st.mean <= st.max
    ensures st.min in s && st.max in s && st.p95 in s && st.p99 in s
    ensures forall v <- s :: st.min <= v <= st.max
  {
    RanksAreOrdered(sorted);
    SortKeepsSamples(s, sorted);
    MeanIsBetween(s, st.min, st.max);
  }

  lemma {:induction false} StartOfSorted(sorted: seq<real>, r: nat)
    requires Sorted(sorted) && r < |sorted|
    ensures Total(sorted, OneIfAtMost(sorted[r])) >= r as real + 1.0
  {
    var f := OneIfAtMost(sorted[r]);
    StartOfSortedUpTo(sorted, r, |sorted|);
    assert sorted[..|sorted|] == sorted;
  }

  lemma {:induction false} StartOfSortedUpTo(sorted: seq<real>, r: nat, k: nat)
    requires Sorted(sorted) && r < |sorted| && k <= |sorted|
    ensures Total(sorted[..k], OneIfAtMost(sorted[r])) >= if k <= r then k as real else r as real + 1.0
  {
    if k > 0 {
      StartOfSortedUpTo(sorted, r, k - 1);
      assert sorted[..k][..k - 1] == sorted[..k - 1];
    }
  }

  /** How many samples are at most x. */
  function CountAtMost(s: seq<real>, x: real): real { Total(s, OneIfAtMost(x)) }

  /** More than 95 (99) in a hundred samples, rounded down, are at most P95 (P99). */
  lemma {:induction false} PercentilesCover(st: Stats, s: seq<real>, sorted: seq<real>)
    requires s != [] && Describes(st, s, sorted)
    ensures CountAtMost(s, st.p95) >= Rank(|s|, 0.95) as real + 1.0
    ensures CountAtMost(s, st.p99) >= Rank(|s|, 0.99) as real + 1.0
  {
    StartOfSorted(sorted, P95Rank(|s|));
    StartOfSorted(sorted, P99Rank(|s|));
    TotalOfPermutation(s, sorted, OneIfAtMost(st.p95));
    TotalOfPermutation(s, sorted, OneIfAtMost(st.p99));
  }

  /** A sample strictly below x, and one strictly above it, as summands of a count. */
  function OneIfBelow(x: real): real -> real { v => if v < x then 1.0 else 0.0 }

  function OneIfAbove(x: real): real -> real { v => if v > x then 1.0 else 0.0 }

  /** A count is at most the length of the stretch outside of which nothing counts. */
  lemma {:induction false} CountsWithin(s: seq<real>, f: real -> real, lo: nat, hi: nat)
    requires lo <= hi <= |s|
    requires forall k | 0 <= k < |s| :: f(s[k]) <= if lo <= k < hi then 1.0 else 0.0
    ensures Total(s, f) <= (hi - lo) as real
  {
    if s != [] {
      var n := |s| - 1;
      CountsWithin(s[..n], f, if lo <= n then lo else n, if hi <= n then hi else n);
    }
  }

  /** The median is halfway between the two middle samples; at most half of the samples are below it, and at most half above. */
  lemma {:induction false} MedianIsInTheMiddle(st: Stats, s: seq<real>, sorted: seq<real>)
    requires s != [] && Describes(st, s, sorted)
    ensures 2.0 * st.median == sorted[(|s| - 1) / 2] + sorted[|s| / 2]
    ensures Total(s, OneIfBelow(st.median)) <= (|s| / 2) as real
    ensures Total(s, OneIfAbove(st.median)) <= (|s| / 2) as real
  {
    var n := |s|;
    assert sorted[(n - 1) / 2] <= sorted[n / 2];
    assert n % 2 == 0 ==> (n - 1) / 2 == n / 2 - 1;
    assert n % 2 == 1 ==> (n - 1) / 2 == n / 2;
    CountsWithin(sorted, OneIfBelow(st.median), 0, n / 2);
    CountsWithin(sorted, OneIfAbove(st.median), (n - 1) / 2 + 1, n);
    TotalOfPermutation(s, sorted, OneIfBelow(st.median));
    TotalOfPermutation(s, sorted, OneIfAbove(st.median));
  }

  function Negated(s: seq<real>): (r: seq<real>)
    ensures |r| == |s|
  {
    seq(|s|, i requires 0 <= i < |s| => -s[i])
  }

  function Reversed(s: seq<real>): (r: seq<real>)
    ensures |r| == |s|
  {
    seq(|s|, i requires 0 <= i < |s| => s[|s| - 1 - i])
  }

  lemma {:induction false} NegatedCounts(s: seq<real>, v: real)
    ensures multiset(Negated(s))[v] == multiset(s)[-v]
  {
    if s != [] {
      var n := |s| - 1;
      NegatedCounts(s[..n], v);
      assert s == s[..n] + [s[n]];
      assert Negated(s) == Negated(s[..n]) + [-s[n]];
    }
  }

  lemma {:induction false} ReversedPermutes(s: seq<real>)
    ensures multiset(Reversed(s)) == multiset(s)
  {
    if s == [] {
      assert Reversed(s) == [];
    } else {
      ReversedPermutes(s[1..]);
      assert Reversed(s) == Reversed(s[1..]) + [s[0]];
      assert s == [s[0]] + s[1..];
    }
  }

  lemma {:induction false} NegatedSort(s: seq<real>, sorted: seq<real>)
    requires IsSort(sorted, s)
    ensures IsSort(Reversed(Negated(sorted)), Negated(s))
  {
    ReversedPermutes(Negated(sorted));
    forall v ensures multiset(Negated(sorted))[v] == multiset(Negated(s))[v] {
      NegatedCounts(sorted, v);
      NegatedCounts(s, v);
    }
  }

  /** Negating all samples negates the median. */
  lemma {:induction false} MedianIsSymmetric(st: Stats, s: seq<real>, sorted: seq<real>, st': Stats, sorted': seq<real>)
    requires s != [] && Describes(st, s, sorted) && Describes(st', Negated(s), sorted')
    ensures st'.median == -st.median
  {
    NegatedSort(s, sorted);
    SortIsUnique(sorted', Reversed(Negated(sorted)));
    MirrorOfMiddle(sorted);
    MedianIsInTheMiddle(st, s, sorted);
    MedianIsInTheMiddle(st', Negated(s), sorted');
  }

  lemma {:induction false} MirrorOfMiddle(sorted: seq<real>)
    requires sorted != []
    ensures var n, r := |sorted|, Reversed(Negated(sorted));
            r[(n - 1) / 2] == -sorted[n / 2] && r[n / 2] == -sorted[(n - 1) / 2]
  {
    var n := |sorted|;
    assert n - 1 - (n - 1) / 2 == n / 2;
  }

  lemma {:induction false} DistancesAddUp(s: seq<real>, m: real, distance: real -> real)
    requires forall v :: distance(v) == v - m
    ensures Total(s, Itself()) == Total(s, distance) + m * |s| as real
  {
    if s != [] {
      DistancesAddUp(s[..|s| - 1], m, distance);
      OneMore(m, |s| - 1);
    }
  }

  lemma {:induction false} SquaresAddUp(s: seq<real>, m: real, square: real -> real)
    requires forall v :: square(v) == v * v
    ensures Total(s, SquaredDistance(m)) == Total(s, square) - 2.0 * m * Total(s, Itself()) + m * m * |s| as real
  {
    if s != [] {
      var n := |s| - 1;
      SquaresAddUp(s[..n], m, square);
      OneMore(m * m, n);
      Expand(s[n], m, Total(s[..n], Itself()));
    }
  }

  lemma {:induction false} Expand(v: real, m: real, sum: real)
    ensures Square(v - m) == v * v - 2.0 * m * v + m * m
    ensures 2.0 * m * (sum + v) == 2.0 * m * sum + 2.0 * m * v
  {}

  /** The samples lie around the mean so that their distances to it cancel. */
  lemma {:induction false} MeanBalances(s: seq<real>, distance: real -> real)
    requires s != [] && forall v :: distance(v) == v - Mean(s)
    ensures Total(s, distance) == 0.0
  {
    DistancesAddUp(s, Mean(s), distance);
    assert Mean(s) * |s| as real == Total(s, Itself());
  }

  /** The squared errors add up to the sum of squares without that of the mean. */
  lemma {:induction false} ErrorFromSquares(s: seq<real>, square: real -> real)
    requires s != [] && forall v :: square(v) == v * v
    ensures SquaredError(s) == Total(s, square) - Mean(s) * Mean(s) * |s| as real
  {
    var m, n := Mean(s), |s| as real;
    SquaresAddUp(s, m, square);
    assert m * n == Total(s, Itself());
    Regroup(m, n);
  }

  lemma {:induction false} Regroup(m: real, n: real)
    ensures -2.0 * m * (m * n) + m * m * n == -(m * m * n)
  {}

  /** Whole milliseconds, with what is left of the duration below a millisecond and on the same side of zero. */
  lemma {:induction false} MillisecondsTruncate(t: int)
    ensures var rest := t - 1_000_000 * Milliseconds(t);
            -1_000_000 < rest < 1_000_000 && (t >= 0 ==> rest >= 0) && (t <= 0 ==> rest <= 0)
  {}

  /** The ranks are 95 and 99 hundredths of the number of samples, rounded down. */
  lemma {:induction false} RanksAreHundredths(n: nat)
    requires n > 0
    ensures 100 * P95Rank(n) <= 95 * n < 100 * (P95Rank(n) + 1)
    ensures 100 * P99Rank(n) <= 99 * n < 100 * (P99Rank(n) + 1)
  {}

  /** No more samples than that are strictly below a percentile. */
  lemma {:induction false} PercentilesAreTight(st: Stats, s: seq<real>, sorted: seq<real>)
    requires s != [] && Describes(st, s, sorted)
    ensures Total(s, OneIfBelow(st.p95)) <= P95Rank(|s|) as real
    ensures Total(s, OneIfBelow(st.p99)) <= P99Rank(|s|) as real
  {
    CountsWithin(sorted, OneIfBelow(st.p95), 0, P95Rank(|s|));
    CountsWithin(sorted, OneIfBelow(st.p99), 0, P99Rank(|s|));
    TotalOfPermutation(s, sorted, OneIfBelow(st.p95));
    TotalOfPermutation(s, sorted, OneIfBelow(st.p99));
  }

  // ---------------------------------------------------------------- the reported deviation

  function Variance(s: seq<real>): real
    requires |s| > 1
  {
    SquaredError(s) / (|s| - 1) as real
  }

  lemma {:induction false} PositiveProduct(a: real, b: real)
    requires a > 0.0 && b > 0.0
    ensures a * b > 0.0
  {}

  lemma {:induction false} SquareSign(x: real)
    ensures Square(x) >= 0.0
    ensures Square(x) == 0.0 <==> x == 0.0
  {
    if x > 0.0 {
      calc { Square(x); == x * x; > { PositiveProduct(x, x); } 0.0; }
    } else if x < 0.0 {
      calc { Square(x); == -x * -x; > { PositiveProduct(-x, -x); } 0.0; }
    }
  }

  lemma {:induction false} NoErrorMeansConstant(s: seq<real>, m: real)
    ensures Total(s, SquaredDistance(m)) >= 0.0
    ensures Total(s, SquaredDistance(m)) == 0.0 <==> forall v <- s :: v == m
  {
    if s != [] {
      var n := |s| - 1;
      NoErrorMeansConstant(s[..n], m);
      SquareSign(s[n] - m);
      var d := Square(s[n] - m);
      assert d >= 0.0 && (d == 0.0 <==> s[n] == m);
      assert Total(s, SquaredDistance(m)) == Total(s[..n], SquaredDistance(m)) + d;
      assert s[n] in s;
      assert forall v <- s[..n] :: v in s;
      assert forall v <- s :: v in s[..n] || v == s[n];
      assert (forall v <- s :: v == m) <==> (forall v <- s[..n] :: v == m) && s[n] == m;
    }
  }

  lemma {:induction false} ConstantMean(s: seq<real>)
    requires s != [] && forall v <- s :: v == s[0]
    ensures Mean(s) == s[0]
  {
    MeanIsBetween(s, s[0], s[0]);
  }

  lemma {:induction false} ArithmeticGeometric(a: real, b: real)
    ensures Square((a + b) / 2.0) >= a * b
  {
    SquareSign((a - b) / 2.0);
  }

  /** The reported deviation is zero exactly when all samples are equal. */
  lemma {:induction false} DeviationZeroIffConstant(s: seq<real>)
    requires s != []
    ensures StdDev(s) >= 0.0
    ensures StdDev(s) == 0.0 <==> forall v <- s :: v == s[0]
  {
    NoErrorMeansConstant(s, Mean(s));
    assert s[0] in s;
    if forall v <- s :: v == s[0] { ConstantMean(s); }
    var e := SquaredError(s);
    if |s| > 1 {
      Between(e, |s| - 1, 0.0, e);
      if e > 0.0 { PositiveDeviation(s); }
    }
  }

  lemma {:induction false} PositiveDeviation(s: seq<real>)
    requires |s| > 1 && SquaredError(s) > 0.0
    ensures StdDev(s) > 0.0
    ensures Square(StdDev(s)) >= SquaredError(s)
  {
    var e, v := SquaredError(s), SquaredError(s) / (|s| - 1) as real;
    Positive(e, (|s| - 1) as real);
    Positive(1.0, v);
    var guess := 1.0 / v;
    Positive(e, guess);
    assert guess * (e / guess) == e;
    ArithmeticGeometric(guess, e / guess);
  }

  lemma {:induction false} Positive(a: real, b: real)
    requires a > 0.0 && b > 0.0
    ensures a / b > 0.0
  {}

  /** It never understates the spread: its square is at least the sample variance. */
  lemma {:induction false} DeviationNeverTooSmall(s: seq<real>)
    requires |s| > 1
    ensures Square(StdDev(s)) >= SquaredError(s) >= Variance(s)
  {
    var e := SquaredError(s);
    NoErrorMeansConstant(s, Mean(s));
    Between(e, |s| - 1, 0.0, e);
    if e > 0.0 { PositiveDeviation(s); }
  }

  /** The means of a and b agree only where a and b do. */
  lemma {:induction false} ArithmeticGeometricStrict(a: real, b: real)
    ensures Square((a + b) / 2.0) == a * b <==> a == b
  {
    var half := (a - b) / 2.0;
    SquareSign(half);
    assert Square((a + b) / 2.0) - a * b == Square(half);
  }

  /** Unless the samples are equal, the square of the deviation is the sum of squared errors only if v * v * e is 1. */
  lemma {:induction false} DeviationSquare(s: seq<real>)
    requires |s| > 1 && SquaredError(s) > 0.0
    ensures Square(StdDev(s)) == SquaredError(s) <==> Variance(s) * Variance(s) * SquaredError(s) == 1.0
  {
    var e, v := SquaredError(s), Variance(s);
    Positive(e, (|s| - 1) as real);
    Positive(1.0, v);
    var guess := 1.0 / v;
    var other := e / guess;
    assert guess * other == e;
    ArithmeticGeometricStrict(guess, other);
    assert guess == other <==> v * v * e == 1.0 by { Balance(v, e); }
  }

  lemma {:induction false} Balance(v: real, e: real)
    requires v > 0.0 && e > 0.0 && 1.0 / v > 0.0
    ensures 1.0 / v == e / (1.0 / v) <==> v * v * e == 1.0
  {
    var guess := 1.0 / v;
    var other := e / guess;
    assert guess * v == 1.0 && other * guess == e;
    assert other == other * (guess * v) == (other * guess) * v == e * v;
    if guess == e * v {
      assert v * v * e == v * guess;
    }
    if v * v * e == 1.0 {
      assert guess == guess * (v * v * e) == (guess * v) * (v * e);
    }
  }

  lemma {:induction false} CubeIsOne(e: real)
    requires e > 0.0
    ensures e * e * e == 1.0 <==> e == 1.0
  {
    var q := e * e + e + 1.0;
    assert (e - 1.0) * q == e * e * e - 1.0;
    PositiveProduct(e, e);
    if e > 1.0 { PositiveProduct(e - 1.0, q); } else if e < 1.0 { PositiveProduct(1.0 - e, q); }
  }

  /** The deviation, multiplied out. */
  lemma {:induction false} DeviationEquation(s: seq<real>)
    requires |s| > 1 && SquaredError(s) > 0.0
    ensures 2.0 * StdDev(s) * Variance(s) == 1.0 + SquaredError(s) * Variance(s) * Variance(s)
  {
    var e, v := SquaredError(s), Variance(s);
    Positive(e, (|s| - 1) as real);
    Positive(1.0, v);
    var guess := 1.0 / v;
    var other := e / guess;
    assert guess * v == 1.0 && other * guess == e;
    assert other == other * (guess * v) == (other * guess) * v == e * v;
    assert 2.0 * StdDev(s) == guess + other;
    assert (guess + other) * v == guess * v + other * v;
  }

  lemma {:induction false} NoErrorIffConstant(s: seq<real>)
    requires s != []
    ensures SquaredError(s) >= 0.0
    ensures SquaredError(s) == 0.0 <==> forall v <- s :: v == s[0]
  {
    NoErrorMeansConstant(s, Mean(s));
    assert s[0] in s;
    if forall v <- s :: v == s[0] { ConstantMean(s); }
  }

  /** With three samples or more that are not all equal, the square of the deviation is above the variance. */
  lemma {:induction false} DeviationTooLarge(s: seq<real>)
    requires |s| > 2 && SquaredError(s) > 0.0
    ensures Square(StdDev(s)) > Variance(s)
  {
    DeviationNeverTooSmall(s);
    var n, v := (|s| - 1) as real, Variance(s);
    Positive(SquaredError(s), n);
    Less(1.0, n, v);
    assert n * v == SquaredError(s);
  }

  lemma {:induction false} DeviationOfTwo(s: seq<real>)
    requires |s| == 2 && SquaredError(s) > 0.0
    ensures Square(StdDev(s)) == Variance(s) <==> SquaredError(s) == 1.0
  {
    assert Variance(s) == SquaredError(s);
    DeviationSquare(s);
    CubeIsOne(SquaredError(s));
  }

  /**
   With three samples or more the square of the deviation is the sample variance only when all
   samples are equal, and above it otherwise; with two, also when their squared errors add up to 1.
   */
  lemma {:induction false} DeviationExactWhen(s: seq<real>)
    requires |s| > 1
    ensures Square(StdDev(s)) >= Variance(s)
    ensures Square(StdDev(s)) == Variance(s) <==> (forall v <- s :: v == s[0]) || (|s| == 2 && SquaredError(s) == 1.0)
  {
    DeviationNeverTooSmall(s);
    NoErrorIffConstant(s);
    if SquaredError(s) > 0.0 {
      if |s| == 2 { DeviationOfTwo(s); } else { DeviationTooLarge(s); }
    }
  }

  lemma {:induction false} TotalOfTwo(s: seq<real>, f: real -> real)
    requires |s| == 2
    ensures Total(s, f) == f(s[0]) + f(s[1])
  {
    assert Total(s[..1], f) == Total(s[..1][..0], f) + f(s[0]);
  }

  /** Whole milliseconds never have squared errors that add up to 1. */
  lemma {:induction false} TwoDurationsNeverExact(times: seq<int>)
    requires |times| == 2
    ensures SquaredError(Samples(times)) != 1.0
  {
    var s := Samples(times);
    var a, b := Milliseconds(times[0]), Milliseconds(times[1]);
    TotalOfTwo(s, Itself());
    TotalOfTwo(s, SquaredDistance(Mean(s)));
    var d := (a - b) as real;
    assert s[0] == a as real && s[1] == b as real && s[0] - s[1] == d;
    assert Mean(s) == (s[0] + s[1]) / 2.0;
    assert s[0] - Mean(s) == d / 2.0 && s[1] - Mean(s) == -d / 2.0;
    assert SquaredError(s) == Square(d / 2.0) + Square(-d / 2.0);
    HalvesSquared(d);
    SquareOfInteger(a - b);
    NoSquareIsTwo(a - b);
  }

  lemma {:induction false} HalvesSquared(d: real)
    ensures Square(d / 2.0) + Square(-d / 2.0) == Square(d) / 2.0
  {
  }

  lemma {:induction false} SquareOfInteger(n: int)
    ensures Square(n as real) == (n * n) as real
  {
  }

  lemma {:induction false} NoSquareIsTwo(n: int)
    ensures n * n != 2
  {
    if n > 1 { assert n * n >= 2 * n; } else if n < -1 { assert -n * -n >= 2 * -n; }
  }

  // ---------------------------------------------------------------- calculateBenchmarkStats

  method SortedCopy(ms: seq<real>) returns (sorted: array<real>)
    ensures fresh(sorted) && sorted.Length == |ms| && IsSort(sorted[..], ms)
  {
    sorted := new real[|ms|];
    forall i | 0 <= i < |ms| { sorted[i] := ms[i]; }
    assert sorted[..] == ms;
    ExchangeSort(sorted);
  }

  method SumOf(ms: seq<real>) returns (sum: real)
    ensures sum == Total(ms, Itself())
  {
    sum := 0.0;
    for i := 0 to |ms|
      invariant sum == Total(ms[..i], Itself())
    {
      assert ms[..i + 1][..i] == ms[..i];
      sum := sum + ms[i];
    }
    assert ms[..|ms|] == ms;
  }

  method DeviationOf(ms: seq<real>, mean: real) returns (stdDev: real)
    requires ms != [] && mean == Mean(ms)
    ensures stdDev == StdDev(ms)
  {
    var variance := 0.0;
    for i := 0 to |ms|
      invariant variance == Total(ms[..i], SquaredDistance(mean))
    {
      assert ms[..i + 1][..i] == ms[..i];
      variance := variance + Square(ms[i] - mean);
    }
    assert ms[..|ms|] == ms;
    stdDev := 0.0;
    if |ms| > 1 {
      stdDev := variance / (|ms| - 1) as real;
      if stdDev > 0.0 {
        Positive(1.0, stdDev);
        stdDev := 1.0 / stdDev;
        stdDev := (stdDev + variance / stdDev) / 2.0;
      }
    }
  }

  /** The two clamps are never taken. */
  method PercentileIndices(n: nat) returns (p95Idx: int, p99Idx: int)
    requires n > 0
    ensures p95Idx == P95Rank(n) && p99Idx == P99Rank(n)
  {
    p95Idx := (n as real * 0.95).Floor;
    p99Idx := (n as real * 0.99).Floor;
    if p95Idx >= n {
      p95Idx := n - 1;
    }
    if p99Idx >= n {
      p99Idx := n - 1;
    }
  }

  method CalculateBenchmarkStats(times: seq<int>) returns (st: Stats)
    ensures times == [] ==> st == NO_STATS
    ensures times != [] ==> exists sorted :: Describes(st, Samples(times), sorted)
  {
    if |times| == 0 {
      return NO_STATS;
    }
    var ms := Samples(times);
    var sorted := SortedCopy(ms);
    ghost var order := sorted[..];
    var n := sorted.Length;

    var sum := SumOf(ms);
    var mean := sum / |ms| as real;
    var median := sorted[n / 2];
    if n % 2 == 0 {
      median := (sorted[n / 2 - 1] + sorted[n / 2]) / 2.0;
    }
    var stdDev := DeviationOf(ms, mean);

    var p95Idx, p99Idx := PercentileIndices(n);
    st := Stats(mean, median, sorted[0], sorted[n - 1], stdDev, sorted[p95Idx], sorted[p99Idx]);
    assert Describes(st, ms, order);
  }
}
