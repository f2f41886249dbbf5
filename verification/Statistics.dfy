/**
  The reported numbers of the v2 evaluator (qualification_campaign_v2.py): ratios rounded
  up, rates rounded down, and percentiles of sorted walls.  Amounts are exact reals.
*/
module Statistics {
  import opened Wrappers

  // ----- Rounding -----

  function Ceiling(x: real): int {
    -((-x).Floor)
  }

  function RatioPpm(numerator: Option<real>, denominator: Option<real>): Option<int> {
    if numerator.None? || denominator.None? || denominator.value <= 0.0 then None
    else Some(Ceiling(numerator.value * 1_000_000.0 / denominator.value))
  }

  /** Python's floor division; the denominator is a row count. */
  function SignedRatePpm(numerator: int, denominator: int): int
    requires denominator > 0
  {
    numerator * 1_000_000 / denominator
  }

  function Microseconds(value: Option<real>): Option<int> {
    if value.None? then None else Some(Ceiling(value.value * 1_000_000.0))
  }

  function MeanMicroseconds(total: real, count: int): int
    requires count > 0
  {
    Ceiling(total * 1_000_000.0 / count as real)
  }

  predicate RatioAtMost(proxy: real, direct: real, thresholdPpm: int) {
    proxy * 1_000_000.0 <= direct * thresholdPpm as real
  }

  predicate DeltaAtLeast(delta: int, count: int, thresholdPpm: int) {
    delta * 1_000_000 >= thresholdPpm * count
  }

  /** Rounding up gives the least integer that is no smaller. */
  lemma CeilingIsLeast(x: real, n: int)
    ensures Ceiling(x) <= n <==> x <= n as real
  {
  }

  /** A time, and a mean of times, is reported in the fewest whole microseconds that cover it. */
  lemma ReportedTimesCover(total: real, count: int, limit: int)
    requires count > 0
    ensures Microseconds(Some(total)).Some?
    ensures Microseconds(Some(total)).value <= limit <==> total * 1_000_000.0 <= limit as real
    ensures MeanMicroseconds(total, count) <= limit <==> total * 1_000_000.0 <= count as real * limit as real
  {
    QuotientAtMost(total * 1_000_000.0, count as real, limit as real);
    CeilingIsLeast(total * 1_000_000.0 / count as real, limit);
    CeilingIsLeast(total * 1_000_000.0, limit);
  }

  lemma QuotientAtMost(x: real, d: real, t: real)
    requires d > 0.0
    ensures x / d <= t <==> x <= d * t
  {
    var q := x / d;
    assert q * d == x;
    if q <= t {
      assert (t - q) * d >= 0.0;
    } else {
      assert (q - t) * d > 0.0;
    }
  }

  /** The reported ratio, rounded up, is within a threshold exactly when the exact gate passes. */
  lemma ReportedRatioMatchesGate(proxy: real, direct: real, thresholdPpm: int)
    requires direct > 0.0
    ensures RatioPpm(Some(proxy), Some(direct)).Some?
    ensures RatioPpm(Some(proxy), Some(direct)).value <= thresholdPpm <==> RatioAtMost(proxy, direct, thresholdPpm)
  {
    QuotientAtMost(proxy * 1_000_000.0, direct, thresholdPpm as real);
  }

  /** The reported rate, rounded down, reaches a threshold exactly when the exact gate passes. */
  lemma ReportedRateMatchesGate(delta: int, count: int, thresholdPpm: int)
    requires count > 0
    ensures SignedRatePpm(delta, count) >= thresholdPpm <==> DeltaAtLeast(delta, count, thresholdPpm)
  {
    var q := SignedRatePpm(delta, count);
    assert q * count <= delta * 1_000_000 < (q + 1) * count;
    if q >= thresholdPpm {
      ScaledOrder(thresholdPpm, q, count);
    } else {
      ScaledOrder(q + 1, thresholdPpm, count);
    }
  }

  lemma ScaledOrder(a: int, b: int, c: int)
    requires a <= b && 0 <= c
    ensures a * c <= b * c
  {
  }

  // ----- Sorting and percentiles -----

  function Insert(x: real, sorted: seq<real>): seq<real> {
    if sorted == [] || x <= sorted[0] then [x] + sorted else [sorted[0]] + Insert(x, sorted[1..])
  }

  function Sorted(values: seq<real>): (r: seq<real>)
    ensures |r| == |values|
  {
    if values == [] then [] else
      InsertLength(values[0], Sorted(values[1..]));
      Insert(values[0], Sorted(values[1..]))
  }

  lemma {:induction false} InsertLength(x: real, sorted: seq<real>)
    ensures |Insert(x, sorted)| == |sorted| + 1
  {
    if sorted == [] || x <= sorted[0] {
    } else {
      InsertLength(x, sorted[1..]);
    }
  }

  ghost predicate InOrder(values: seq<real>) {
    forall i, j :: 0 <= i <= j < |values| ==> values[i] <= values[j]
  }

  lemma {:induction false} InsertKeepsOrder(x: real, sorted: seq<real>, low: real)
    requires InOrder(sorted) && low <= x && (sorted != [] ==> low <= sorted[0])
    ensures InOrder(Insert(x, sorted)) && low <= Insert(x, sorted)[0]
  {
    if sorted != [] && x > sorted[0] {
      assert sorted[1..] != [] ==> sorted[0] <= sorted[1..][0];
      InsertKeepsOrder(x, sorted[1..], sorted[0]);
      OrderedCons(sorted[0], Insert(x, sorted[1..]));
    } else {
      OrderedCons(x, sorted);
    }
  }

  lemma OrderedCons(x: real, rest: seq<real>)
    requires InOrder(rest) && (rest != [] ==> x <= rest[0])
    ensures InOrder([x] + rest)
  {
    forall i, j | 0 <= i <= j < |[x] + rest| ensures ([x] + rest)[i] <= ([x] + rest)[j] {
      if i == 0 && j > 0 {
        assert rest[0] <= rest[j - 1];
      }
    }
  }

  lemma {:induction false} SortedIsInOrder(values: seq<real>)
    ensures InOrder(Sorted(values))
  {
    if values == [] {
    } else {
      SortedIsInOrder(values[1..]);
      var rest := Sorted(values[1..]);
      InsertKeepsOrder(values[0], rest, if rest != [] && rest[0] < values[0] then rest[0] else values[0]);
    }
  }

  /** How many of the values are below the mark, or at most the mark. */
  function CountUpTo(values: seq<real>, mark: real, inclusive: bool): nat {
    if values == [] then 0
    else
      var counts := values[0] < mark || (inclusive && values[0] == mark);
      (if counts then 1 else 0) + CountUpTo(values[1..], mark, inclusive)
  }

  lemma {:induction false} CountOneMore(values: seq<real>, x: real, mark: real, inclusive: bool)
    ensures CountUpTo(values + [x], mark, inclusive) ==
      CountUpTo(values, mark, inclusive) + if x < mark || (inclusive && x == mark) then 1 else 0
  {
    if values == [] {
      assert [x][1..] == [] && [] + [x] == [x];
    } else {
      CountOneMore(values[1..], x, mark, inclusive);
      assert (values + [x])[1..] == values[1..] + [x];
    }
  }

  lemma {:induction false} CountInserted(x: real, sorted: seq<real>, mark: real, inclusive: bool)
    ensures CountUpTo(Insert(x, sorted), mark, inclusive) ==
      CountUpTo([x], mark, inclusive) + CountUpTo(sorted, mark, inclusive)
  {
    if sorted == [] || x <= sorted[0] {
      assert ([x] + sorted)[1..] == sorted && [x][1..] == [];
    } else {
      CountInserted(x, sorted[1..], mark, inclusive);
      assert ([sorted[0]] + Insert(x, sorted[1..]))[1..] == Insert(x, sorted[1..]);
    }
  }

  lemma {:induction false} CountSorted(values: seq<real>, mark: real, inclusive: bool)
    ensures CountUpTo(Sorted(values), mark, inclusive) == CountUpTo(values, mark, inclusive)
  {
    if values == [] {
    } else {
      CountSorted(values[1..], mark, inclusive);
      CountInserted(values[0], Sorted(values[1..]), mark, inclusive);
      assert [values[0]][1..] == [];
    }
  }

  lemma {:induction false} CountInOrder(sorted: seq<real>, k: nat, mark: real)
    requires InOrder(sorted) && k < |sorted| && mark == sorted[k]
    ensures CountUpTo(sorted, mark, false) <= k < CountUpTo(sorted, mark, true)
  {
    if k > 0 {
      assert sorted[0] <= sorted[k];
      CountInOrder(sorted[1..], k - 1, mark);
    } else {
      NoneBelow(sorted, mark);
    }
  }

  lemma {:induction false} NoneBelow(values: seq<real>, mark: real)
    requires forall i :: 0 <= i < |values| ==> mark <= values[i]
    ensures CountUpTo(values, mark, false) == 0
  {
    if values == [] {
    } else {
      NoneBelow(values[1..], mark);
    }
  }

  function PercentileIndex(count: nat, ppm: nat): nat
    requires count > 0
  {
    (count - 1) * ppm / 1_000_000
  }

  lemma IndexInRange(count: nat, ppm: nat)
    requires count > 0 && ppm <= 1_000_000
    ensures PercentileIndex(count, ppm) < count
  {
    ScaledOrder(ppm, 1_000_000, count - 1);
  }

  function Percentile(values: seq<real>, ppm: nat): real
    requires values != [] && ppm <= 1_000_000
  {
    IndexInRange(|values|, ppm);
    Sorted(values)[PercentileIndex(|values|, ppm)]
  }

  function P95(values: seq<real>): Option<real> {
    if values == [] then None else Some(Sorted(values)[(|values| - 1) * 95 / 100])
  }

  /** A percentile is the order statistic of its index, whatever the order of the values. */
  lemma PercentileIsOrderStatistic(values: seq<real>, ppm: nat)
    requires values != [] && ppm <= 1_000_000
    ensures var k := PercentileIndex(|values|, ppm);
      CountUpTo(values, Percentile(values, ppm), false) <= k < CountUpTo(values, Percentile(values, ppm), true)
  {
    SortedIsInOrder(values);
    IndexInRange(|values|, ppm);
    CountInOrder(Sorted(values), PercentileIndex(|values|, ppm), Percentile(values, ppm));
    CountSorted(values, Percentile(values, ppm), false);
    CountSorted(values, Percentile(values, ppm), true);
  }

  lemma PercentilesInOrder(values: seq<real>, low: nat, high: nat)
    requires values != [] && low <= high <= 1_000_000
    ensures Percentile(values, low) <= Percentile(values, high)
  {
    SortedIsInOrder(values);
    IndexInRange(|values|, high);
    ScaledOrder(low, high, |values| - 1);
    DivisionMonotone((|values| - 1) * low, (|values| - 1) * high);
  }

  /** The reported percentiles, in whole microseconds, never cross, nor exceed the largest deadline. */
  lemma ReportedPercentilesInOrder(values: seq<real>, bound: real)
    requires values != [] && forall i :: 0 <= i < |values| ==> values[i] <= bound
    ensures Ceiling(Percentile(values, 500_000) * 1_000_000.0) <= Ceiling(Percentile(values, 950_000) * 1_000_000.0)
      <= Ceiling(Percentile(values, 990_000) * 1_000_000.0) <= Ceiling(bound * 1_000_000.0)
  {
    PercentilesInOrder(values, 500_000, 950_000);
    PercentilesInOrder(values, 950_000, 990_000);
    PercentileIsAValue(values, 990_000);
  }

  lemma DivisionMonotone(a: nat, b: nat)
    requires a <= b
    ensures a / 1_000_000 <= b / 1_000_000
  {
  }

  lemma {:induction false} InsertAdds(x: real, sorted: seq<real>)
    ensures multiset(Insert(x, sorted)) == multiset(sorted) + multiset{x}
  {
    if sorted == [] || x <= sorted[0] {
    } else {
      InsertAdds(x, sorted[1..]);
      assert sorted == [sorted[0]] + sorted[1..];
    }
  }

  lemma {:induction false} SortedIsPermutation(values: seq<real>)
    ensures multiset(Sorted(values)) == multiset(values)
  {
    if values == [] {
    } else {
      SortedIsPermutation(values[1..]);
      InsertAdds(values[0], Sorted(values[1..]));
      assert values == [values[0]] + values[1..];
    }
  }

  /** A percentile is one of the values. */
  lemma PercentileIsAValue(values: seq<real>, ppm: nat)
    requires values != [] && ppm <= 1_000_000
    ensures Percentile(values, ppm) in values
  {
    IndexInRange(|values|, ppm);
    SortedIsPermutation(values);
    assert Percentile(values, ppm) in multiset(Sorted(values));
  }

  lemma SameQuotient(a: nat)
    ensures a * 10_000 / 1_000_000 == a / 100
  {
    var q, r := a / 100, a % 100;
    assert a * 10_000 == 1_000_000 * q + 10_000 * r;
  }

  /** The two ways the code indexes a 95th percentile agree at every length. */
  lemma P95IsPercentile(values: seq<real>)
    ensures P95(values) == if values == [] then None else Some(Percentile(values, 950_000))
  {
    if values != [] {
      SameQuotient((|values| - 1) * 95);
    }
  }
}
