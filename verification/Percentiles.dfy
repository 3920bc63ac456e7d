/** The two percentile implementations, and the latency summary whose own validator must accept it. */
module Percentiles {
  import opened Outcomes
  import Rounding

  predicate Sorted(v: seq<real>) {
    forall i, j | 0 <= i <= j < |v| :: v[i] <= v[j]
  }

  function Rank(v: seq<real>, p: real): real {
    (|v| - 1) as real * p
  }

  function Ceil(x: real): int {
    if x == x.Floor as real then x.Floor else x.Floor + 1
  }

  function Offset(low: real, width: real, fraction: real): real {
    low + width * fraction
  }

  lemma ProductNonNegative(x: real, y: real)
    requires x >= 0.0 && y >= 0.0
    ensures x * y >= 0.0
  {
  }

  lemma ProductMonotone(n: real, x: real, y: real, nx: real, ny: real)
    requires n >= 0.0 && x <= y && nx == n * x && ny == n * y
    ensures nx <= ny
  {
    ProductNonNegative(n, y - x);
    assert n * (y - x) == n * y - n * x;
  }

  lemma ProductCancels(n: real, x: real, y: real)
    requires n > 0.0
    ensures n * x <= n * y ==> x <= y
  {
    if y < x {
      var d := x - y;
      assert n * d > 0.0;
      assert n * x == n * y + n * d;
    }
  }

  lemma RankInRange(v: seq<real>, p: real)
    requires v != [] && 0.0 <= p <= 1.0
    ensures 0.0 <= Rank(v, p) <= (|v| - 1) as real
    ensures 0 <= Rank(v, p).Floor <= Ceil(Rank(v, p)) <= |v| - 1
  {
    ScaledIsWithin((|v| - 1) as real, p, Rank(v, p));
  }

  lemma ScaledIsWithin(n: real, p: real, np: real)
    requires n >= 0.0 && 0.0 <= p <= 1.0 && np == n * p
    ensures 0.0 <= np <= n
  {
    ProductMonotone(n, 0.0, p, 0.0, np);
    ProductMonotone(n, p, 1.0, np, n);
  }

  predicate InRange(v: seq<real>, rank: real) {
    v != [] && 0.0 <= rank <= (|v| - 1) as real
  }

  /** The value at a rank, by the ranks below and above it. */
  function AtRank(v: seq<real>, rank: real): real
    requires InRange(v, rank)
  {
    var lower, upper := rank.Floor, Ceil(rank);
    if lower == upper then v[lower] else Offset(v[lower], v[upper] - v[lower], rank - lower as real)
  }

  /** Percentile by the two ranks around the exact one. */
  function FloorCeilPercentile(v: seq<real>, p: real): real
    requires v != [] && 0.0 <= p <= 1.0
  {
    RankInRange(v, p);
    AtRank(v, Rank(v, p))
  }

  /** Percentile by the rank below and its successor, clamped to the last sample. */
  function LinearPercentile(v: seq<real>, p: real): real
    requires 0.0 <= p <= 1.0
  {
    if v == [] then 0.0
    else
      RankInRange(v, p);
      var rank := Rank(v, p);
      var lower := rank.Floor;
      var upper := if lower + 1 <= |v| - 1 then lower + 1 else |v| - 1;
      Offset(v[lower], v[upper] - v[lower], rank - lower as real)
  }

  /** The two implementations are the same function on every non-empty list. */
  lemma ImplementationsAgree(v: seq<real>, p: real)
    requires v != [] && 0.0 <= p <= 1.0
    ensures FloorCeilPercentile(v, p) == LinearPercentile(v, p)
  {
    RankInRange(v, p);
    var lower := Rank(v, p).Floor;
  }

  lemma OffsetBounds(low: real, width: real, f: real)
    requires width >= 0.0 && 0.0 <= f <= 1.0
    ensures low <= Offset(low, width, f) <= low + width
  {
    ScaledIsWithin(width, f, width * f);
  }

  lemma OffsetMonotone(low: real, width: real, f: real, g: real)
    requires width >= 0.0 && f <= g
    ensures Offset(low, width, f) <= Offset(low, width, g)
  {
    ProductMonotone(width, f, g, width * f, width * g);
  }

  /** A percentile lies between the samples around its rank. */
  lemma ValueBetween(v: seq<real>, rank: real)
    requires Sorted(v) && InRange(v, rank)
    ensures v[rank.Floor] <= AtRank(v, rank) <= v[Ceil(rank)]
  {
    OffsetBounds(v[rank.Floor], v[Ceil(rank)] - v[rank.Floor], rank - rank.Floor as real);
  }

  lemma ValueMonotone(v: seq<real>, r: real, s: real)
    requires Sorted(v) && InRange(v, r) && InRange(v, s) && r <= s
    ensures v[0] <= AtRank(v, r) <= AtRank(v, s) <= v[|v| - 1]
  {
    ValueBetween(v, r);
    ValueBetween(v, s);
    if r.Floor != s.Floor {
      assert Ceil(r) <= s.Floor;
    } else if r != r.Floor as real {
      OffsetMonotone(v[r.Floor], v[r.Floor + 1] - v[r.Floor], r - r.Floor as real, s - r.Floor as real);
    }
  }

  /** Percentiles of sorted samples are monotone in the fraction and stay between the least and the greatest. */
  lemma PercentileMonotone(v: seq<real>, p: real, q: real)
    requires v != [] && Sorted(v) && 0.0 <= p <= q <= 1.0
    ensures v[0] <= FloorCeilPercentile(v, p) <= FloorCeilPercentile(v, q) <= v[|v| - 1]
  {
    RankInRange(v, p);
    RankInRange(v, q);
    ProductMonotone((|v| - 1) as real, p, q, Rank(v, p), Rank(v, q));
    ValueMonotone(v, Rank(v, p), Rank(v, q));
  }

  /** A percentile whose rank is a whole number is that sample; between two ranks it lies on the line between theirs. */
  lemma PercentileValue(v: seq<real>, p: real, k: nat, part: real)
    requires v != [] && 0.0 <= p <= 1.0 && k < |v| && 0.0 <= part < 1.0 && (|v| - 1) as real * p == k as real + part
    ensures part == 0.0 ==> FloorCeilPercentile(v, p) == v[k]
    ensures part > 0.0 ==> k + 1 < |v| && FloorCeilPercentile(v, p) == v[k] + (v[k + 1] - v[k]) * part
  {
    RankInRange(v, p);
    assert Rank(v, p).Floor == k;
  }

  // ---- averages ----

  function Sum(v: seq<real>): real {
    if v == [] then 0.0 else Sum(v[..|v| - 1]) + v[|v| - 1]
  }

  lemma {:induction false} SumBounds(v: seq<real>, low: real, high: real)
    requires forall i | 0 <= i < |v| :: low <= v[i] <= high
    ensures |v| as real * low <= Sum(v) <= |v| as real * high
  {
    if v != [] {
      SumBounds(v[..|v| - 1], low, high);
      var n := |v| - 1;
      assert |v| as real * low == n as real * low + low;
      assert |v| as real * high == n as real * high + high;
    }
  }

  lemma AverageBounds(v: seq<real>, low: real, high: real)
    requires v != [] && forall i | 0 <= i < |v| :: low <= v[i] <= high
    ensures low <= Sum(v) / |v| as real <= high
  {
    SumBounds(v, low, high);
    DivideBounds(Sum(v), |v| as real, low, high);
  }

  lemma DivideBounds(sum: real, n: real, low: real, high: real)
    requires n > 0.0 && n * low <= sum <= n * high
    ensures low <= sum / n <= high
  {
    var q := sum / n;
    assert q * n == sum;
    ProductCancels(n, low, q);
    ProductCancels(n, q, high);
  }

  // ---- the summary and its validator ----

  datatype LatencySummary = LatencySummary(count: nat, average: real, p50: real, p95: real, max: real)

  datatype SummaryError = NegativeField | NonZeroWhenEmpty | PercentilesOutOfOrder | AverageAboveMaximum

  /** The field constraints, then the model validator. */
  function Validate(s: LatencySummary): Result<LatencySummary, SummaryError> {
    if s.average < 0.0 || s.p50 < 0.0 || s.p95 < 0.0 || s.max < 0.0 then Err(NegativeField)
    else if s.count == 0 && (s.average != 0.0 || s.p50 != 0.0 || s.p95 != 0.0 || s.max != 0.0) then Err(NonZeroWhenEmpty)
    else if !(s.p50 <= s.p95 <= s.max) then Err(PercentilesOutOfOrder)
    else if s.average > s.max then Err(AverageAboveMaximum)
    else Ok(s)
  }

  lemma InsertSorted(samples: seq<real>, k: nat, x: real)
    requires Sorted(samples) && k <= |samples|
    requires (forall j | 0 <= j < k :: samples[j] <= x) && (forall j | k <= j < |samples| :: x <= samples[j])
    ensures Sorted(samples[..k] + [x] + samples[k..])
  {
    var longer := samples[..k] + [x] + samples[k..];
    assert forall i | 0 <= i < k :: longer[i] == samples[i];
    assert forall i | k < i < |longer| :: longer[i] == samples[i - 1];
  }

  lemma InsertSample(samples: seq<real>, k: nat, x: real)
    requires Sorted(samples) && k <= |samples|
    requires (forall j | 0 <= j < k :: samples[j] <= x) && (k < |samples| ==> x < samples[k])
    ensures Sorted(samples[..k] + [x] + samples[k..])
    ensures multiset(samples[..k] + [x] + samples[k..]) == multiset(samples) + multiset{x}
  {
    InsertSorted(samples, k, x);
    assert samples == samples[..k] + samples[k..];
  }

  method SortSamples(values: seq<real>) returns (samples: seq<real>)
    ensures Sorted(samples) && multiset(samples) == multiset(values) && forall x | x in samples :: x in values
  {
    samples := [];
    for i := 0 to |values|
      invariant Sorted(samples) && multiset(samples) == multiset(values[..i])
    {
      var k := 0;
      while k < |samples| && samples[k] <= values[i]
        invariant k <= |samples| && forall j | 0 <= j < k :: samples[j] <= values[i]
      {
        k := k + 1;
      }
      InsertSample(samples, k, values[i]);
      samples := samples[..k] + [values[i]] + samples[k..];
      assert values[..i + 1] == values[..i] + [values[i]];
    }
    assert values[..|values|] == values;
    forall x | x in samples
      ensures x in values
    {
      assert x in multiset(samples);
    }
  }

  function Summary(samples: seq<real>, round: real -> real): LatencySummary {
    if samples == [] then LatencySummary(0, 0.0, 0.0, 0.0, 0.0)
    else LatencySummary(|samples|, round(Sum(samples) / |samples| as real),
                        round(FloorCeilPercentile(samples, 0.5)), round(FloorCeilPercentile(samples, 0.95)),
                        round(samples[|samples| - 1]))
  }

  /** The median: the middle sample, or the point halfway between the two in the middle. */
  lemma Median(samples: seq<real>, m: nat)
    requires |samples| == 2 * m + 1 || |samples| == 2 * m + 2
    ensures FloorCeilPercentile(samples, 0.5) ==
            if |samples| == 2 * m + 1 then samples[m] else samples[m] + (samples[m + 1] - samples[m]) * 0.5
  {
    PercentileValue(samples, 0.5, m, if |samples| == 2 * m + 1 then 0.0 else 0.5);
  }

  ghost predicate IsMean(samples: seq<real>, mean: real) {
    mean * |samples| as real == Sum(samples)
  }

  lemma MeanOf(samples: seq<real>)
    requires samples != []
    ensures IsMean(samples, Sum(samples) / |samples| as real)
  {
    var q := Sum(samples) / |samples| as real;
  }

  /** What a summary of some samples says: how many they are, their mean, their median and the last one. */
  lemma SummarySays(samples: seq<real>, round: real -> real, mean: real, median: real)
    requires samples != [] && IsMean(samples, mean) && median == FloorCeilPercentile(samples, 0.5)
    ensures var s := Summary(samples, round);
            (s.count, s.average, s.p50, s.max) == (|samples|, round(mean), round(median), round(samples[|samples| - 1]))
  {
    MeanOf(samples);
    SameMean(Sum(samples), |samples| as real, mean, Sum(samples) / |samples| as real);
  }

  lemma SameMean(sum: real, n: real, x: real, y: real)
    requires n > 0.0 && x * n == sum && y * n == sum
    ensures x == y
  {
    assert (x - y) * n == 0.0;
  }

  /** Without samples everything is nought, and so is the percentile that is defined there. */
  lemma NothingSummarized(round: real -> real, p: real)
    requires 0.0 <= p <= 1.0
    ensures Summary([], round) == LatencySummary(0, 0.0, 0.0, 0.0, 0.0) && LinearPercentile([], p) == 0.0
  {
  }

  /** What the validator refuses, and in which order. */
  lemma ValidatesExactly(s: LatencySummary)
    ensures Validate(s) ==
            if exists x :: x in [s.average, s.p50, s.p95, s.max] && x < 0.0 then Err(NegativeField)
            else if s.count == 0 && exists x :: x in [s.average, s.p50, s.p95, s.max] && x != 0.0 then Err(NonZeroWhenEmpty)
            else if s.p50 > s.p95 || s.p95 > s.max then Err(PercentilesOutOfOrder)
            else if s.average > s.max then Err(AverageAboveMaximum)
            else Ok(s)
  {
    var fields := [s.average, s.p50, s.p95, s.max];
    assert s.average in fields && s.p50 in fields && s.p95 in fields && s.max in fields;
  }

  /** At twenty intervals between samples the 95th percentile is the second to last one, and so on in proportion. */
  lemma SummarySaysLate(samples: seq<real>, round: real -> real, m: nat)
    requires |samples| == 20 * m + 1
    ensures Summary(samples, round).p95 == round(samples[19 * m])
  {
    PercentileValue(samples, 0.95, 19 * m, 0.0);
  }

  /** For any monotone rounding, a summary's percentiles are ordered and its average is at most its maximum, and it
      is rejected only for a negative average or median: never by the model validator. */
  lemma SummaryValid(samples: seq<real>, round: real -> real)
    requires Sorted(samples) && Rounding.Monotone(round)
    ensures var s := Summary(samples, round);
            && s.p50 <= s.p95 <= s.max && s.average <= s.max
            && Validate(s) == if s.count > 0 && (s.average < 0.0 || s.p50 < 0.0) then Err(NegativeField) else Ok(s)
  {
    if samples != [] {
      PercentileMonotone(samples, 0.5, 0.95);
      PercentileMonotone(samples, 0.95, 1.0);
      AverageBounds(samples, samples[0], samples[|samples| - 1]);
    }
  }

  /** So a summary of durations is always accepted. */
  lemma DurationsAccepted(samples: seq<real>, round: real -> real)
    requires Sorted(samples) && Rounding.Monotone(round) && round(0.0) == 0.0
    requires forall x | x in samples :: x >= 0.0
    ensures Validate(Summary(samples, round)) == Ok(Summary(samples, round))
  {
    SummaryValid(samples, round);
    if samples != [] {
      assert samples[0] in samples;
      PercentileMonotone(samples, 0.5, 0.5);
      AverageBounds(samples, samples[0], samples[|samples| - 1]);
    }
  }

  /** The rounding in use is one of these. */
  lemma ThreeDecimals()
    ensures Rounding.Monotone(Rounding.Round3) && Rounding.Round3(0.0) == 0.0
  {
    Rounding.RoundingMonotone();
    Rounding.RoundingKeepsBounds(0.0, 0, 0);
  }

  /** A validated summary of the samples in ascending order. */
  ghost predicate Summarized(values: seq<real>, round: real -> real, r: Result<LatencySummary, SummaryError>) {
    exists samples :: Sorted(samples) && multiset(samples) == multiset(values) && r == Validate(Summary(samples, round))
  }

  /** The summary of samples in any order. */
  method Summarize(values: seq<real>, round: real -> real) returns (r: Result<LatencySummary, SummaryError>)
    requires Rounding.Monotone(round) && round(0.0) == 0.0
    ensures Summarized(values, round, r)
    ensures (forall x | x in values :: x >= 0.0) ==> r.Ok?
  {
    var samples := SortSamples(values);
    r := Validate(Summary(samples, round));
    if forall x | x in values :: x >= 0.0 {
      DurationsAccepted(samples, round);
    }
  }

  /** `_latency_summary`, at the three decimals it rounds to. */
  method LatencySummaryOf(values: seq<real>) returns (r: Result<LatencySummary, SummaryError>)
    ensures Summarized(values, Rounding.Round3, r)
    ensures (forall x | x in values :: x >= 0.0) ==> r.Ok?
  {
    ThreeDecimals();
    r := Summarize(values, Rounding.Round3);
  }
}
