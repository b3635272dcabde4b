/**
 Time-series points from the ring: samples grouped by bucket key, one counter delta per bucket. Keys
 are five minutes, hours, days, weeks or calendar months since 1970, and a windowed chart shows a
 fixed number of them up to the current one, empty ones included.
 */
module BucketedStats {
  import opened Common
  import opened MetricsRing

  datatype BucketKind = FiveMin | HourKind | Day | Week | Month

  function TotalRequests(s: Snapshot): nat {
    s.l0 + s.l1 + s.l2 + s.misses
  }

  function CacheHits(s: Snapshot): nat {
    s.l0 + s.l1 + s.l2
  }

  function TotalTokens(s: Snapshot): nat {
    s.hitTokens + s.missTokens + s.outputTokens
  }

  // ---------------------------------------------------------------------------
  // Bucket keys
  // ---------------------------------------------------------------------------

  predicate LeapYear(y: nat) {
    y % 4 == 0 && (y % 100 != 0 || y % 400 == 0)
  }

  /** Days of the month with key `year * 12 + month`. */
  function MonthDays(key: nat): (d: nat)
    requires key > 0
    ensures 28 <= d <= 31
  {
    var y, m := (key - 1) / 12, (key - 1) % 12 + 1;
    if m == 2 then (if LeapYear(y) then 29 else 28)
    else if m in {4, 6, 9, 11} then 30
    else 31
  }

  /** The month of the day that is `days` days after the first of month `key`. */
  function MonthKey(days: nat, key: nat): nat
    requires key > 0
    decreases days
  {
    if days < MonthDays(key) then key else MonthKey(days - MonthDays(key), key + 1)
  }

  const JANUARY_1970: nat := 1970 * 12 + 1

  function BucketKey(kind: BucketKind, at: nat): nat {
    match kind
    case FiveMin => at / 300
    case HourKind => at / 3600
    case Day => at / 86400
    case Week => at / 604_800
    case Month => MonthKey(at / 86400, JANUARY_1970)
  }

  function MaxBuckets(kind: BucketKind): nat {
    match kind
    case FiveMin => 12
    case HourKind => 24
    case Day => 7
    case Week => 4
    case Month => 12
  }

  /** The bucket keys of a windowed chart, oldest first. */
  function PaddedKeys(kind: BucketKind, now: nat): (keys: seq<int>)
    ensures |keys| == MaxBuckets(kind) && keys[|keys| - 1] == BucketKey(kind, now)
    ensures forall i :: 0 <= i < |keys| - 1 ==> keys[i + 1] == keys[i] + 1
  {
    seq(MaxBuckets(kind), i => BucketKey(kind, now) - (MaxBuckets(kind) - 1 - i))
  }

  lemma {:induction false} MonthKeyMonotone(d: nat, e: nat, key: nat)
    requires key > 0 && d <= e
    ensures key <= MonthKey(d, key) <= MonthKey(e, key)
    decreases e
  {
    if d >= MonthDays(key) {
      MonthKeyMonotone(d - MonthDays(key), e - MonthDays(key), key + 1);
    } else if e >= MonthDays(key) {
      MonthKeyMonotone(0, e - MonthDays(key), key + 1);
    }
  }

  /** Days from the start of 1970 to the first of month `key`. */
  function DaysBefore(key: nat): nat {
    if key <= JANUARY_1970 then 0 else DaysBefore(key - 1) + MonthDays(key - 1)
  }

  /** When bucket `key` begins, in seconds. */
  function BucketStart(kind: BucketKind, key: nat): nat {
    match kind
    case FiveMin => key * 5 * 60
    case HourKind => key * 60 * 60
    case Day => key * 24 * 60 * 60
    case Week => key * 7 * 24 * 60 * 60
    case Month => DaysBefore(key) * 24 * 60 * 60
  }

  lemma {:induction false} MonthSpan(days: nat, key: nat)
    requires key >= JANUARY_1970
    ensures DaysBefore(MonthKey(days, key)) <= DaysBefore(key) + days < DaysBefore(MonthKey(days, key) + 1)
    ensures MonthKey(days, key) >= key
    decreases days
  {
    NextMonth(key);
    var length := MonthDays(key);
    if days >= length {
      MonthSpan(days - length, key + 1);
    }
  }

  lemma NextMonth(key: nat)
    requires key >= JANUARY_1970
    ensures DaysBefore(key + 1) == DaysBefore(key) + MonthDays(key)
  {
  }

  lemma {:induction false} DaysGrow(a: nat, b: nat)
    requires a <= b
    ensures DaysBefore(a) <= DaysBefore(b)
    decreases b - a
  {
    if a < b { DaysGrow(a, b - 1); }
  }

  /** A sample's key is that of the one bucket it lies in. */
  lemma KeySpanExactly(kind: BucketKind, at: nat, key: nat)
    requires kind == Month ==> key >= JANUARY_1970
    ensures BucketKey(kind, at) == key <==> BucketStart(kind, key) <= at < BucketStart(kind, key + 1)
  {
    match kind
    case FiveMin => InSpan(at, 300, key);
    case HourKind => InSpan(at, 3600, key);
    case Day => InSpan(at, 86400, key);
    case Week => InSpan(at, 604_800, key);
    case Month =>
      MonthSpanExactly(at / 86400, JANUARY_1970, key);
      FromDay(at, DaysBefore(key));
      FromDay(at, DaysBefore(key + 1));
  }

  lemma InSpan(at: nat, width: nat, key: nat)
    requires width > 0
    ensures at / width == key <==> key * width <= at < (key + 1) * width
  {
    var q := at / width;
    assert q * width <= at < q * width + width;
    if q < key { assert (q + 1) * width <= key * width; }
    if key < q { assert (key + 1) * width <= q * width; }
  }

  lemma FromDay(at: nat, day: nat)
    ensures at / 86400 >= day <==> day * 24 * 60 * 60 <= at
  {
  }

  lemma MonthSpanExactly(days: nat, start: nat, key: nat)
    requires JANUARY_1970 <= start <= key
    ensures MonthKey(days, start) == key <==> DaysBefore(key) <= DaysBefore(start) + days < DaysBefore(key + 1)
  {
    var k := MonthKey(days, start);
    MonthSpan(days, start);
    if k < key { DaysGrow(k + 1, key); }
    if key < k { DaysGrow(key + 1, k); }
  }

  lemma KeyMonotone(kind: BucketKind, a: nat, b: nat)
    requires a <= b
    ensures BucketKey(kind, a) <= BucketKey(kind, b)
  {
    if kind == Month {
      MonthKeyMonotone(a / 86400, b / 86400, JANUARY_1970);
    }
  }

  // ---------------------------------------------------------------------------
  // Grouping
  // ---------------------------------------------------------------------------

  /** The samples with bucket key `key`, in ring order. */
  function GroupOf(s: seq<Snapshot>, kind: BucketKind, key: int): seq<Snapshot> {
    if s == [] then []
    else
      var front := GroupOf(s[..|s| - 1], kind, key);
      if BucketKey(kind, s[|s| - 1].at) == key then front + [s[|s| - 1]] else front
  }

  type Buckets = map<int, seq<Snapshot>>

  /** Every non-empty group, filed under its key. */
  ghost predicate Grouped(s: seq<Snapshot>, kind: BucketKind, b: Buckets) {
    forall key :: if key in b then b[key] == GroupOf(s, kind, key) else GroupOf(s, kind, key) == []
  }

  method GroupSamples(samples: seq<Snapshot>, kind: BucketKind, cutoff: nat) returns (b: Buckets)
    ensures Grouped(Retained(samples, cutoff), kind, b)
  {
    b := map[];
    for n := 0 to |samples|
      invariant Grouped(Retained(samples[..n], cutoff), kind, b)
    {
      var s := samples[n];
      assert samples[..n + 1][..n] == samples[..n];
      ghost var kept := Retained(samples[..n], cutoff);
      if s.at < cutoff {
        continue;
      }
      var key := BucketKey(kind, s.at);
      b := b[key := (if key in b then b[key] else []) + [s]];
    }
    assert samples[..|samples|] == samples;
  }

  datatype Point = Point(key: int, requests: nat, tokens: nat, cacheHits: nat,
                         hitRate: real, l0Rate: real, l1Rate: real, l2Rate: real)

  function Percent(hits: nat, total: nat): real {
    if total > 0 then hits as real / total as real * 100.0 else 0.0
  }

  /** A group of fewer than two samples shows nothing. */
  function PointOf(key: int, group: seq<Snapshot>): Point {
    if |group| < 2 then Point(key, 0, 0, 0, 0.0, 0.0, 0.0, 0.0)
    else
      var first, last := group[0], group[|group| - 1];
      var requests := SatSub(TotalRequests(last), TotalRequests(first));
      var hits := SatSub(CacheHits(last), CacheHits(first));
      var d0, d1, d2 := SatSub(last.l0, first.l0), SatSub(last.l1, first.l1), SatSub(last.l2, first.l2);
      var total := d0 + d1 + d2 + SatSub(last.misses, first.misses);
      Point(key, requests, SatSub(TotalTokens(last), TotalTokens(first)), hits,
            if requests > 0 then hits as real / requests as real else 0.0,
            Percent(d0, total), Percent(d1, total), Percent(d2, total))
  }

  method BuildWindowedStats(samples: seq<Snapshot>, kind: BucketKind, now: nat, window: nat)
    returns (points: seq<Point>)
    ensures Charted(samples, kind, now, window, points)
  {
    var cutoff := SatSub(now, window);
    var b := GroupSamples(samples, kind, cutoff);
    var keys := PaddedKeys(kind, now);
    points := [];
    for n := 0 to |keys|
      invariant |points| == n
      invariant forall i :: 0 <= i < n ==> points[i] == PointOf(keys[i], GroupOf(Retained(samples, cutoff), kind, keys[i]))
    {
      points := points + [PointOf(keys[n], if keys[n] in b then b[keys[n]] else [])];
    }
  }

  // ---------------------------------------------------------------------------
  // Never over-counting
  // ---------------------------------------------------------------------------

  /** How many samples have a key of at most `key`: a prefix, because keys follow time. */
  function UpTo(s: seq<Snapshot>, kind: BucketKind, key: int): (n: nat)
    ensures n <= |s|
  {
    if s == [] then 0
    else if BucketKey(kind, s[|s| - 1].at) <= key then |s|
    else UpTo(s[..|s| - 1], kind, key)
  }

  lemma {:induction false} UpToPrefix(s: seq<Snapshot>, kind: BucketKind, key: int)
    requires Increasing(s)
    ensures forall i :: 0 <= i < |s| ==> (i < UpTo(s, kind, key) <==> BucketKey(kind, s[i].at) <= key)
  {
    if s != [] {
      var n := |s| - 1;
      if BucketKey(kind, s[n].at) <= key {
        forall i | 0 <= i < |s| ensures BucketKey(kind, s[i].at) <= key {
          KeyMonotone(kind, s[i].at, s[n].at);
        }
      } else {
        UpToPrefix(s[..n], kind, key);
        assert forall i :: 0 <= i < n ==> s[..n][i] == s[i];
      }
    }
  }

  /** Each bucket is a contiguous run of the ring. */
  lemma {:induction false} GroupIsRun(s: seq<Snapshot>, kind: BucketKind, key: int)
    requires Increasing(s)
    ensures UpTo(s, kind, key - 1) <= UpTo(s, kind, key)
    ensures GroupOf(s, kind, key) == s[UpTo(s, kind, key - 1)..UpTo(s, kind, key)]
  {
    if s != [] {
      GroupIsRun(s[..|s| - 1], kind, key);
      if BucketKey(kind, s[|s| - 1].at) <= key {
        RunGrows(s, kind, key);
      } else {
        UpToBefore(s, kind, key - 1);
        UpToBefore(s, kind, key);
      }
    }
  }

  lemma RunGrows(s: seq<Snapshot>, kind: BucketKind, key: int)
    requires Increasing(s) && s != [] && BucketKey(kind, s[|s| - 1].at) <= key
    requires var front := s[..|s| - 1];
             && UpTo(front, kind, key - 1) <= UpTo(front, kind, key)
             && GroupOf(front, kind, key) == front[UpTo(front, kind, key - 1)..UpTo(front, kind, key)]
    ensures UpTo(s, kind, key - 1) <= UpTo(s, kind, key)
    ensures GroupOf(s, kind, key) == s[UpTo(s, kind, key - 1)..UpTo(s, kind, key)]
  {
    AllUpTo(s, kind, key);
    if BucketKey(kind, s[|s| - 1].at) < key {
      AllUpTo(s, kind, key - 1);
    } else {
      UpToBefore(s, kind, key - 1);
    }
  }

  lemma UpToBefore(s: seq<Snapshot>, kind: BucketKind, key: int)
    requires s != []
    ensures BucketKey(kind, s[|s| - 1].at) > key ==> UpTo(s, kind, key) == UpTo(s[..|s| - 1], kind, key)
  {
  }

  lemma AllUpTo(s: seq<Snapshot>, kind: BucketKind, key: int)
    requires Increasing(s) && s != [] && BucketKey(kind, s[|s| - 1].at) <= key
    ensures UpTo(s, kind, key) == |s| && UpTo(s[..|s| - 1], kind, key) == |s| - 1
  {
    var n := |s| - 1;
    if n > 0 {
      KeyMonotone(kind, s[n - 1].at, s[n].at);
    }
  }

  ghost predicate Monotone(s: seq<Snapshot>, f: Snapshot -> nat) {
    forall i, j :: 0 <= i <= j < |s| ==> f(s[i]) <= f(s[j])
  }

  function Delta(group: seq<Snapshot>, f: Snapshot -> nat): nat {
    if |group| < 2 then 0 else SatSub(f(group[|group| - 1]), f(group[0]))
  }

  function DeltaSum(s: seq<Snapshot>, kind: BucketKind, keys: seq<int>, f: Snapshot -> nat): nat {
    if keys == [] then 0
    else DeltaSum(s, kind, keys[..|keys| - 1], f) + Delta(GroupOf(s, kind, keys[|keys| - 1]), f)
  }

  ghost predicate Ascending(keys: seq<int>) {
    forall i, j :: 0 <= i < j < |keys| ==> keys[i] < keys[j]
  }

  /** The growth of `f` over the first `n` samples. */
  function Growth(s: seq<Snapshot>, n: nat, f: Snapshot -> nat): int
    requires n <= |s|
  {
    if n == 0 then 0 else f(s[n - 1]) - f(s[0])
  }

  lemma {:induction false} DeltasTelescope(s: seq<Snapshot>, kind: BucketKind, keys: seq<int>, f: Snapshot -> nat)
    requires Increasing(s) && Monotone(s, f) && Ascending(keys) && keys != []
    ensures DeltaSum(s, kind, keys, f) <= Growth(s, UpTo(s, kind, keys[|keys| - 1]), f)
    decreases |keys|
  {
    var n := |keys| - 1;
    var key, front := keys[n], keys[..n];
    var lo, hi := UpTo(s, kind, key - 1), UpTo(s, kind, key);
    GroupIsRun(s, kind, key);
    if n > 0 {
      DeltasTelescope(s, kind, front, f);
      var prev := UpTo(s, kind, keys[n - 1]);
      UpToPrefix(s, kind, keys[n - 1]);
      UpToPrefix(s, kind, key - 1);
      assert prev <= lo by {
        if prev > 0 { assert BucketKey(kind, s[prev - 1].at) <= key - 1; }
      }
    }
  }

  /**
   For counters that never decrease, the deltas of all buckets of a chart add up to at most the
   growth over the window's samples: nothing is counted twice.
   */
  lemma BucketsNeverOverCount(s: seq<Snapshot>, kind: BucketKind, keys: seq<int>, f: Snapshot -> nat)
    requires Increasing(s) && Monotone(s, f) && Ascending(keys)
    ensures DeltaSum(s, kind, keys, f) <= Growth(s, |s|, f)
  {
    if keys != [] {
      DeltasTelescope(s, kind, keys, f);
    }
  }

  function SumOf(points: seq<Point>, f: Point -> nat): nat {
    if points == [] then 0 else SumOf(points[..|points| - 1], f) + f(points[|points| - 1])
  }

  lemma {:induction false} SumsAreDeltas(s: seq<Snapshot>, kind: BucketKind, keys: seq<int>, points: seq<Point>,
                                         f: Point -> nat, g: Snapshot -> nat)
    requires |points| == |keys|
    requires forall i :: 0 <= i < |points| ==> f(points[i]) == Delta(GroupOf(s, kind, keys[i]), g)
    ensures SumOf(points, f) == DeltaSum(s, kind, keys, g)
  {
    if points != [] {
      SumsAreDeltas(s, kind, keys[..|keys| - 1], points[..|points| - 1], f, g);
    }
  }

  /** What a chart of `samples` consists of. */
  ghost predicate Charted(samples: seq<Snapshot>, kind: BucketKind, now: nat, window: nat, points: seq<Point>) {
    && |points| == MaxBuckets(kind)
    && forall i :: 0 <= i < |points| ==>
         points[i] == PointOf(PaddedKeys(kind, now)[i],
                              GroupOf(Retained(samples, SatSub(now, window)), kind, PaddedKeys(kind, now)[i]))
  }

  /** Any quantity that is a bucket's delta sums up to at most last minus first over the samples in the window. */
  lemma SumWithinGrowth(samples: seq<Snapshot>, kind: BucketKind, now: nat, window: nat, points: seq<Point>,
                        f: Point -> nat, g: Snapshot -> nat)
    requires Increasing(samples) && Monotone(samples, g) && Charted(samples, kind, now, window, points)
    requires forall key, group :: f(PointOf(key, group)) == Delta(group, g)
    ensures var s := Retained(samples, SatSub(now, window));
            SumOf(points, f) <= if s == [] then 0 else g(s[|s| - 1]) - g(s[0])
  {
    var s := Retained(samples, SatSub(now, window));
    RetainedKeeps(samples, SatSub(now, window), g);
    SumsAreDeltas(s, kind, PaddedKeys(kind, now), points, f, g);
    BucketsNeverOverCount(s, kind, PaddedKeys(kind, now), g);
  }

  /** By how much each counter differs between two samples. */
  datatype Grown = Grown(l0: int, l1: int, l2: int, misses: int, hitTokens: int, missTokens: int, outputTokens: int)

  const NONE: Grown := Grown(0, 0, 0, 0, 0, 0, 0)

  function GrowthOf(a: Snapshot, b: Snapshot): Grown {
    Grown(b.l0 - a.l0, b.l1 - a.l1, b.l2 - a.l2, b.misses - a.misses,
          b.hitTokens - a.hitTokens, b.missTokens - a.missTokens, b.outputTokens - a.outputTokens)
  }

  /** The chart's requests, hits and tokens are each at most last minus first over the samples in the window. */
  lemma ChartNeverOverCounts(samples: seq<Snapshot>, kind: BucketKind, now: nat, window: nat, points: seq<Point>)
    requires Increasing(samples) && Charted(samples, kind, now, window, points)
    ensures var s := Retained(samples, SatSub(now, window));
            var grown := if s == [] then NONE else GrowthOf(s[0], s[|s| - 1]);
            && (Monotone(samples, TotalRequests) ==>
                  SumOf(points, (p: Point) => p.requests) <= grown.l0 + grown.l1 + grown.l2 + grown.misses)
            && (Monotone(samples, CacheHits) ==>
                  SumOf(points, (p: Point) => p.cacheHits) <= grown.l0 + grown.l1 + grown.l2)
            && (Monotone(samples, TotalTokens) ==>
                  SumOf(points, (p: Point) => p.tokens) <= grown.hitTokens + grown.missTokens + grown.outputTokens)
  {
    if Monotone(samples, TotalRequests) {
      SumWithinGrowth(samples, kind, now, window, points, (p: Point) => p.requests, TotalRequests);
    }
    if Monotone(samples, CacheHits) {
      SumWithinGrowth(samples, kind, now, window, points, (p: Point) => p.cacheHits, CacheHits);
    }
    if Monotone(samples, TotalTokens) {
      SumWithinGrowth(samples, kind, now, window, points, (p: Point) => p.tokens, TotalTokens);
    }
  }

  lemma RetainedKeeps(samples: seq<Snapshot>, cutoff: nat, f: Snapshot -> nat)
    requires Increasing(samples) && Monotone(samples, f)
    ensures Increasing(Retained(samples, cutoff)) && Monotone(Retained(samples, cutoff), f)
  {
    var k := CutExists(samples, cutoff);
    RetainedIs(samples, cutoff, k);
  }

  ghost predicate Grows(group: seq<Snapshot>) {
    && |group| >= 2
    && var a, b := group[0], group[|group| - 1];
       && a.l0 <= b.l0 && a.l1 <= b.l1 && a.l2 <= b.l2 && a.misses <= b.misses
       && a.hitTokens <= b.hitTokens && a.missTokens <= b.missTokens && a.outputTokens <= b.outputTokens
  }

  /** With every counter growing, a point holds the growth of its bucket. */
  lemma PointIsGrowth(key: int, group: seq<Snapshot>)
    requires Grows(group)
    ensures var p, grown := PointOf(key, group), GrowthOf(group[0], group[|group| - 1]);
            && p.requests == grown.l0 + grown.l1 + grown.l2 + grown.misses
            && p.cacheHits == grown.l0 + grown.l1 + grown.l2
            && p.tokens == grown.hitTokens + grown.missTokens + grown.outputTokens
            && p.l0Rate == Percent(grown.l0, p.requests)
            && p.l1Rate == Percent(grown.l1, p.requests)
            && p.l2Rate == Percent(grown.l2, p.requests)
  {
  }

  lemma PercentIsShare(hits: nat, total: nat)
    requires hits <= total
    ensures Percent(hits, total) * total as real == 100.0 * hits as real
  {
  }

  /** Each tier's rate is that tier's share of the requests. */
  lemma RatesAreShares(key: int, group: seq<Snapshot>)
    requires Grows(group)
    ensures var p, grown := PointOf(key, group), GrowthOf(group[0], group[|group| - 1]);
            && p.l0Rate * p.requests as real == 100.0 * grown.l0 as real
            && p.l1Rate * p.requests as real == 100.0 * grown.l1 as real
            && p.l2Rate * p.requests as real == 100.0 * grown.l2 as real
  {
    PointIsGrowth(key, group);
    var p, grown := PointOf(key, group), GrowthOf(group[0], group[|group| - 1]);
    PercentIsShare(grown.l0, p.requests);
    PercentIsShare(grown.l1, p.requests);
    PercentIsShare(grown.l2, p.requests);
  }

  /** With every tier's counter growing, a point's rates are proper shares and add up. */
  lemma RatesAddUp(key: int, group: seq<Snapshot>)
    requires |group| >= 2
    requires var a, b := group[0], group[|group| - 1];
             a.l0 <= b.l0 && a.l1 <= b.l1 && a.l2 <= b.l2 && a.misses <= b.misses
    ensures var p := PointOf(key, group);
            && p.cacheHits <= p.requests
            && p.l0Rate + p.l1Rate + p.l2Rate == p.hitRate * 100.0
            && 0.0 <= p.hitRate <= 1.0
  {
    var a, b := group[0], group[|group| - 1];
    var d0, d1, d2 := b.l0 - a.l0, b.l1 - a.l1, b.l2 - a.l2;
    var n := d0 + d1 + d2 + b.misses - a.misses;
    if n > 0 {
      SharesAddUp(d0, d1, d2, n);
    }
  }

  lemma SharesAddUp(a: nat, b: nat, c: nat, n: nat)
    requires n > 0 && a + b + c <= n
    ensures Percent(a, n) + Percent(b, n) + Percent(c, n) == (a + b + c) as real / n as real * 100.0
    ensures 0.0 <= (a + b + c) as real / n as real <= 1.0
  {
    var x, y, z, m := a as real, b as real, c as real, n as real;
    DivAdds(x, y, m);
    DivAdds(x + y, z, m);
    DivOrdered(x + y + z, m);
  }

  lemma DivAdds(x: real, y: real, m: real)
    requires m > 0.0
    ensures x / m + y / m == (x + y) / m
  {
  }

  lemma DivOrdered(x: real, m: real)
    requires 0.0 <= x <= m && m > 0.0
    ensures 0.0 <= x / m <= 1.0
  {
  }
}
