/**
 Buckets, series and summaries of entries already placed in a bucket and a group. A bucket holds
 sums and counts and is drawn as averages; the summary of a stretch is computed back from the drawn
 averages, weighted by their counts. The bucket and the group of an entry are decided elsewhere, from
 its timestamp and from the dimensions asked for.
 */
module LiveBuckets {
  import opened Common

  datatype Entry = Entry(
    ts: nat, model: string, consumer: Option<string>, upstreamKey: Option<string>, clientKey: Option<string>,
    session: Option<string>, backend: Option<string>, clientKind: Option<string>,
    e2e: real, upstream: Option<real>, prefill: Option<real>, preHeader: Option<real>, ttft: Option<real>,
    input: nat, output: nat, cacheHit: bool)

  /** An entry with the bucket and the group it falls in. */
  datatype Placed = Placed(bucket: nat, group: Option<string>, entry: Entry)

  // ---------------------------------------------------------------------------
  // Selections of entries
  // ---------------------------------------------------------------------------

  function Between(es: seq<Placed>, lo: nat, hi: nat): seq<Placed>
  {
    if es == [] then []
    else
      var n := |es| - 1;
      if lo <= es[n].bucket < hi then Between(es[..n], lo, hi) + [es[n]]
      else Between(es[..n], lo, hi)
  }

  function InBucket(es: seq<Placed>, b: nat): seq<Placed>
  {
    Between(es, b, b + 1)
  }

  function OfGroup(es: seq<Placed>, g: string): seq<Placed> {
    if es == [] then []
    else
      var n := |es| - 1;
      if es[n].group == Some(g) then OfGroup(es[..n], g) + [es[n]]
      else OfGroup(es[..n], g)
  }

  /** Entries from `start` on. */
  function From(es: seq<Placed>, start: nat): seq<Placed> {
    if es == [] then []
    else
      var n := |es| - 1;
      if start <= es[n].entry.ts then From(es[..n], start) + [es[n]] else From(es[..n], start)
  }

  /** Entries from `start` on and before `end`. */
  function Within(es: seq<Placed>, start: nat, end: nat): seq<Placed> {
    if es == [] then []
    else
      var n := |es| - 1;
      if start <= es[n].entry.ts < end then Within(es[..n], start, end) + [es[n]] else Within(es[..n], start, end)
  }

  lemma {:induction false} WithinIsBetween(es: seq<Placed>, start: nat, end: nat, lo: nat, hi: nat)
    requires forall i :: 0 <= i < |es| && start <= es[i].entry.ts ==> (es[i].entry.ts < end <==> lo <= es[i].bucket < hi)
    ensures Within(es, start, end) == Between(From(es, start), lo, hi)
  {
    if es != [] {
      var n := |es| - 1;
      WithinIsBetween(es[..n], start, end, lo, hi);
    }
  }

  lemma {:induction false} FromKeeps(es: seq<Placed>, start: nat)
    ensures forall p :: p in From(es, start) ==> p in es
  {
    if es != [] { FromKeeps(es[..|es| - 1], start); }
  }

  lemma SnocGroup(es: seq<Placed>, p: Placed, g: string)
    ensures OfGroup(es + [p], g) ==
            OfGroup(es, g) + if p.group == Some(g) then [p] else []
  {
    assert (es + [p])[..|es|] == es;
  }

  /** Picking a group and cutting by time commute. */
  lemma {:induction false} GroupBetween(es: seq<Placed>, g: string, lo: nat, hi: nat)
    ensures Between(OfGroup(es, g), lo, hi) == OfGroup(Between(es, lo, hi), g)
  {
    if es != [] {
      var n := |es| - 1;
      GroupBetween(es[..n], g, lo, hi);
      SnocGroup(Between(es[..n], lo, hi), es[n], g);
    }
  }

  // ---------------------------------------------------------------------------
  // Totals
  // ---------------------------------------------------------------------------

  datatype Samples = Samples(sum: real, count: nat)

  /** What a bucket accumulates. */
  datatype Totals = Totals(requests: nat, e2e: real, upstream: Samples, preHeader: Samples, ttft: Samples,
                           input: nat, output: nat, hits: nat)

  const NOTHING: Totals := Totals(0, 0.0, Samples(0.0, 0), Samples(0.0, 0), Samples(0.0, 0), 0, 0, 0)

  function Sampled(s: Samples, x: Option<real>): Samples {
    if x.Some? then Samples(s.sum + x.value, s.count + 1) else s
  }

  function Accumulate(t: Totals, p: Placed): Totals {
    var e := p.entry;
    Totals(t.requests + 1, t.e2e + e.e2e, Sampled(t.upstream, e.upstream),
           Sampled(t.preHeader, if e.prefill.Some? then e.prefill else e.preHeader),
           Sampled(t.ttft, e.ttft), t.input + e.input, t.output + e.output,
           t.hits + if e.cacheHit then 1 else 0)
  }

  function Fold(es: seq<Placed>): Totals {
    if es == [] then NOTHING else Accumulate(Fold(es[..|es| - 1]), es[|es| - 1])
  }

  function PlusSamples(a: Samples, b: Samples): Samples {
    Samples(a.sum + b.sum, a.count + b.count)
  }

  function Plus(a: Totals, b: Totals): Totals {
    Totals(a.requests + b.requests, a.e2e + b.e2e, PlusSamples(a.upstream, b.upstream),
           PlusSamples(a.preHeader, b.preHeader), PlusSamples(a.ttft, b.ttft),
           a.input + b.input, a.output + b.output, a.hits + b.hits)
  }

  lemma SnocFold(es: seq<Placed>, p: Placed)
    ensures Fold(es + [p]) == Accumulate(Fold(es), p)
  {
    assert (es + [p])[..|es|] == es;
  }

  lemma AccumulateEither(a: Totals, b: Totals, p: Placed)
    ensures Plus(Accumulate(a, p), b) == Accumulate(Plus(a, b), p)
    ensures Plus(a, Accumulate(b, p)) == Accumulate(Plus(a, b), p)
  {
  }

  lemma PlusSwaps(a: Totals, b: Totals, c: Totals)
    ensures Plus(a, Plus(b, c)) == Plus(b, Plus(a, c))
  {
  }

  lemma PlusNothing(t: Totals)
    ensures Plus(t, NOTHING) == t && Plus(NOTHING, t) == t
  {
  }

  /** `all` is `left` and `right` shuffled together, each in its own order. */
  ghost predicate Shuffled(all: seq<Placed>, left: seq<Placed>, right: seq<Placed>) {
    if all == [] then left == [] && right == []
    else
      var n := |all| - 1;
      || (left != [] && left[|left| - 1] == all[n] && Shuffled(all[..n], left[..|left| - 1], right))
      || (right != [] && right[|right| - 1] == all[n] && Shuffled(all[..n], left, right[..|right| - 1]))
  }

  lemma {:induction false} ShuffleAddsUp(all: seq<Placed>, left: seq<Placed>, right: seq<Placed>)
    requires Shuffled(all, left, right)
    ensures Fold(all) == Plus(Fold(left), Fold(right))
  {
    if all == [] {
      PlusNothing(NOTHING);
    } else {
      var n := |all| - 1;
      var p := all[n];
      if left != [] && left[|left| - 1] == p && Shuffled(all[..n], left[..|left| - 1], right) {
        ShuffleAddsUp(all[..n], left[..|left| - 1], right);
        AccumulateEither(Fold(left[..|left| - 1]), Fold(right), p);
      } else {
        ShuffleAddsUp(all[..n], left, right[..|right| - 1]);
        AccumulateEither(Fold(left), Fold(right[..|right| - 1]), p);
      }
    }
  }

  lemma {:induction false} BetweenShuffles(es: seq<Placed>, lo: nat, mid: nat, hi: nat)
    requires lo <= mid <= hi
    ensures Shuffled(Between(es, lo, hi), Between(es, lo, mid), Between(es, mid, hi))
  {
    if es != [] {
      var n := |es| - 1;
      BetweenShuffles(es[..n], lo, mid, hi);
    }
  }

  /** Cutting a stretch of buckets in two cuts its totals in two. */
  lemma BetweenSplits(es: seq<Placed>, lo: nat, mid: nat, hi: nat)
    requires lo <= mid <= hi
    ensures Fold(Between(es, lo, hi)) == Plus(Fold(Between(es, lo, mid)), Fold(Between(es, mid, hi)))
  {
    BetweenShuffles(es, lo, mid, hi);
    ShuffleAddsUp(Between(es, lo, hi), Between(es, lo, mid), Between(es, mid, hi));
  }

  lemma {:induction false} NothingBetween(es: seq<Placed>, lo: nat)
    ensures Between(es, lo, lo) == []
  {
    if es != [] { NothingBetween(es[..|es| - 1], lo); }
  }

  // ---------------------------------------------------------------------------
  // What totals mean: counts, sums and samples of the entries themselves
  // ---------------------------------------------------------------------------

  datatype Measure = E2e | Upstream | PreHeader | Ttft

  function Sample(e: Entry, m: Measure): Option<real> {
    match m
    case E2e => Some(e.e2e)
    case Upstream => e.upstream
    case PreHeader => if e.prefill.Some? then e.prefill else e.preHeader
    case Ttft => e.ttft
  }

  function Values(es: seq<Placed>, m: Measure): seq<real> {
    if es == [] then []
    else
      var front := Values(es[..|es| - 1], m);
      var x := Sample(es[|es| - 1].entry, m);
      if x.Some? then front + [x.value] else front
  }

  function SumReals(xs: seq<real>): real {
    if xs == [] then 0.0 else SumReals(xs[..|xs| - 1]) + xs[|xs| - 1]
  }

  function Mean(xs: seq<real>): real {
    if xs == [] then 0.0 else SumReals(xs) / (|xs| as real)
  }

  function InputOf(es: seq<Placed>): nat {
    if es == [] then 0 else InputOf(es[..|es| - 1]) + es[|es| - 1].entry.input
  }

  function OutputOf(es: seq<Placed>): nat {
    if es == [] then 0 else OutputOf(es[..|es| - 1]) + es[|es| - 1].entry.output
  }

  function Hits(es: seq<Placed>): nat {
    if es == [] then 0 else Hits(es[..|es| - 1]) + if es[|es| - 1].entry.cacheHit then 1 else 0
  }

  function SamplesOf(t: Totals, m: Measure): Samples {
    match m
    case E2e => Samples(t.e2e, t.requests)
    case Upstream => t.upstream
    case PreHeader => t.preHeader
    case Ttft => t.ttft
  }

  lemma {:induction false} FoldSamples(es: seq<Placed>, m: Measure)
    ensures SamplesOf(Fold(es), m) == Samples(SumReals(Values(es, m)), |Values(es, m)|)
  {
    if es != [] {
      var n := |es| - 1;
      FoldSamples(es[..n], m);
      var front, x := Values(es[..n], m), Sample(es[n].entry, m);
      if x.Some? { assert (front + [x.value])[..|front|] == front; }
    }
  }

  lemma {:induction false} FoldCounts(es: seq<Placed>)
    ensures Fold(es).requests == |es| && Fold(es).hits == Hits(es)
    ensures Fold(es).input == InputOf(es) && Fold(es).output == OutputOf(es)
  {
    if es != [] { FoldCounts(es[..|es| - 1]); }
  }

  // ---------------------------------------------------------------------------
  // Filling the maps
  // ---------------------------------------------------------------------------

  type Tally = map<nat, Totals>

  function Slot(acc: Tally, b: nat): Totals {
    if b in acc then acc[b] else NOTHING
  }

  ghost predicate TalliedAt(acc: Tally, es: seq<Placed>, b: nat) {
    if b in acc then InBucket(es, b) != [] && acc[b] == Fold(InBucket(es, b)) else InBucket(es, b) == []
  }

  /** `acc` holds, for each bucket some entry fell in, the fold of its entries. */
  ghost predicate Tallied(acc: Tally, es: seq<Placed>) {
    forall b: nat :: TalliedAt(acc, es, b)
  }

  lemma TalliedStep(acc: Tally, es: seq<Placed>, p: Placed)
    requires Tallied(acc, es)
    ensures Tallied(acc[p.bucket := Accumulate(Slot(acc, p.bucket), p)], es + [p])
  {
    var acc' := acc[p.bucket := Accumulate(Slot(acc, p.bucket), p)];
    forall b: nat ensures TalliedAt(acc', es + [p], b) {
      TalliedStepAt(acc, es, p, b);
    }
  }

  lemma TalliedStepAt(acc: Tally, es: seq<Placed>, p: Placed, b: nat)
    requires TalliedAt(acc, es, b)
    ensures TalliedAt(acc[p.bucket := Accumulate(Slot(acc, p.bucket), p)], es + [p], b)
  {
    if b == p.bucket {
      SnocFold(InBucket(es, b), p);
    } else {
      assert InBucket(es + [p], b) == InBucket(es, b);
    }
  }

  lemma SlotIsFold(acc: Tally, es: seq<Placed>, b: nat)
    requires Tallied(acc, es)
    ensures Slot(acc, b) == Fold(InBucket(es, b))
    ensures b in acc <==> InBucket(es, b) != []
  {
    assert TalliedAt(acc, es, b);
  }

  ghost predicate SeriesTallied(series: map<string, Tally>, es: seq<Placed>)
  {
    && (forall g :: g in series ==> OfGroup(es, g) != [] && Tallied(series[g], OfGroup(es, g)))
    && (forall g :: OfGroup(es, g) != [] ==> g in series)
  }

  lemma SeriesStep(series: map<string, Tally>, es: seq<Placed>, p: Placed)
    requires SeriesTallied(series, es)
    ensures SeriesTallied(FiledUnder(series, p.group, p), es + [p])
  {
    var key := p.group;
    var series' := FiledUnder(series, key, p);
    forall g: string
      ensures g in series' <==> OfGroup(es + [p], g) != []
      ensures g in series' ==> Tallied(series'[g], OfGroup(es + [p], g))
    {
      SnocGroup(es, p, g);
      if key == Some(g) {
        var was: Tally := if g in series then series[g] else map[];
        if g !in series { assert OfGroup(es, g) == []; }
        assert Tallied(was, OfGroup(es, g));
        TalliedStep(was, OfGroup(es, g), p);
      }
    }
  }

  function FiledUnder(series: map<string, Tally>, key: Option<string>, p: Placed): map<string, Tally>
  {
    match key
    case None => series
    case Some(g) =>
      var was: Tally := if g in series then series[g] else map[];
      series[g := was[p.bucket := Accumulate(Slot(was, p.bucket), p)]]
  }

  predicate FirstLatest(es: seq<Placed>, i: nat)
    requires i < |es|
  {
    && (forall j :: 0 <= j < i ==> es[j].entry.ts < es[i].entry.ts)
    && (forall j :: i <= j < |es| ==> es[j].entry.ts <= es[i].entry.ts)
  }

  /** The latest entry is the first of the greatest timestamp. */
  ghost predicate LatestOf(latest: Option<Entry>, es: seq<Placed>) {
    && (latest.None? <==> es == [])
    && (latest.Some? ==> exists i :: 0 <= i < |es| && es[i].entry == latest.value && FirstLatest(es, i))
  }

  lemma LatestStep(latest: Option<Entry>, es: seq<Placed>, p: Placed)
    requires LatestOf(latest, es)
    ensures LatestOf(if latest.None? || latest.value.ts < p.entry.ts then Some(p.entry) else latest, es + [p])
  {
    var es' := es + [p];
    if latest.None? {
      assert es'[0] == p && FirstLatest(es', 0);
    } else {
      var i :| 0 <= i < |es| && es[i].entry == latest.value && FirstLatest(es, i);
      if latest.value.ts < p.entry.ts {
        assert es'[|es|] == p && FirstLatest(es', |es|);
      } else {
        assert es'[i].entry == latest.value && FirstLatest(es', i);
      }
    }
  }

  // ---------------------------------------------------------------------------
  // Buckets and their summary
  // ---------------------------------------------------------------------------

  /** A bucket as shown: averages and sample counts, no sums. */
  datatype Bucket = Bucket(ts: nat, requests: nat, e2e: real,
                           upstream: Option<real>, preHeader: Option<real>, ttft: Option<real>,
                           upstreamCount: nat, preHeaderCount: nat, ttftCount: nat,
                           input: nat, output: nat, hits: nat)

  function Average(s: Samples): Option<real> {
    if s.count > 0 then Some(s.sum / (s.count as real)) else None
  }

  function IntoBucket(ts: nat, t: Totals): Bucket {
    Bucket(ts, t.requests, if t.requests > 0 then t.e2e / (t.requests as real) else 0.0,
           Average(t.upstream), Average(t.preHeader), Average(t.ttft),
           t.upstream.count, t.preHeader.count, t.ttft.count, t.input, t.output, t.hits)
  }

  function EmptyBucket(ts: nat): Bucket {
    Bucket(ts, 0, 0.0, None, None, None, 0, 0, 0, 0, 0, 0)
  }

  datatype Summary = Summary(requests: nat, e2e: real, upstream: real, preHeader: real, ttft: real,
                             input: nat, output: nat, hitRatio: real)

  function Ratio(sum: real, count: nat): real {
    if count > 0 then sum / (count as real) else 0.0
  }

  function Weighed(average: Option<real>, count: nat): Samples {
    if average.Some? then Samples(average.value * (count as real), count) else Samples(0.0, 0)
  }

  /** What a bucket adds to the summary's sums: each average weighted by its own sample count. */
  function Contribution(b: Bucket): Totals {
    Totals(b.requests, if b.requests > 0 then b.e2e * (b.requests as real) else 0.0,
           Weighed(b.upstream, b.upstreamCount), Weighed(b.preHeader, b.preHeaderCount),
           Weighed(b.ttft, b.ttftCount), b.input, b.output, b.hits)
  }

  function Contributions(bs: seq<Bucket>): Totals {
    if bs == [] then NOTHING else Plus(Contributions(bs[..|bs| - 1]), Contribution(bs[|bs| - 1]))
  }

  /** The summary says of `es` exactly their counts, sums and means. */
  ghost predicate Describes(s: Summary, es: seq<Placed>) {
    && s.requests == |es|
    && s.e2e == Mean(Values(es, E2e)) && s.upstream == Mean(Values(es, Upstream))
    && s.preHeader == Mean(Values(es, PreHeader)) && s.ttft == Mean(Values(es, Ttft))
    && s.input == InputOf(es) && s.output == OutputOf(es)
    && s.hitRatio == Ratio(Hits(es) as real, |es|)
  }

  lemma QuotientTimes(sum: real, count: nat)
    requires count > 0
    ensures sum / (count as real) * (count as real) == sum
  {
  }

  /** A sum without samples is zero. */
  predicate Summed(t: Totals) {
    && (t.requests == 0 ==> t.e2e == 0.0) && (t.upstream.count == 0 ==> t.upstream.sum == 0.0)
    && (t.preHeader.count == 0 ==> t.preHeader.sum == 0.0) && (t.ttft.count == 0 ==> t.ttft.sum == 0.0)
  }

  lemma {:induction false} FoldSummed(es: seq<Placed>)
    ensures Summed(Fold(es))
  {
    if es != [] { FoldSummed(es[..|es| - 1]); }
  }

  /** Over the reals the averages lose nothing: weighting them gives the sums back. */
  lemma ContributionRestores(ts: nat, t: Totals)
    requires Summed(t)
    ensures Contribution(IntoBucket(ts, t)) == t
  {
    if t.requests > 0 { QuotientTimes(t.e2e, t.requests); }
  }

  method Chart(acc: Tally, size: nat, lo: nat, hi: nat) returns (bs: seq<Bucket>)
    requires lo <= hi
    ensures |bs| == hi + 1 - lo
    ensures forall i :: 0 <= i < |bs| ==> bs[i] == IntoBucket((lo + i) * size, Slot(acc, lo + i))
  {
    bs := [];
    var b := lo;
    while b <= hi
      invariant lo <= b <= hi + 1 && |bs| == b - lo
      invariant forall i :: 0 <= i < |bs| ==> bs[i] == IntoBucket((lo + i) * size, Slot(acc, lo + i))
    {
      if b in acc {
        bs := bs + [IntoBucket(b * size, acc[b])];
      } else {
        bs := bs + [EmptyBucket(b * size)];
      }
      b := b + 1;
    }
  }

  /** `bs` are the buckets `lo..` of `es`. */
  ghost predicate Charts(bs: seq<Bucket>, es: seq<Placed>, size: nat, lo: nat)
  {
    forall i :: 0 <= i < |bs| ==> bs[i] == IntoBucket((lo + i) * size, Fold(InBucket(es, lo + i)))
  }

  /** Totals of `n` buckets from `lo` on, added up. */
  ghost function BucketSum(each: nat -> Totals, lo: nat, n: nat): Totals {
    if n == 0 then NOTHING else Plus(BucketSum(each, lo, n - 1), each(lo + n - 1))
  }

  /** Totals that start at nothing and grow bucket by bucket are the sums of the buckets. */
  lemma {:induction false} BucketSumIs(each: nat -> Totals, upTo: nat -> Totals, lo: nat, n: nat)
    requires upTo(lo) == NOTHING && forall k: nat :: lo <= k ==> upTo(k + 1) == Plus(upTo(k), each(k))
    ensures BucketSum(each, lo, n) == upTo(lo + n)
  {
    if n > 0 {
      BucketSumIs(each, upTo, lo, n - 1);
      assert upTo(lo + n - 1 + 1) == Plus(upTo(lo + n - 1), each(lo + n - 1));
    }
  }

  lemma {:induction false} ContributionsAre(bs: seq<Bucket>, each: nat -> Totals, lo: nat)
    requires forall i :: 0 <= i < |bs| ==> Contribution(bs[i]) == each(lo + i)
    ensures Contributions(bs) == BucketSum(each, lo, |bs|)
  {
    if bs != [] {
      ContributionsAre(bs[..|bs| - 1], each, lo);
    }
  }

  lemma OneMoreBucket(es: seq<Placed>, lo: nat, k: nat)
    requires lo <= k
    ensures Fold(Between(es, lo, k + 1)) == Plus(Fold(Between(es, lo, k)), Fold(InBucket(es, k)))
  {
    BetweenSplits(es, lo, k, k + 1);
  }

  /** The buckets of a chart give back the totals of the whole stretch. */
  lemma ChartAddsUp(bs: seq<Bucket>, es: seq<Placed>, size: nat, lo: nat)
    requires Charts(bs, es, size, lo)
    ensures Contributions(bs) == Fold(Between(es, lo, lo + |bs|))
  {
    EachContributes(bs, es, size, lo);
    ContributionsAre(bs, Each(es), lo);
    BucketsFold(es, lo, |bs|);
  }

  lemma BucketsFold(es: seq<Placed>, lo: nat, n: nat)
    ensures BucketSum(Each(es), lo, n) == Fold(Between(es, lo, lo + n))
  {
    GrowsByBucket(es, lo);
    BucketSumIs(Each(es), FoldTo(es, lo), lo, n);
  }

  function Each(es: seq<Placed>): nat -> Totals {
    (k: nat) => Fold(InBucket(es, k))
  }

  function FoldTo(es: seq<Placed>, lo: nat): nat -> Totals {
    (k: nat) => Fold(Between(es, lo, k))
  }

  lemma GrowsByBucket(es: seq<Placed>, lo: nat)
    ensures FoldTo(es, lo)(lo) == NOTHING
    ensures forall k: nat :: lo <= k ==> FoldTo(es, lo)(k + 1) == Plus(FoldTo(es, lo)(k), Each(es)(k))
  {
    NothingBetween(es, lo);
    forall k: nat | lo <= k ensures FoldTo(es, lo)(k + 1) == Plus(FoldTo(es, lo)(k), Each(es)(k)) {
      OneMoreBucket(es, lo, k);
    }
  }

  lemma EachContributes(bs: seq<Bucket>, es: seq<Placed>, size: nat, lo: nat)
    requires Charts(bs, es, size, lo)
    ensures forall i :: 0 <= i < |bs| ==> Contribution(bs[i]) == Each(es)(lo + i)
  {
    forall i | 0 <= i < |bs| ensures Contribution(bs[i]) == Each(es)(lo + i) {
      OneContribution(bs, es, size, lo, i);
    }
  }

  lemma OneContribution(bs: seq<Bucket>, es: seq<Placed>, size: nat, lo: nat, i: nat)
    requires Charts(bs, es, size, lo) && i < |bs|
    ensures Contribution(bs[i]) == Fold(InBucket(es, lo + i))
  {
    FoldSummed(InBucket(es, lo + i));
    ContributionRestores((lo + i) * size, Fold(InBucket(es, lo + i)));
  }

  method AddSamples(s: Samples, average: Option<real>, count: nat) returns (r: Samples)
    ensures r == PlusSamples(s, Weighed(average, count))
  {
    r := s;
    if average.Some? {
      r := Samples(s.sum + average.value * (count as real), s.count + count);
    }
  }

  method AddBucket(t: Totals, b: Bucket) returns (r: Totals)
    ensures r == Plus(t, Contribution(b))
  {
    var e2e := t.e2e;
    if b.requests > 0 {
      e2e := e2e + b.e2e * (b.requests as real);
    }
    var upstream := AddSamples(t.upstream, b.upstream, b.upstreamCount);
    var preHeader := AddSamples(t.preHeader, b.preHeader, b.preHeaderCount);
    var ttft := AddSamples(t.ttft, b.ttft, b.ttftCount);
    r := Totals(t.requests + b.requests, e2e, upstream, preHeader, ttft,
                t.input + b.input, t.output + b.output, t.hits + b.hits);
  }

  method Summarize(bs: seq<Bucket>) returns (s: Summary)
    ensures s == SummaryOf(Contributions(bs))
  {
    var t := NOTHING;
    var i := 0;
    while i < |bs|
      invariant 0 <= i <= |bs| && t == Contributions(bs[..i])
    {
      assert bs[..i + 1][..i] == bs[..i];
      t := AddBucket(t, bs[i]);
      i := i + 1;
    }
    assert bs[..i] == bs;
    s := Summary(t.requests, Ratio(t.e2e, t.requests), Ratio(t.upstream.sum, t.upstream.count),
                 Ratio(t.preHeader.sum, t.preHeader.count), Ratio(t.ttft.sum, t.ttft.count),
                 t.input, t.output, Ratio(t.hits as real, t.requests));
  }

  /** The chart of a tally and its summary, which describes every entry of the stretch. */
  method ChartAndSummarize(acc: Tally, ghost es: seq<Placed>, size: nat, lo: nat, hi: nat)
    returns (bs: seq<Bucket>, s: Summary)
    requires lo <= hi && Tallied(acc, es)
    ensures |bs| == hi + 1 - lo && Charts(bs, es, size, lo)
    ensures Describes(s, Between(es, lo, hi + 1))
  {
    bs := Chart(acc, size, lo, hi);
    SlotsChart(bs, acc, es, size, lo);
    s := Summarize(bs);
    ChartAddsUp(bs, es, size, lo);
    FoldDescribes(Between(es, lo, hi + 1));
  }

  lemma SlotsChart(bs: seq<Bucket>, acc: Tally, es: seq<Placed>, size: nat, lo: nat)
    requires Tallied(acc, es)
    requires forall i :: 0 <= i < |bs| ==> bs[i] == IntoBucket((lo + i) * size, Slot(acc, lo + i))
    ensures Charts(bs, es, size, lo)
  {
    forall i | 0 <= i < |bs| ensures bs[i] == IntoBucket((lo + i) * size, Fold(InBucket(es, lo + i))) {
      SlotIsFold(acc, es, lo + i);
    }
  }

  function SummaryOf(t: Totals): Summary {
    Summary(t.requests, Ratio(t.e2e, t.requests), Ratio(t.upstream.sum, t.upstream.count),
            Ratio(t.preHeader.sum, t.preHeader.count), Ratio(t.ttft.sum, t.ttft.count),
            t.input, t.output, Ratio(t.hits as real, t.requests))
  }

  /** The ratios of a stretch's totals are the means of its samples. */
  lemma FoldDescribes(es: seq<Placed>)
    ensures Describes(SummaryOf(Fold(es)), es)
  {
    FoldCounts(es);
    FoldSamples(es, E2e);
    FoldSamples(es, Upstream);
    FoldSamples(es, PreHeader);
    FoldSamples(es, Ttft);
  }

  // ---------------------------------------------------------------------------
  // Series
  // ---------------------------------------------------------------------------

  const MAX_SERIES: nat := 20

  datatype Series = Series(groupKey: string, buckets: seq<Bucket>, summary: Summary)

  /** Requests of a series over all its buckets, later than `now` included. */
  ghost function Volume(es: seq<Placed>, g: string): nat {
    |OfGroup(es, g)|
  }

  ghost function Requests(acc: Tally): nat {
    if acc == map[] then 0
    else
      var b :| b in acc;
      acc[b].requests + Requests(acc - {b})
  }

  lemma {:induction false} RequestsWithout(acc: Tally, b: nat)
    requires b in acc
    ensures Requests(acc) == acc[b].requests + Requests(acc - {b})
    decreases |acc|
  {
    var c :| c in acc && Requests(acc) == acc[c].requests + Requests(acc - {c});
    if c != b {
      RequestsWithout(acc - {c}, b);
      RequestsWithout(acc - {b}, c);
      assert acc - {c} - {b} == acc - {b} - {c};
    }
  }

  lemma RequestsGrow(acc: Tally, b: nat, p: Placed)
    ensures Requests(acc[b := Accumulate(Slot(acc, b), p)]) == Requests(acc) + 1
  {
    var acc' := acc[b := Accumulate(Slot(acc, b), p)];
    RequestsWithout(acc', b);
    assert acc' - {b} == acc - {b};
    if b in acc { RequestsWithout(acc, b); } else { assert acc - {b} == acc; }
  }

  /** A tally counts each of its entries once. */
  lemma {:induction false} RequestsCounted(acc: Tally, es: seq<Placed>)
    requires Tallied(acc, es)
    ensures Requests(acc) == |es|
    decreases |es|
  {
    if es == [] {
      forall b: nat ensures b !in acc { SlotIsFold(acc, es, b); }
      assert acc == map[];
    } else {
      var n := |es| - 1;
      var front, p := es[..n], es[n];
      assert es == front + [p];
      var was := TallyOf(front);
      RequestsCounted(was, front);
      TalliedStep(was, front, p);
      TalliedUnique(acc, was[p.bucket := Accumulate(Slot(was, p.bucket), p)], es);
      RequestsGrow(was, p.bucket, p);
    }
  }

  function TallyOf(es: seq<Placed>): (acc: Tally)
    ensures Tallied(acc, es)
  {
    if es == [] then map[]
    else
      var n := |es| - 1;
      var was := TallyOf(es[..n]);
      TalliedStep(was, es[..n], es[n]);
      assert es == es[..n] + [es[n]];
      was[es[n].bucket := Accumulate(Slot(was, es[n].bucket), es[n])]
  }

  lemma TalliedUnique(a: Tally, b: Tally, es: seq<Placed>)
    requires Tallied(a, es) && Tallied(b, es)
    ensures a == b
  {
    forall k: nat ensures (k in a <==> k in b) && (k in a ==> a[k] == b[k]) {
      SlotIsFold(a, es, k);
      SlotIsFold(b, es, k);
    }
    assert a.Keys == b.Keys;
  }

  method CountRequests(acc: Tally) returns (n: nat)
    ensures n == Requests(acc)
  {
    n := 0;
    var rest := acc;
    while rest != map[]
      invariant n + Requests(rest) == Requests(acc)
      decreases |rest|
    {
      var b :| b in rest;
      RequestsWithout(rest, b);
      n, rest := n + rest[b].requests, rest - {b};
    }
  }

  /** `keys` are the busiest groups of `all`, busiest first, at most `MAX_SERIES` of them. */
  ghost predicate Busiest(keys: seq<string>, all: set<string>, es: seq<Placed>) {
    && |keys| == (if |all| < MAX_SERIES then |all| else MAX_SERIES)
    && (forall k :: k in keys ==> k in all)
    && (forall i, j :: 0 <= i < j < |keys| ==> keys[i] != keys[j] && Volume(es, keys[i]) >= Volume(es, keys[j]))
    && (forall k, g :: k in keys && g in all && g !in keys ==> Volume(es, k) >= Volume(es, g))
  }

  /** Sorts the groups by volume, largest first, and keeps the first `MAX_SERIES`. */
  method TopSeries(series: map<string, Tally>, ghost es: seq<Placed>)
    returns (keys: seq<string>)
    requires SeriesTallied(series, es)
    ensures Busiest(keys, series.Keys, es)
  {
    keys := [];
    var rest := series.Keys;
    while rest != {} && |keys| < MAX_SERIES
      invariant rest <= series.Keys && |keys| + |rest| == |series| && |keys| <= MAX_SERIES
      invariant forall k :: k in keys <==> k in series && k !in rest
      invariant forall i, j :: 0 <= i < j < |keys| ==>
                  keys[i] != keys[j] && Volume(es, keys[i]) >= Volume(es, keys[j])
      invariant forall k, g :: k in keys && g in rest ==> Volume(es, k) >= Volume(es, g)
    {
      var best := MostRequests(series, rest, es);
      rest := rest - {best};
      keys := keys + [best];
    }
  }

  method MostRequests(series: map<string, Tally>, among: set<string>, ghost es: seq<Placed>)
    returns (best: string)
    requires SeriesTallied(series, es)
    requires among != {} && among <= series.Keys
    ensures best in among
    ensures forall g :: g in among ==> Volume(es, g) <= Volume(es, best)
  {
    best :| best in among;
    var most := CountRequests(series[best]);
    RequestsCounted(series[best], OfGroup(es, best));
    var rest := among - {best};
    while rest != {}
      invariant rest <= among && best in among && most == Volume(es, best)
      invariant forall g :: g in among && g !in rest ==> Volume(es, g) <= most
    {
      var g :| g in rest;
      rest := rest - {g};
      var n := CountRequests(series[g]);
      RequestsCounted(series[g], OfGroup(es, g));
      if n > most {
        best, most := g, n;
      }
    }
  }

  /** Totals of the groups `keys`, added up. */
  ghost function GroupSum(es: seq<Placed>, keys: set<string>): Totals {
    if keys == {} then NOTHING
    else
      var g :| g in keys;
      Plus(Fold(OfGroup(es, g)), GroupSum(es, keys - {g}))
  }

  lemma {:induction false} GroupSumWithout(es: seq<Placed>, keys: set<string>, g: string)
    requires g in keys
    ensures GroupSum(es, keys) == Plus(Fold(OfGroup(es, g)), GroupSum(es, keys - {g}))
    decreases keys
  {
    var h :| h in keys && GroupSum(es, keys) == Plus(Fold(OfGroup(es, h)), GroupSum(es, keys - {h}));
    if h != g {
      GroupSumWithout(es, keys - {h}, g);
      GroupSumWithout(es, keys - {g}, h);
      assert keys - {h} - {g} == keys - {g} - {h};
      PlusSwaps(Fold(OfGroup(es, g)), Fold(OfGroup(es, h)), GroupSum(es, keys - {g} - {h}));
    }
  }

  lemma {:induction false} GroupSumSkips(es: seq<Placed>, p: Placed, keys: set<string>)
    requires forall g :: g in keys ==> p.group != Some(g)
    ensures GroupSum(es + [p], keys) == GroupSum(es, keys)
    decreases keys
  {
    if keys != {} {
      var g :| g in keys;
      GroupSumWithout(es, keys, g);
      GroupSumWithout(es + [p], keys, g);
      SnocGroup(es, p, g);
      GroupSumSkips(es, p, keys - {g});
    }
  }

  lemma {:induction false} GroupSumOfNone(keys: set<string>)
    ensures GroupSum([], keys) == NOTHING
    decreases keys
  {
    if keys != {} {
      var g :| g in keys;
      GroupSumWithout([], keys, g);
      GroupSumOfNone(keys - {g});
      assert OfGroup([], g) == [];
      PlusNothing(NOTHING);
    }
  }

  /** One more entry changes the sum of its own group only. */
  lemma GroupSumStep(es: seq<Placed>, p: Placed, g: string, keys: set<string>)
    requires p.group == Some(g) && g in keys
    ensures GroupSum(es + [p], keys) == Plus(Fold(OfGroup(es, g) + [p]), GroupSum(es, keys - {g}))
  {
    SnocGroup(es, p, g);
    GroupSumWithout(es + [p], keys, g);
    GroupSumSkips(es, p, keys - {g});
  }

  lemma {:induction false} NoGroup(es: seq<Placed>, g: string)
    requires forall i :: 0 <= i < |es| ==> es[i].group.None?
    ensures OfGroup(es, g) == []
  {
    if es != [] { NoGroup(es[..|es| - 1], g); }
  }

  predicate AllGrouped(es: seq<Placed>) {
    forall i :: 0 <= i < |es| ==> es[i].group.Some?
  }

  lemma {:induction false} BetweenGrouped(es: seq<Placed>, lo: nat, hi: nat)
    requires AllGrouped(es)
    ensures AllGrouped(Between(es, lo, hi))
  {
    if es != [] { BetweenGrouped(es[..|es| - 1], lo, hi); }
  }

  /** The groups partition the entries: their totals add up to the totals of all. */
  lemma {:induction false} GroupsPartition(es: seq<Placed>, keys: set<string>)
    requires AllGrouped(es)
    requires forall g :: OfGroup(es, g) != [] ==> g in keys
    ensures GroupSum(es, keys) == Fold(es)
    decreases |es|
  {
    if es == [] {
      GroupSumOfNone(keys);
    } else {
      var n := |es| - 1;
      var front, p := es[..n], es[n];
      assert es == front + [p];
      var g := p.group.value;
      forall h | OfGroup(front, h) != [] ensures h in keys { SnocGroup(front, p, h); }
      SnocGroup(front, p, g);
      GroupsPartition(front, keys);
      SnocFold(front, p);
      SnocFold(OfGroup(front, g), p);
      GroupSumStep(front, p, g, keys);
      GroupSumWithout(front, keys, g);
      AccumulateEither(Fold(OfGroup(front, g)), GroupSum(front, keys - {g}), p);
    }
  }

  /** Bucket by bucket, the series of the groups found add up to the global bucket. */
  lemma SeriesPartitionBuckets(acc: Tally, series: map<string, Tally>, es: seq<Placed>, b: nat)
    requires AllGrouped(es)
    requires Tallied(acc, es) && SeriesTallied(series, es)
    ensures Slot(acc, b) == GroupSum(InBucket(es, b), series.Keys)
    ensures forall g :: g in series ==> Slot(series[g], b) == Fold(OfGroup(InBucket(es, b), g))
  {
    var here := InBucket(es, b);
    SlotIsFold(acc, es, b);
    BetweenGrouped(es, b, b + 1);
    forall g | OfGroup(here, g) != [] ensures g in series {
      GroupBetween(es, g, b, b + 1);
    }
    GroupsPartition(here, series.Keys);
    forall g | g in series ensures Slot(series[g], b) == Fold(OfGroup(here, g)) {
      GroupBetween(es, g, b, b + 1);
      SlotIsFold(series[g], OfGroup(es, g), b);
    }
  }

  function Names(series: seq<Series>): seq<string> {
    seq(|series|, i requires 0 <= i < |series| => series[i].groupKey)
  }

  ghost predicate SeriesDescribed(s: Series, es: seq<Placed>, size: nat, lo: nat, hi: nat) {
    && |s.buckets| == hi + 1 - lo && Charts(s.buckets, OfGroup(es, s.groupKey), size, lo)
    && Describes(s.summary, OfGroup(Between(es, lo, hi + 1), s.groupKey))
  }

  /** The busiest of the groups found, each with its own buckets and summary. */
  ghost predicate SeriesOk(series: seq<Series>, es: seq<Placed>, size: nat, lo: nat, hi: nat) {
    && (forall i :: 0 <= i < |series| ==> SeriesDescribed(series[i], es, size, lo, hi))
    && exists all: set<string> :: GroupsOf(all, es) && Busiest(Names(series), all, es)
  }

  ghost predicate GroupsOf(all: set<string>, es: seq<Placed>) {
    forall g :: g in all <==> OfGroup(es, g) != []
  }

  method BuildSeries(tallies: map<string, Tally>, ghost es: seq<Placed>, size: nat, lo: nat, hi: nat)
    returns (series: seq<Series>)
    requires lo <= hi && SeriesTallied(tallies, es)
    ensures SeriesOk(series, es, size, lo, hi)
  {
    var keys := TopSeries(tallies, es);
    series := [];
    var i := 0;
    while i < |keys|
      invariant 0 <= i <= |keys| && |series| == i
      invariant forall j :: 0 <= j < i ==> series[j].groupKey == keys[j]
      invariant forall j :: 0 <= j < i ==> SeriesDescribed(series[j], es, size, lo, hi)
    {
      var g := keys[i];
      assert g in keys;
      var s := OneSeries(tallies[g], g, es, size, lo, hi);
      series := series + [s];
      i := i + 1;
    }
    assert Names(series) == keys;
    assert GroupsOf(tallies.Keys, es);
  }

  method OneSeries(acc: Tally, g: string, ghost es: seq<Placed>, size: nat, lo: nat, hi: nat) returns (s: Series)
    requires lo <= hi && Tallied(acc, OfGroup(es, g))
    ensures s.groupKey == g && SeriesDescribed(s, es, size, lo, hi)
  {
    var bs, summary := ChartAndSummarize(acc, OfGroup(es, g), size, lo, hi);
    GroupBetween(es, g, lo, hi + 1);
    s := Series(g, bs, summary);
  }
}
