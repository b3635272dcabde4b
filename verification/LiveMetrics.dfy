/** The live-metrics aggregation: filters, bucket and group of an entry, and the response. */
module LiveMetrics {
  import opened Common
  import opened LiveBuckets

  datatype Query = Query(consumer: string, keyId: string, session: string, dims: seq<string>)

  // ---------------------------------------------------------------------------
  // Parameters, filters and group keys
  // ---------------------------------------------------------------------------

  function Clamp(x: nat, lo: nat, hi: nat): (r: nat)
    requires lo <= hi
    ensures lo <= r <= hi && (lo <= x <= hi ==> r == x)
  {
    if x < lo then lo else if x > hi then hi else x
  }

  function WindowSecs(window: nat): nat {
    Clamp(window, 60, 30 * 24 * 3600)
  }

  function BucketSecs(window: nat, bucket: nat): nat {
    Clamp(bucket, 5, if WindowSecs(window) < 3600 then WindowSecs(window) else 3600)
  }

  function KeyOf(e: Entry): Option<string> {
    if e.upstreamKey.Some? then e.upstreamKey else e.clientKey
  }

  predicate Matches(q: Query, e: Entry) {
    && (q.consumer == "*" || e.consumer == Some(q.consumer))
    && (q.keyId == "" || KeyOf(e) == Some(q.keyId))
    && (q.session == "" || e.session == Some(q.session))
  }

  function OrElse(o: Option<string>, other: string): string {
    if o.Some? then o.value else other
  }

  function Part(e: Entry, dim: string): Option<string> {
    if dim == "model" then Some("model=" + e.model)
    else if dim == "key_id" then Some("key_id=" + OrElse(KeyOf(e), "unknown"))
    else if dim == "cache_hit" || dim == "cache_status" then Some("cache=" + if e.cacheHit then "HIT" else "MISS")
    else if dim == "backend_name" then Some("backend=" + OrElse(e.backend, "unknown"))
    else if dim == "client_kind" then Some("client_kind=" + OrElse(e.clientKind, "generic"))
    else None
  }

  /** The parts of the recognised dimensions, joined by `|`; none when no dimension is recognised. */
  function GroupKey(e: Entry, dims: seq<string>): Option<string> {
    if dims == [] then None
    else
      var n := |dims| - 1;
      match (GroupKey(e, dims[..n]), Part(e, dims[n]))
      case (None, p) => p
      case (Some(k), None) => Some(k)
      case (Some(k), Some(p)) => Some(k + "|" + p)
  }

  predicate Recognised(dims: seq<string>) {
    exists d :: d in dims && d in {"model", "key_id", "cache_hit", "cache_status", "backend_name", "client_kind"}
  }

  /** Whether an entry gets a group key depends on the dimensions asked for only. */
  lemma {:induction false} KeyedByDimensions(e: Entry, dims: seq<string>)
    ensures GroupKey(e, dims).Some? <==> Recognised(dims)
  {
    if dims != [] {
      var n := |dims| - 1;
      KeyedByDimensions(e, dims[..n]);
      assert dims == dims[..n] + [dims[n]];
      assert dims[n] in dims;
      assert forall d :: d in dims <==> d in dims[..n] || d == dims[n];
    }
  }

  /** What two entries must have in common to get the same part for a dimension; a missing value has a stand-in. */
  predicate Alike(a: Entry, b: Entry, dim: string) {
    match dim
    case "model" => a.model == b.model
    case "key_id" => OrElse(KeyOf(a), "unknown") == OrElse(KeyOf(b), "unknown")
    case "cache_hit" => a.cacheHit == b.cacheHit
    case "cache_status" => a.cacheHit == b.cacheHit
    case "backend_name" => OrElse(a.backend, "unknown") == OrElse(b.backend, "unknown")
    case "client_kind" => OrElse(a.clientKind, "generic") == OrElse(b.clientKind, "generic")
    case _ => true
  }

  lemma Prefixed(head: string, x: string, y: string)
    ensures head + x == head + y <==> x == y
  {
    assert (head + x)[|head|..] == x && (head + y)[|head|..] == y;
  }

  lemma PartAlike(a: Entry, b: Entry, dim: string)
    ensures Part(a, dim) == Part(b, dim) <==> Alike(a, b, dim)
    ensures (dim == "cache_hit" || dim == "cache_status") ==> Part(a, dim) == Some(if a.cacheHit then "cache=HIT" else "cache=MISS")
  {
    Prefixed("model=", a.model, b.model);
    Prefixed("key_id=", OrElse(KeyOf(a), "unknown"), OrElse(KeyOf(b), "unknown"));
    Prefixed("backend=", OrElse(a.backend, "unknown"), OrElse(b.backend, "unknown"));
    Prefixed("client_kind=", OrElse(a.clientKind, "generic"), OrElse(b.clientKind, "generic"));
    assert "cache=" + "HIT" == "cache=HIT" && "cache=" + "MISS" == "cache=MISS" && |"cache=HIT"| != |"cache=MISS"|;
  }

  /** No value of the entry that may enter a group key contains the separator. */
  ghost predicate Barless(e: Entry) {
    && '|' !in e.model && '|' !in OrElse(KeyOf(e), "") && '|' !in OrElse(e.backend, "")
    && '|' !in OrElse(e.clientKind, "")
  }

  lemma BarInside(j: string, p: string, k: string, q: string)
    requires j + "|" + p == k + "|" + q && |p| < |q|
    ensures '|' in q
  {
    var s, t := j + "|" + p, k + "|" + q;
    assert s[|j|] == '|' && t[|j|] == q[|j| - |k| - 1];
  }

  lemma LastBar(j: string, p: string, k: string, q: string)
    requires j + "|" + p == k + "|" + q && '|' !in p && '|' !in q
    ensures j == k && p == q
  {
    var s, t := j + "|" + p, k + "|" + q;
    if |p| < |q| { BarInside(j, p, k, q); }
    if |q| < |p| { BarInside(k, q, j, p); }
    assert s[..|j|] == j && t[..|k|] == k && s[|j| + 1..] == p && t[|k| + 1..] == q;
  }

  lemma PartBarless(e: Entry, dim: string)
    requires Barless(e)
    ensures Part(e, dim).Some? ==> '|' !in Part(e, dim).value
  {
  }

  /**
   Entries alike in every dimension asked for share a series, and as long as no value contains the separator
   only they do.
   */
  lemma {:induction false} SameSeriesExactly(a: Entry, b: Entry, dims: seq<string>)
    ensures (forall d :: d in dims ==> Alike(a, b, d)) ==> GroupKey(a, dims) == GroupKey(b, dims)
    ensures Barless(a) && Barless(b) && GroupKey(a, dims) == GroupKey(b, dims) ==> forall d :: d in dims ==> Alike(a, b, d)
  {
    if dims != [] {
      var n := |dims| - 1;
      var front, dim := dims[..n], dims[n];
      assert forall d :: d in dims <==> d in front || d == dim;
      SameSeriesExactly(a, b, front);
      PartAlike(a, b, dim);
      if Barless(a) && Barless(b) && GroupKey(a, dims) == GroupKey(b, dims) {
        KeyedByDimensions(a, front);
        KeyedByDimensions(b, front);
        PartBarless(a, dim);
        PartBarless(b, dim);
        if GroupKey(a, front).Some? && Part(a, dim).Some? {
          LastBar(GroupKey(a, front).value, Part(a, dim).value, GroupKey(b, front).value, Part(b, dim).value);
        }
      }
    }
  }

  lemma ModelThenKey(e: Entry)
    ensures GroupKey(e, ["model", "key_id"]) ==
            Some("model=" + e.model + "|" + ("key_id=" + OrElse(KeyOf(e), "unknown")))
  {
    var one, two := ["model"], ["model", "key_id"];
    assert two[..1] == one && two[1] == "key_id" && one[..0] == [] && one[0] == "model";
    assert GroupKey(e, one) == Part(e, "model");
  }

  /** With the separator in a model's name, requests of two models and two keys end up in one series. */
  lemma BarredSeriesMerge(e: Entry, x: string, y: string, z: string)
    ensures var a, b := e.(model := x + "|key_id=" + y, upstreamKey := Some(z)),
                        e.(model := x, upstreamKey := Some(y + "|key_id=" + z));
            GroupKey(a, ["model", "key_id"]) == GroupKey(b, ["model", "key_id"]) && !Alike(a, b, "model")
  {
    var a, b := e.(model := x + "|key_id=" + y, upstreamKey := Some(z)),
                e.(model := x, upstreamKey := Some(y + "|key_id=" + z));
    ModelThenKey(a);
    ModelThenKey(b);
    assert "|key_id=" == "|" + "key_id=";
    assert "model=" + a.model + "|" + ("key_id=" + z) == "model=" + x + "|" + ("key_id=" + (y + "|key_id=" + z));
    assert |a.model| != |b.model|;
  }

  // ---------------------------------------------------------------------------
  // The window
  // ---------------------------------------------------------------------------

  function Place(e: Entry, q: Query, size: nat): Placed
    requires size > 0
  {
    Placed(e.ts / size, GroupKey(e, q.dims), e)
  }

  /** Entries that match, in order, each in its bucket and group. */
  function Matching(es: seq<Entry>, q: Query, size: nat): seq<Placed>
    requires size > 0
  {
    if es == [] then []
    else
      var n := |es| - 1;
      if Matches(q, es[n]) then Matching(es[..n], q, size) + [Place(es[n], q, size)] else Matching(es[..n], q, size)
  }

  /** Entries that match and are no older than `start`. */
  function Window(es: seq<Entry>, q: Query, start: nat, size: nat): seq<Placed>
    requires size > 0
  {
    From(Matching(es, q, size), start)
  }

  /** Entries a chart drawn at `now` shows: up to the end of the bucket being filled, and no later. */
  function Shown(es: seq<Entry>, q: Query, start: nat, now: nat, size: nat): seq<Placed>
    requires size > 0
  {
    Within(Matching(es, q, size), start, (now / size + 1) * size)
  }

  lemma DivBounds(a: nat, b: nat, size: nat)
    requires size > 0
    ensures a <= b ==> a / size <= b / size
    ensures a < (b / size + 1) * size <==> a / size < b / size + 1
  {
    var x, y := a / size, b / size;
    assert a == x * size + a % size && b == y * size + b % size;
    if x <= y {
      assert x * size <= y * size;
      assert (y + 1) * size == y * size + size;
    } else {
      assert x * size >= (y + 1) * size;
      assert (y + 1) * size == y * size + size;
    }
  }

  lemma WithinBuckets(ts: nat, start: nat, now: nat, size: nat)
    requires size > 0
    ensures start <= ts ==> (ts < (now / size + 1) * size <==> start / size <= ts / size < now / size + 1)
  {
    DivBounds(ts, now, size);
    DivBounds(start, ts, size);
  }

  lemma {:induction false} MatchingPlaced(es: seq<Entry>, q: Query, size: nat)
    requires size > 0
    ensures forall i :: 0 <= i < |Matching(es, q, size)| ==>
              Matching(es, q, size)[i] == Place(Matching(es, q, size)[i].entry, q, size)
  {
    if es != [] { MatchingPlaced(es[..|es| - 1], q, size); }
  }

  /** The chart's buckets cover exactly the entries shown. */
  lemma ShownIsBetween(es: seq<Entry>, q: Query, start: nat, now: nat, size: nat)
    requires size > 0
    ensures Shown(es, q, start, now, size) ==
            Between(Window(es, q, start, size), start / size, now / size + 1)
  {
    var ps := Matching(es, q, size);
    MatchingPlaced(es, q, size);
    forall i | 0 <= i < |ps| && start <= ps[i].entry.ts
      ensures ps[i].entry.ts < (now / size + 1) * size <==> start / size <= ps[i].bucket < now / size + 1
    {
      WithinBuckets(ps[i].entry.ts, start, now, size);
    }
    WithinIsBetween(ps, start, (now / size + 1) * size, start / size, now / size + 1);
  }

  /** Why a chart from `start` to `end` does not show an entry: consumer, key, session or time. */
  predicate LeftOut(q: Query, e: Entry, start: nat, end: nat) {
    || (q.consumer != "*" && (e.consumer.None? || e.consumer.value != q.consumer))
    || (q.keyId != "" && e.upstreamKey != Some(q.keyId) && (e.upstreamKey.Some? || e.clientKey != Some(q.keyId)))
    || (q.session != "" && (e.session.None? || e.session.value != q.session))
    || e.ts < start || end <= e.ts
  }

  function EntriesOf(ps: seq<Placed>): seq<Entry> {
    if ps == [] then [] else EntriesOf(ps[..|ps| - 1]) + [ps[|ps| - 1].entry]
  }

  lemma LeftOutExactly(q: Query, e: Entry, start: nat, end: nat)
    ensures !LeftOut(q, e, start, end) <==> Matches(q, e) && start <= e.ts < end
  {
  }

  /** One more placed entry counts once if it lies within. */
  lemma OneMoreWithin(ps: seq<Placed>, p: Placed, start: nat, end: nat, e: Entry)
    ensures Times(ps + [p], start, end, e) ==
            Times(ps, start, end, e) + if start <= p.entry.ts < end && p.entry == e then 1 else 0
  {
    var w := Within(ps, start, end);
    assert (ps + [p])[..|ps|] == ps && (w + [p])[..|w|] == w;
  }

  ghost function Times(ps: seq<Placed>, start: nat, end: nat, e: Entry): nat {
    multiset(EntriesOf(Within(ps, start, end)))[e]
  }

  lemma {:induction false} WithinCounts(entries: seq<Entry>, q: Query, start: nat, end: nat, size: nat, e: Entry)
    requires size > 0
    ensures Times(Matching(entries, q, size), start, end, e) == if LeftOut(q, e, start, end) then 0 else multiset(entries)[e]
  {
    if entries == [] {
      assert Matching(entries, q, size) == [];
    } else {
      var n := |entries| - 1;
      var front, last := Matching(entries[..n], q, size), entries[n];
      WithinCounts(entries[..n], q, start, end, size, e);
      LeftOutExactly(q, e, start, end);
      assert entries == entries[..n] + [last];
      assert multiset(entries)[e] == multiset(entries[..n])[e] + if last == e then 1 else 0;
      if Matches(q, last) {
        assert Matching(entries, q, size) == front + [Place(last, q, size)];
        OneMoreWithin(front, Place(last, q, size), start, end, e);
      } else {
        assert Matching(entries, q, size) == front;
      }
    }
  }

  /** An entry is shown as often as it was logged, unless the query leaves it out. */
  lemma ShownExactly(entries: seq<Entry>, q: Query, start: nat, now: nat, size: nat, e: Entry)
    requires size > 0
    ensures multiset(EntriesOf(Shown(entries, q, start, now, size)))[e] ==
            if LeftOut(q, e, start, (now / size + 1) * size) then 0 else multiset(entries)[e]
  {
    WithinCounts(entries, q, start, (now / size + 1) * size, size, e);
  }

  lemma {:induction false} MatchingKeyed(es: seq<Entry>, q: Query, size: nat)
    requires size > 0
    ensures forall p :: p in Matching(es, q, size) ==> (p.group.Some? <==> Recognised(q.dims))
  {
    if es != [] {
      MatchingKeyed(es[..|es| - 1], q, size);
      KeyedByDimensions(es[|es| - 1], q.dims);
    }
  }

  /** Grouping by a recognised dimension leaves no entry without a series; any other gives no series at all. */
  lemma WindowGrouped(es: seq<Entry>, q: Query, start: nat, size: nat)
    requires size > 0
    ensures Recognised(q.dims) ==> AllGrouped(Window(es, q, start, size))
    ensures !Recognised(q.dims) ==> forall g :: OfGroup(Window(es, q, start, size), g) == []
  {
    var w := Window(es, q, start, size);
    MatchingKeyed(es, q, size);
    FromKeeps(Matching(es, q, size), start);
    forall i | 0 <= i < |w| ensures w[i].group.Some? <==> Recognised(q.dims) {
      assert w[i] in w;
    }
    forall g | !Recognised(q.dims) ensures OfGroup(w, g) == [] {
      NoGroup(w, g);
    }
  }

  /** Bucket by bucket the series, before the cut, add up to the global bucket exactly when entries get group keys. */
  lemma SeriesPartitionExactly(entries: seq<Entry>, q: Query, start: nat, size: nat,
                               acc: Tally, series: map<string, Tally>, b: nat)
    requires size > 0
    requires Tallied(acc, Window(entries, q, start, size)) && SeriesTallied(series, Window(entries, q, start, size))
    ensures var here := InBucket(Window(entries, q, start, size), b);
            Slot(acc, b) == GroupSum(here, series.Keys) <==> Recognised(q.dims) || here == []
  {
    var w := Window(entries, q, start, size);
    WindowGrouped(entries, q, start, size);
    SlotIsFold(acc, w, b);
    FoldCounts(InBucket(w, b));
    if Recognised(q.dims) {
      SeriesPartitionBuckets(acc, series, w, b);
    } else {
      assert forall g :: g !in series;
      assert series.Keys == {};
    }
  }

  /** One pass over the entries fills the global and the per-group buckets. */
  method Collect(entries: seq<Entry>, q: Query, start: nat, size: nat)
    returns (acc: Tally, series: map<string, Tally>, latest: Option<Entry>)
    requires size > 0
    ensures Tallied(acc, Window(entries, q, start, size))
    ensures SeriesTallied(series, Window(entries, q, start, size))
    ensures LatestOf(latest, Window(entries, q, start, size))
  {
    acc, series, latest := map[], map[], None;
    var n := 0;
    while n < |entries|
      invariant 0 <= n <= |entries|
      invariant Tallied(acc, Window(entries[..n], q, start, size))
      invariant SeriesTallied(series, Window(entries[..n], q, start, size))
      invariant LatestOf(latest, Window(entries[..n], q, start, size))
    {
      var e := entries[n];
      ghost var seen := Window(entries[..n], q, start, size);
      assert entries[..n + 1][..n] == entries[..n];
      n := n + 1;
      if !Matches(q, e) { continue; }
      if start <= e.ts {
        var p := Place(e, q, size);
        LatestStep(latest, seen, p);
        TalliedStep(acc, seen, p);
        SeriesStep(series, seen, p);
        if latest.None? || latest.value.ts < e.ts {
          latest := Some(e);
        }
        acc := acc[p.bucket := Accumulate(Slot(acc, p.bucket), p)];
        series := FiledUnder(series, p.group, p);
      }
    }
    assert entries[..n] == entries;
  }

  // ---------------------------------------------------------------------------
  // The response
  // ---------------------------------------------------------------------------

  datatype Response = Response(windowSecs: nat, bucketSecs: nat, buckets: seq<Bucket>, summary: Summary,
                               latest: Option<Entry>, series: seq<Series>)

  /**
   * The whole aggregation. The summary describes exactly the entries shown, each series the shown
   * entries of its group, and the busiest groups are the ones returned.
   */
  method AggregateLiveMetrics(entries: seq<Entry>, q: Query, window: nat, bucket: nat, now: nat)
    returns (r: Response)
    ensures 60 <= r.windowSecs <= 2_592_000 && (60 <= window <= 2_592_000 ==> r.windowSecs == window)
    ensures 5 <= r.bucketSecs <= 3600 && r.bucketSecs <= r.windowSecs
    ensures 5 <= bucket <= 3600 && bucket <= r.windowSecs ==> r.bucketSecs == bucket
    ensures r.windowSecs == WindowSecs(window) && r.bucketSecs == BucketSecs(window, bucket)
    ensures Answers(r, entries, q, SatSub(now, r.windowSecs * 1000), now, r.bucketSecs * 1000)
  {
    var w, b := WindowSecs(window), BucketSecs(window, bucket);
    r := Aggregated(entries, q, SatSub(now, w * 1000), now, b * 1000);
    r := r.(windowSecs := w, bucketSecs := b);
  }

  /** Buckets, summary, latest entry and series as the entries themselves give them. */
  ghost predicate Answers(r: Response, entries: seq<Entry>, q: Query, start: nat, now: nat, size: nat)
    requires size > 0
  {
    var es, lo, hi := Window(entries, q, start, size), start / size, now / size;
    && |r.buckets| == hi + 1 - lo && Charts(r.buckets, es, size, lo)
    && Describes(r.summary, Shown(entries, q, start, now, size))
    && LatestOf(r.latest, es)
    && SeriesOk(r.series, es, size, lo, hi)
  }

  method Aggregated(entries: seq<Entry>, q: Query, start: nat, now: nat, size: nat) returns (r: Response)
    requires size > 0 && start <= now
    ensures Answers(r, entries, q, start, now, size)
  {
    DivBounds(start, now, size);
    ghost var es := Window(entries, q, start, size);
    var lo, hi := start / size, now / size;
    ShownIsBetween(entries, q, start, now, size);
    var acc, tallies, latest := Collect(entries, q, start, size);
    var buckets, summary := ChartAndSummarize(acc, es, size, lo, hi);
    var series := BuildSeries(tallies, es, size, lo, hi);
    r := Response(0, 0, buckets, summary, latest, series);
  }
}
