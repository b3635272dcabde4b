/** Hourly request totals per model, kept incrementally behind a watermark with a two-hour look-back. */
module PeakHours {
  import opened Common
  import opened Sums

  const HOUR: nat := 3_600_000
  const LOOKBACK: nat := 7_200_000
  const LOAD_LIMIT: nat := 100_000

  datatype Entry = Entry(model: string, ts: nat, input: nat, output: nat)

  type Key = (string, nat)  // model, start of the hour

  datatype Row = Row(count: nat, input: nat, output: nat)

  type Table = map<Key, Row>

  function Hour(ts: nat): nat {
    (ts / HOUR) * HOUR
  }

  function KeyOf(e: Entry): Key {
    (e.model, Hour(e.ts))
  }

  // ---------------------------------------------------------------------------
  // The specification: a full group-by
  // ---------------------------------------------------------------------------

  /** Which entries count towards `k`. */
  predicate Counts(e: Entry, since: nat, k: Key) {
    e.ts >= since && KeyOf(e) == k
  }

  ghost function RowOf(entries: seq<Entry>, since: nat, k: Key): Row {
    Row(Sum(entries, (e: Entry) => if Counts(e, since, k) then 1 else 0),
        Sum(entries, (e: Entry) => if Counts(e, since, k) then e.input else 0),
        Sum(entries, (e: Entry) => if Counts(e, since, k) then e.output else 0))
  }

  function KeysOf(entries: seq<Entry>, since: nat): set<Key> {
    set e | e in entries && e.ts >= since :: KeyOf(e)
  }

  ghost function GroupBy(entries: seq<Entry>, since: nat): Table {
    map k | k in KeysOf(entries, since) :: RowOf(entries, since, k)
  }

  // ---------------------------------------------------------------------------
  // The incremental pass
  // ---------------------------------------------------------------------------

  /** The largest hour in the table; 0 when it is empty. */
  ghost function Watermark(t: Table): nat {
    MaxHour(Hours(t))
  }

  function Hours(t: Table): set<nat> {
    set k | k in t :: k.1
  }

  ghost function MaxHour(hours: set<nat>): (m: nat)
    ensures forall h :: h in hours ==> h <= m
    ensures m == 0 || m in hours
  {
    if hours == {} then 0
    else
      var h :| h in hours;
      var m := MaxHour(hours - {h});
      assert forall x :: x in hours ==> x == h || x in hours - {h};
      Max(h, m)
  }

  /** Entries from here on are aggregated again. */
  ghost function Since(t: Table): nat {
    SatSub(Watermark(t), LOOKBACK)
  }

  ghost predicate Aligned(t: Table) {
    forall k :: k in t ==> k.1 % HOUR == 0
  }

  method AggregateEntries(entries: seq<Entry>, since: nat) returns (buckets: Table)
    ensures buckets == GroupBy(entries, since)
  {
    buckets := map[];
    for n := 0 to |entries|
      invariant buckets == GroupBy(entries[..n], since)
    {
      var e := entries[n];
      GroupByStep(entries[..n + 1], since);
      assert entries[..n + 1][..n] == entries[..n];
      if e.ts < since {
        continue;
      }
      var k := KeyOf(e);
      var slot := if k in buckets then buckets[k] else Row(0, 0, 0);
      buckets := buckets[k := Plus(slot, e)];
    }
    assert entries[..|entries|] == entries;
  }

  lemma NoEntriesNoRow(entries: seq<Entry>, since: nat, k: Key)
    requires forall e :: e in entries ==> !Counts(e, since, k)
    ensures RowOf(entries, since, k) == Row(0, 0, 0)
  {
    SumZero(entries, (e: Entry) => if Counts(e, since, k) then 1 else 0);
    SumZero(entries, (e: Entry) => if Counts(e, since, k) then e.input else 0);
    SumZero(entries, (e: Entry) => if Counts(e, since, k) then e.output else 0);
  }

  function Plus(row: Row, e: Entry): Row {
    Row(row.count + 1, row.input + e.input, row.output + e.output)
  }

  /** One more entry adds to its own row only. */
  lemma GroupByStep(entries: seq<Entry>, since: nat)
    requires entries != []
    ensures var front, e := entries[..|entries| - 1], entries[|entries| - 1];
            var g := GroupBy(front, since);
            GroupBy(entries, since) ==
            if e.ts < since then g
            else g[KeyOf(e) := Plus(if KeyOf(e) in g then g[KeyOf(e)] else Row(0, 0, 0), e)]
  {
    var front, e := entries[..|entries| - 1], entries[|entries| - 1];
    forall k ensures RowOf(entries, since, k) ==
                     if Counts(e, since, k) then Plus(RowOf(front, since, k), e) else RowOf(front, since, k)
    {
    }
    if KeyOf(e) !in KeysOf(front, since) {
      forall x | x in front ensures !Counts(x, since, KeyOf(e)) {
        assert x.ts >= since ==> KeyOf(x) in KeysOf(front, since);
      }
      NoEntriesNoRow(front, since, KeyOf(e));
    }
  }

  // ---------------------------------------------------------------------------
  // A pass is exact when the table was right below the look-back
  // ---------------------------------------------------------------------------

  lemma SinceAligned(t: Table)
    requires Aligned(t)
    ensures Since(t) % HOUR == 0
  {
    assert Watermark(t) in Hours(t) ==> Watermark(t) % HOUR == 0;
  }

  lemma HourCut(ts: nat, since: nat)
    requires since % HOUR == 0
    ensures ts >= since <==> Hour(ts) >= since
  {
  }

  /** Cutting at the start of an hour keeps whole rows: those at or after the cut. */
  lemma GroupByCut(log: seq<Entry>, since: nat)
    requires since % HOUR == 0
    ensures GroupBy(log, since) == map k | k in GroupBy(log, 0) && k.1 >= since :: GroupBy(log, 0)[k]
  {
    forall e | e in log ensures e.ts >= since <==> Hour(e.ts) >= since {
      HourCut(e.ts, since);
    }
    forall k ensures k in KeysOf(log, since) <==> k in KeysOf(log, 0) && k.1 >= since {
    }
    forall k: Key | k.1 >= since ensures RowOf(log, since, k) == RowOf(log, 0, k) {
      RowCut(log, since, k);
    }
  }

  lemma RowCut(log: seq<Entry>, since: nat, k: Key)
    requires since % HOUR == 0 && k.1 >= since
    ensures RowOf(log, since, k) == RowOf(log, 0, k)
  {
    forall e | e in log ensures Counts(e, since, k) <==> Counts(e, 0, k) {
      HourCut(e.ts, since);
    }
    SumCongruent(log, (e: Entry) => if Counts(e, since, k) then 1 else 0,
                 (e: Entry) => if Counts(e, 0, k) then 1 else 0);
    SumCongruent(log, (e: Entry) => if Counts(e, since, k) then e.input else 0,
                 (e: Entry) => if Counts(e, 0, k) then e.input else 0);
    SumCongruent(log, (e: Entry) => if Counts(e, since, k) then e.output else 0,
                 (e: Entry) => if Counts(e, 0, k) then e.output else 0);
  }

  ghost predicate SameRow(t: Table, u: Table, k: Key) {
    (k in t <==> k in u) && (k in t ==> t[k] == u[k])
  }

  ghost predicate AgreeBelow(t: Table, u: Table, hour: nat) {
    forall k: Key :: k.1 < hour ==> SameRow(t, u, k)
  }

  /** A completed pass over all entries at or after `since`. */
  ghost function PassFrom(t: Table, log: seq<Entry>, since: nat): Table {
    t + GroupBy(log, since)
  }

  /** A completed pass over all entries at or after the look-back. */
  ghost function Completed(t: Table, log: seq<Entry>): Table {
    PassFrom(t, log, Since(t))
  }

  /** Nothing in the table that the log does not explain. */
  ghost predicate NoStrayRows(t: Table, log: seq<Entry>) {
    forall k :: k in t ==> k in KeysOf(log, 0)
  }

  /** `u` written over `t` at hours from `since` on. */
  ghost function Overlay(t: Table, u: Table, since: nat): Table {
    t + map k | k in u && k.1 >= since :: u[k]
  }

  lemma OverlayExact(t: Table, full: Table, since: nat)
    requires t.Keys <= full.Keys
    ensures Overlay(t, full, since) == full <==> AgreeBelow(t, full, since)
  {
    var done := Overlay(t, full, since);
    if done == full {
      forall k: Key | k.1 < since ensures SameRow(t, full, k) {
        assert k in t <==> k in done;
      }
    }
    if AgreeBelow(t, full, since) {
      forall k | k in full ensures k in done && done[k] == full[k] {
        if k.1 < since { assert SameRow(t, full, k); }
      }
      assert done.Keys == full.Keys;
    }
  }

  lemma CompletedOverlays(t: Table, log: seq<Entry>)
    requires Aligned(t)
    ensures Completed(t, log) == Overlay(t, GroupBy(log, 0), Since(t))
  {
    GroupByCut(log, Since(t));
  }

  /** From any table: the pass yields the full group-by exactly when the old rows were right. */
  lemma PassExact(t: Table, log: seq<Entry>)
    requires Aligned(t) && NoStrayRows(t, log)
    ensures Completed(t, log) == GroupBy(log, 0) <==> AgreeBelow(t, GroupBy(log, 0), Since(t))
  {
    CompletedOverlays(t, log);
    OverlayExact(t, GroupBy(log, 0), Since(t));
  }

  lemma GroupByAligned(log: seq<Entry>, since: nat)
    ensures Aligned(GroupBy(log, since))
  {
  }

  /** Late entries are exactly what the look-back can miss. */
  lemma AppendThenPass(log: seq<Entry>, batch: seq<Entry>)
    ensures var t := GroupBy(log, 0);
            Completed(t, log + batch) == GroupBy(log + batch, 0) <==>
            forall e :: e in batch ==> e.ts + 7_200_000 >= Watermark(t)
  {
    var t, full := GroupBy(log, 0), GroupBy(log + batch, 0);
    var since := Since(t);
    GroupByAligned(log, 0);
    SinceAligned(t);
    PassExact(t, log + batch);
    if forall e :: e in batch ==> e.ts >= since {
      forall k: Key | k.1 < since ensures SameRow(t, full, k) {
        forall e | e in batch ensures !Counts(e, 0, k) { HourCut(e.ts, since); }
        RowAppend(log, batch, k);
        NoEntriesNoRow(batch, 0, k);
      }
    }
    forall e | e in batch && e.ts < since ensures !SameRow(t, full, KeyOf(e)) && KeyOf(e).1 < since {
      HourCut(e.ts, since);
      RowAppend(log, batch, KeyOf(e));
      HasEntryHasRow(batch, 0, e);
      assert e in log + batch;
    }
  }

  lemma RowAppend(a: seq<Entry>, b: seq<Entry>, k: Key)
    ensures var r, s := RowOf(a, 0, k), RowOf(b, 0, k);
            RowOf(a + b, 0, k) == Row(r.count + s.count, r.input + s.input, r.output + s.output)
  {
    SumAppend(a, b, (e: Entry) => if Counts(e, 0, k) then 1 else 0);
    SumAppend(a, b, (e: Entry) => if Counts(e, 0, k) then e.input else 0);
    SumAppend(a, b, (e: Entry) => if Counts(e, 0, k) then e.output else 0);
  }

  lemma {:induction false} HasEntryHasRow(entries: seq<Entry>, since: nat, e: Entry)
    requires e in entries && e.ts >= since
    ensures RowOf(entries, since, KeyOf(e)).count > 0
  {
    if entries[|entries| - 1] != e {
      assert e in entries[..|entries| - 1];
      HasEntryHasRow(entries[..|entries| - 1], since, e);
    }
  }

  // ---------------------------------------------------------------------------
  // Passes cut short
  // ---------------------------------------------------------------------------

  /** Rows are written one at a time: a pass cut short leaves only `written` in the table. */
  ghost function CutShort(t: Table, log: seq<Entry>, written: set<Key>): Table {
    t + Restrict(GroupBy(log, Since(t)), written)
  }

  /** Rows the pass left out are as they were; the others are right. */
  lemma CutShortRow(t: Table, log: seq<Entry>, written: set<Key>, k: Key)
    requires Aligned(t) && NoStrayRows(t, log) && AgreeBelow(t, GroupBy(log, 0), Since(t))
    ensures SameRow(CutShort(t, log, written), GroupBy(log, 0), k) <==>
            (k in GroupBy(log, 0) && k !in written ==> SameRow(t, GroupBy(log, 0), k))
  {
    SinceAligned(t);
    GroupByCut(log, Since(t));
    if k.1 < Since(t) { assert SameRow(t, GroupBy(log, 0), k); }
  }

  lemma CutShortTable(t: Table, log: seq<Entry>, written: set<Key>)
    requires Aligned(t) && NoStrayRows(t, log)
    ensures Aligned(CutShort(t, log, written)) && NoStrayRows(CutShort(t, log, written), log)
  {
    SinceAligned(t);
    GroupByCut(log, Since(t));
    GroupByAligned(log, Since(t));
  }

  /** Below an hour the cut-short table is right exactly when the rows it left out there were. */
  lemma CutShortAgrees(t: Table, log: seq<Entry>, written: set<Key>, hour: nat)
    requires Aligned(t) && NoStrayRows(t, log) && AgreeBelow(t, GroupBy(log, 0), Since(t))
    ensures AgreeBelow(CutShort(t, log, written), GroupBy(log, 0), hour) <==>
            forall k :: k in GroupBy(log, 0) && k !in written && k.1 < hour ==> SameRow(t, GroupBy(log, 0), k)
  {
    forall k: Key
      ensures SameRow(CutShort(t, log, written), GroupBy(log, 0), k) <==>
              (k in GroupBy(log, 0) && k !in written ==> SameRow(t, GroupBy(log, 0), k))
    {
      CutShortRow(t, log, written, k);
    }
  }

  /** The next pass repairs a cut-short one exactly when what it left out is within the new look-back. */
  lemma CutShortRepaired(t: Table, log: seq<Entry>, written: set<Key>)
    requires Aligned(t) && NoStrayRows(t, log) && Completed(t, log) == GroupBy(log, 0)
    ensures var u := CutShort(t, log, written);
            Completed(u, log) == GroupBy(log, 0) <==>
            forall k :: k in GroupBy(log, 0) && k !in written && k.1 < Since(u) ==> SameRow(t, GroupBy(log, 0), k)
  {
    var u, full := CutShort(t, log, written), GroupBy(log, 0);
    PassExact(t, log);
    CutShortTable(t, log, written);
    PassExact(u, log);
    CutShortAgrees(t, log, written, Since(u));
  }

  /** Any later passes that read the watermark, each over any entries and each completed or cut short. */
  ghost function Later(t: Table, passes: seq<(seq<Entry>, set<Key>)>): Table {
    if passes == [] then t
    else
      var n := |passes| - 1;
      CutShort(Later(t, passes[..n]), passes[n].0, passes[n].1)
  }

  lemma PassKeepsBelow(t: Table, entries: seq<Entry>, written: set<Key>)
    requires Aligned(t)
    ensures var u := CutShort(t, entries, written);
            Aligned(u) && Since(u) >= Since(t) && AgreeBelow(t, u, Since(t))
  {
    var u := CutShort(t, entries, written);
    SinceAligned(t);
    GroupByAligned(entries, Since(t));
    forall k | k in GroupBy(entries, Since(t)) ensures k.1 >= Since(t) {
      var e :| e in entries && e.ts >= Since(t) && KeyOf(e) == k;
      HourCut(e.ts, Since(t));
    }
    forall h | h in Hours(t) ensures h in Hours(u) {
      var k :| k in t && k.1 == h;
      assert k in u;
    }
  }

  /** The watermark only grows, so rows below the look-back are never touched again. */
  lemma {:induction false} FrozenBelow(t: Table, passes: seq<(seq<Entry>, set<Key>)>)
    requires Aligned(t)
    ensures Aligned(Later(t, passes)) && Since(Later(t, passes)) >= Since(t)
    ensures AgreeBelow(t, Later(t, passes), Since(t))
  {
    if passes != [] {
      var n := |passes| - 1;
      var u := Later(t, passes[..n]);
      FrozenBelow(t, passes[..n]);
      PassKeepsBelow(u, passes[n].0, passes[n].1);
      forall k: Key | k.1 < Since(t) ensures SameRow(t, Later(t, passes), k) {
        assert SameRow(t, u, k) && SameRow(u, Later(t, passes), k);
      }
    }
  }

  /** A pass that wrote row `j` but not row `k`, more than the look-back older, leaves `k` as it was for good. */
  lemma EarlyWatermarkHidesRows(t: Table, log: seq<Entry>, written: set<Key>, j: Key, k: Key,
                                passes: seq<(seq<Entry>, set<Key>)>)
    requires Aligned(t) && j in GroupBy(log, Since(t)) && j in written
    requires k !in written && k.1 + LOOKBACK < j.1
    ensures SameRow(t, Later(CutShort(t, log, written), passes), k)
    ensures k in KeysOf(log, 0) && k !in t ==> Later(CutShort(t, log, written), passes) != GroupBy(log, 0)
  {
    var u := CutShort(t, log, written);
    PassKeepsBelow(t, log, written);
    WatermarkBound(u, j);
    FrozenBelow(u, passes);
    assert SameRow(u, Later(u, passes), k);
  }

  lemma WatermarkBound(t: Table, k: Key)
    requires k in t
    ensures k.1 <= Watermark(t)
  {
    assert k.1 in Hours(t);
  }

  // ---------------------------------------------------------------------------
  // Loading: the newest entries, at most LOAD_LIMIT of them
  // ---------------------------------------------------------------------------

  /** `entries` are the newest of the log, `rest` what the limit cut off. */
  ghost predicate Loads(log: seq<Entry>, entries: seq<Entry>, rest: seq<Entry>) {
    && multiset(entries + rest) == multiset(log)
    && |entries| <= LOAD_LIMIT && (rest != [] ==> |entries| == LOAD_LIMIT)
    && (forall a, b :: a in entries && b in rest ==> a.ts >= b.ts)
  }

  function Recent(since: nat): Entry -> nat {
    (e: Entry) => if e.ts >= since then 1 else 0
  }

  lemma {:induction false} AllRecent(entries: seq<Entry>, since: nat)
    requires forall e :: e in entries ==> e.ts >= since
    ensures Sum(entries, Recent(since)) == |entries|
  {
    if entries != [] {
      assert entries[|entries| - 1] in entries;
      AllRecent(entries[..|entries| - 1], since);
    }
  }

  lemma {:induction false} SomeRecent(entries: seq<Entry>, e: Entry, since: nat)
    requires e in entries && e.ts >= since
    ensures Sum(entries, Recent(since)) > 0
  {
    if entries[|entries| - 1] != e {
      SomeRecent(entries[..|entries| - 1], e, since);
    }
  }

  lemma {:induction false} RecentAtMost(entries: seq<Entry>, since: nat)
    ensures Sum(entries, Recent(since)) <= |entries|
    ensures (forall e :: e in entries ==> e.ts < since) ==> Sum(entries, Recent(since)) == 0
  {
    if entries != [] {
      assert entries[|entries| - 1] in entries;
      RecentAtMost(entries[..|entries| - 1], since);
    }
  }

  /** The limit cuts off nothing that matters exactly while at most LOAD_LIMIT entries are recent. */
  lemma LimitKeepsRecent(log: seq<Entry>, entries: seq<Entry>, rest: seq<Entry>, since: nat)
    requires Loads(log, entries, rest)
    ensures (forall e :: e in rest ==> e.ts < since) <==> Sum(log, Recent(since)) <= LOAD_LIMIT
  {
    SumPermutes(entries + rest, log, Recent(since));
    SumAppend(entries, rest, Recent(since));
    RecentAtMost(entries, since);
    RecentAtMost(rest, since);
    if e :| e in rest && e.ts >= since {
      SomeRecent(rest, e, since);
      AllRecent(entries, since);
    }
  }

  /** What was loaded and what was cut off add up to the log, row by row. */
  lemma RowLoaded(log: seq<Entry>, entries: seq<Entry>, rest: seq<Entry>, since: nat, k: Key)
    requires multiset(entries + rest) == multiset(log)
    ensures var r, s := RowOf(entries, since, k), RowOf(rest, since, k);
            RowOf(log, since, k) == Row(r.count + s.count, r.input + s.input, r.output + s.output)
  {
    var f := (e: Entry) => if Counts(e, since, k) then 1 else 0;
    var g := (e: Entry) => if Counts(e, since, k) then e.input else 0;
    var h := (e: Entry) => if Counts(e, since, k) then e.output else 0;
    SumPermutes(entries + rest, log, f);
    SumPermutes(entries + rest, log, g);
    SumPermutes(entries + rest, log, h);
    SumAppend(entries, rest, f);
    SumAppend(entries, rest, g);
    SumAppend(entries, rest, h);
  }

  lemma KeyHasRow(entries: seq<Entry>, since: nat, k: Key)
    ensures k in KeysOf(entries, since) <==> RowOf(entries, since, k).count > 0
    ensures k !in KeysOf(entries, since) ==> RowOf(entries, since, k) == Row(0, 0, 0)
  {
    if k in KeysOf(entries, since) {
      var e :| e in entries && e.ts >= since && KeyOf(e) == k;
      HasEntryHasRow(entries, since, e);
    } else {
      forall e | e in entries ensures !Counts(e, since, k) {
        assert e.ts >= since ==> KeyOf(e) in KeysOf(entries, since);
      }
      NoEntriesNoRow(entries, since, k);
    }
  }

  lemma LoadedMembers(log: seq<Entry>, entries: seq<Entry>, rest: seq<Entry>)
    requires multiset(entries + rest) == multiset(log)
    ensures forall e :: e in log <==> e in entries || e in rest
  {
    forall e ensures e in log <==> e in entries || e in rest {
      assert e in multiset(entries + rest) <==> e in multiset(log);
    }
  }

  lemma LoadKeepsRows(log: seq<Entry>, entries: seq<Entry>, rest: seq<Entry>, since: nat)
    requires multiset(entries + rest) == multiset(log) && forall e :: e in rest ==> e.ts < since
    ensures GroupBy(entries, since) == GroupBy(log, since)
  {
    LoadedMembers(log, entries, rest);
    assert KeysOf(rest, since) == {};
    assert KeysOf(entries, since) == KeysOf(log, since);
    forall k ensures RowOf(entries, since, k) == RowOf(log, since, k) {
      RowLoaded(log, entries, rest, since, k);
      KeyHasRow(rest, since, k);
    }
  }

  lemma LoadLosesRow(log: seq<Entry>, entries: seq<Entry>, rest: seq<Entry>, since: nat, e: Entry)
    requires multiset(entries + rest) == multiset(log) && e in rest && e.ts >= since
    ensures GroupBy(entries, since) != GroupBy(log, since)
  {
    LoadedMembers(log, entries, rest);
    RowLoaded(log, entries, rest, since, KeyOf(e));
    HasEntryHasRow(rest, since, e);
    var some, all, k := GroupBy(entries, since), GroupBy(log, since), KeyOf(e);
    assert e in log && k in KeysOf(log, since) && k in all;
    assert k in some ==> some[k].count != all[k].count;
    assert !SameRow(some, all, k);
  }

  /** Aggregating what was loaded is aggregating the log exactly when at most LOAD_LIMIT entries are recent. */
  lemma LoadedIsEnough(log: seq<Entry>, entries: seq<Entry>, rest: seq<Entry>, since: nat)
    requires Loads(log, entries, rest)
    ensures GroupBy(entries, since) == GroupBy(log, since) <==> Sum(log, Recent(since)) <= LOAD_LIMIT
  {
    LimitKeepsRecent(log, entries, rest, since);
    if e :| e in rest && e.ts >= since {
      LoadLosesRow(log, entries, rest, since, e);
    } else {
      LoadKeepsRows(log, entries, rest, since);
    }
  }

  // ---------------------------------------------------------------------------
  // Whole runs over loads
  // ---------------------------------------------------------------------------

  /** What a pass cut off belongs to rows it leaves alone and nothing was added to. */
  ghost predicate LoadKeeps(entries: seq<Entry>, rest: seq<Entry>, batch: seq<Entry>, since: nat) {
    forall e :: e in rest && e.ts >= since ==> KeyOf(e) !in KeysOf(entries, since) && KeyOf(e) !in KeysOf(batch, 0)
  }

  /** A row the pass writes is right exactly when none of its entries was cut off. */
  lemma WrittenRow(all: seq<Entry>, entries: seq<Entry>, rest: seq<Entry>, since: nat, k: Key)
    requires multiset(entries + rest) == multiset(all) && since % HOUR == 0 && k in KeysOf(entries, since)
    ensures k in KeysOf(all, 0)
    ensures RowOf(entries, since, k) == RowOf(all, 0, k) <==> k !in KeysOf(rest, 0)
  {
    var e :| e in entries && e.ts >= since && KeyOf(e) == k;
    HourCut(e.ts, since);
    RowCut(entries, since, k);
    RowLoaded(all, entries, rest, 0, k);
    KeyHasRow(rest, 0, k);
    LoadedMembers(all, entries, rest);
  }

  /** A row the pass leaves alone is right exactly when nothing was added to it. */
  lemma UnwrittenRow(log: seq<Entry>, batch: seq<Entry>, k: Key)
    ensures SameRow(GroupBy(log, 0), GroupBy(log + batch, 0), k) <==> k !in KeysOf(batch, 0)
  {
    RowAppend(log, batch, k);
    KeyHasRow(log + batch, 0, k);
    KeyHasRow(log, 0, k);
    KeyHasRow(batch, 0, k);
  }

  lemma PassRow(log: seq<Entry>, batch: seq<Entry>, entries: seq<Entry>, rest: seq<Entry>, since: nat, k: Key)
    requires multiset(entries + rest) == multiset(log + batch) && since % HOUR == 0
    ensures SameRow(PassFrom(GroupBy(log, 0), entries, since), GroupBy(log + batch, 0), k) <==>
            if k in KeysOf(entries, since) then k !in KeysOf(rest, 0) else k !in KeysOf(batch, 0)
  {
    if k in KeysOf(entries, since) {
      WrittenRow(log + batch, entries, rest, since, k);
    } else {
      UnwrittenRow(log, batch, k);
    }
  }

  lemma SameTables(t: Table, u: Table)
    ensures t == u <==> forall k :: SameRow(t, u, k)
  {
    if forall k :: SameRow(t, u, k) {
      assert t.Keys == u.Keys by {
        forall k ensures k in t <==> k in u { assert SameRow(t, u, k); }
      }
      forall k | k in t ensures t[k] == u[k] { assert SameRow(t, u, k); }
    }
  }

  /**
   A pass from `since` over what the load returned, from a right table, is exact if and only if no new entry is
   older and the load cut no row the pass writes or the batch adds to.
   */
  lemma PassFromExact(log: seq<Entry>, batch: seq<Entry>, entries: seq<Entry>, rest: seq<Entry>, since: nat)
    requires Loads(log + batch, entries, rest) && since % HOUR == 0
    ensures PassFrom(GroupBy(log, 0), entries, since) == GroupBy(log + batch, 0) <==>
            (forall e :: e in batch ==> e.ts >= since) && LoadKeeps(entries, rest, batch, since)
  {
    var done, full := PassFrom(GroupBy(log, 0), entries, since), GroupBy(log + batch, 0);
    LoadedMembers(log + batch, entries, rest);
    SameTables(done, full);
    forall k ensures SameRow(done, full, k) <==>
                     if k in KeysOf(entries, since) then k !in KeysOf(rest, 0) else k !in KeysOf(batch, 0)
    {
      PassRow(log, batch, entries, rest, since, k);
    }
    if (forall e :: e in batch ==> e.ts >= since) && LoadKeeps(entries, rest, batch, since) {
      forall k ensures SameRow(done, full, k) {
        KeptRow(batch, entries, rest, since, k);
      }
    }
    if done == full {
      forall k ensures if k in KeysOf(entries, since) then k !in KeysOf(rest, 0) else k !in KeysOf(batch, 0) {
        assert SameRow(done, full, k);
      }
      ExactNeeds(batch, entries, rest, since);
    }
  }

  /** With the watermark read, `since` is the look-back. */
  lemma PassOverLoadExact(log: seq<Entry>, batch: seq<Entry>, entries: seq<Entry>, rest: seq<Entry>)
    requires Loads(log + batch, entries, rest)
    ensures var t := GroupBy(log, 0);
            Completed(t, entries) == GroupBy(log + batch, 0) <==>
            (forall e :: e in batch ==> e.ts >= Since(t)) && LoadKeeps(entries, rest, batch, Since(t))
  {
    GroupByAligned(log, 0);
    SinceAligned(GroupBy(log, 0));
    PassFromExact(log, batch, entries, rest, Since(GroupBy(log, 0)));
  }

  /** With the watermark unread the pass starts at 0 and spoils a right table if the load cut an hour it writes. */
  lemma UnreadWatermarkSpoils(log: seq<Entry>, entries: seq<Entry>, rest: seq<Entry>, e: Entry, x: Entry)
    requires Loads(log, entries, rest) && e in rest && x in entries && KeyOf(x) == KeyOf(e)
    ensures PassFrom(GroupBy(log, 0), entries, 0) != GroupBy(log, 0)
  {
    assert log + [] == log;
    PassFromExact(log, [], entries, rest, 0);
    assert KeyOf(x) in KeysOf(entries, 0);
  }

  lemma KeptRow(batch: seq<Entry>, entries: seq<Entry>, rest: seq<Entry>, since: nat, k: Key)
    requires since % HOUR == 0 && (forall e :: e in batch ==> e.ts >= since && (e in entries || e in rest))
    requires LoadKeeps(entries, rest, batch, since)
    ensures if k in KeysOf(entries, since) then k !in KeysOf(rest, 0) else k !in KeysOf(batch, 0)
  {
    if k in KeysOf(entries, since) {
      forall e | e in rest ensures KeyOf(e) != k {
      }
    } else {
      forall e | e in batch ensures KeyOf(e) != k {
        assert KeyOf(e) in KeysOf(batch, 0);
        assert e in entries ==> KeyOf(e) in KeysOf(entries, since);
      }
    }
  }

  lemma ExactNeeds(batch: seq<Entry>, entries: seq<Entry>, rest: seq<Entry>, since: nat)
    requires since % HOUR == 0
    requires forall k :: if k in KeysOf(entries, since) then k !in KeysOf(rest, 0) else k !in KeysOf(batch, 0)
    ensures (forall e :: e in batch ==> e.ts >= since) && LoadKeeps(entries, rest, batch, since)
  {
    forall e | e in batch ensures e.ts >= since {
      assert KeyOf(e) in KeysOf(batch, 0);
    }
    forall e | e in rest && e.ts >= since ensures KeyOf(e) !in KeysOf(entries, since) && KeyOf(e) !in KeysOf(batch, 0) {
      assert KeyOf(e) in KeysOf(rest, 0);
    }
  }

  /**
   New entries, then a pass: it loads `entries` and leaves `rest` unread, from the look-back or, when the watermark
   cannot be read, from 0. A pass whose load fails does nothing.
   */
  datatype Pass =
    | Pass(batch: seq<Entry>, entries: seq<Entry>, rest: seq<Entry>, watermarkRead: bool)
    | LoadFailed(batch: seq<Entry>)

  function Log(passes: seq<Pass>): seq<Entry> {
    if passes == [] then [] else Log(passes[..|passes| - 1]) + passes[|passes| - 1].batch
  }

  /** What the log held at the last pass that loaded anything. */
  function Seen(passes: seq<Pass>): seq<Entry> {
    if passes == [] then []
    else if passes[|passes| - 1].LoadFailed? then Seen(passes[..|passes| - 1])
    else Log(passes)
  }

  /** What has arrived since. */
  function Unseen(passes: seq<Pass>): seq<Entry> {
    if passes == [] || passes[|passes| - 1].Pass? then []
    else Unseen(passes[..|passes| - 1]) + passes[|passes| - 1].batch
  }

  lemma {:induction false} SeenAndUnseen(passes: seq<Pass>)
    ensures Log(passes) == Seen(passes) + Unseen(passes)
  {
    if passes != [] { SeenAndUnseen(passes[..|passes| - 1]); }
  }

  ghost function Start(t: Table, p: Pass): nat {
    if p.Pass? && p.watermarkRead then Since(t) else 0
  }

  ghost function TableAfter(passes: seq<Pass>): Table {
    if passes == [] then map[]
    else
      var t, p := TableAfter(passes[..|passes| - 1]), passes[|passes| - 1];
      if p.LoadFailed? then t else PassFrom(t, p.entries, Start(t, p))
  }

  ghost predicate Loaded(passes: seq<Pass>) {
    passes == [] ||
    var n := |passes| - 1;
    Loaded(passes[..n]) && (passes[n].Pass? ==> Loads(Log(passes), passes[n].entries, passes[n].rest))
  }

  /** After every pass the table is the group-by of all the log held at the last load. */
  ghost predicate ExactThroughout(passes: seq<Pass>) {
    TableAfter(passes) == GroupBy(Seen(passes), 0) && (passes == [] || ExactThroughout(passes[..|passes| - 1]))
  }

  /** The pass found what arrived since the last load new enough, and its load whole where it matters. */
  ghost predicate SoundPass(t: Table, arrivals: seq<Entry>, p: Pass)
    requires p.Pass?
  {
    (forall e :: e in arrivals ==> e.ts >= Start(t, p)) && LoadKeeps(p.entries, p.rest, arrivals, Start(t, p))
  }

  ghost predicate SoundThroughout(passes: seq<Pass>) {
    passes == [] ||
    var n := |passes| - 1;
    && SoundThroughout(passes[..n])
    && (passes[n].Pass? ==> SoundPass(TableAfter(passes[..n]), Unseen(passes[..n]) + passes[n].batch, passes[n]))
  }

  lemma PassStep(t: Table, seen: seq<Entry>, arrivals: seq<Entry>, log: seq<Entry>, p: Pass)
    requires p.Pass? && t == GroupBy(seen, 0) && log == seen + arrivals && Loads(log, p.entries, p.rest)
    ensures PassFrom(t, p.entries, Start(t, p)) == GroupBy(log, 0) <==> SoundPass(t, arrivals, p)
  {
    GroupByAligned(seen, 0);
    SinceAligned(t);
    PassFromExact(seen, arrivals, p.entries, p.rest, Start(t, p));
  }

  lemma LastArrivals(passes: seq<Pass>)
    requires passes != []
    ensures Log(passes) == Seen(passes[..|passes| - 1]) + (Unseen(passes[..|passes| - 1]) + passes[|passes| - 1].batch)
  {
    SeenAndUnseen(passes[..|passes| - 1]);
  }

  lemma LastPassStep(passes: seq<Pass>, front: seq<Pass>, p: Pass, t: Table)
    requires passes == front + [p] && p.Pass? && Loads(Log(passes), p.entries, p.rest)
    requires t == TableAfter(front) == GroupBy(Seen(front), 0)
    ensures TableAfter(passes) == GroupBy(Seen(passes), 0) <==> SoundPass(t, Unseen(front) + p.batch, p)
  {
    assert passes[..|passes| - 1] == front && passes[|passes| - 1] == p;
    LastArrivals(passes);
    PassStep(t, Seen(front), Unseen(front) + p.batch, Log(passes), p);
  }

  /**
   For every schedule of passes, every load and every failing watermark read or load, the table is always the full
   group-by exactly under that condition.
   */
  lemma {:induction false} IncrementalIsFull(passes: seq<Pass>)
    requires Loaded(passes)
    ensures ExactThroughout(passes) <==> SoundThroughout(passes)
  {
    if passes == [] {
      assert GroupBy([], 0) == map[];
    } else {
      var n := |passes| - 1;
      IncrementalIsFull(passes[..n]);
      if ExactThroughout(passes[..n]) && passes[n].Pass? {
        assert passes == passes[..n] + [passes[n]];
        LastPassStep(passes, passes[..n], passes[n], TableAfter(passes[..n]));
      }
    }
  }

  /** A pass that reads the watermark is sound when what is new is on time and at most LOAD_LIMIT entries are recent. */
  lemma SmallLoadsAreSound(t: Table, log: seq<Entry>, arrivals: seq<Entry>, p: Pass)
    requires p.Pass? && Loads(log, p.entries, p.rest)
    requires (forall e :: e in arrivals ==> e.ts >= Start(t, p)) && Sum(log, Recent(Start(t, p))) <= LOAD_LIMIT
    ensures SoundPass(t, arrivals, p)
  {
    LimitKeepsRecent(log, p.entries, p.rest, Start(t, p));
  }

  /** A first pass over a log longer than the load is never exact. */
  lemma LongFirstLoadMisses(log: seq<Entry>, entries: seq<Entry>, rest: seq<Entry>)
    requires Loads(log, entries, rest) && |log| > LOAD_LIMIT
    ensures Completed(map[], entries) != GroupBy(log, 0)
  {
    AllRecent(log, 0);
    LoadedIsEnough(log, entries, rest, 0);
    assert Completed(map[], entries) == GroupBy(entries, 0);
  }

  lemma {:induction false} OneKeyCounts(entries: seq<Entry>, since: nat, k: Key)
    requires forall e :: e in entries ==> Counts(e, since, k)
    ensures RowOf(entries, since, k).count == |entries|
  {
    if entries != [] {
      assert entries[|entries| - 1] in entries;
      OneKeyCounts(entries[..|entries| - 1], since, k);
    }
  }

  /**
   An hour that fills the load stops counting: whatever the log holds besides and whatever arrives, its row is
   written again with LOAD_LIMIT requests, short by those the load cut off.
   */
  lemma BusyHourStops(t: Table, log: seq<Entry>, entries: seq<Entry>, rest: seq<Entry>, k: Key)
    requires Aligned(t) && k.1 >= Since(t)
    requires Loads(log, entries, rest) && |entries| == LOAD_LIMIT && forall e :: e in entries ==> KeyOf(e) == k
    ensures k in Completed(t, entries) && Completed(t, entries)[k].count == LOAD_LIMIT
    ensures RowOf(log, 0, k).count == LOAD_LIMIT + RowOf(rest, 0, k).count
  {
    SinceAligned(t);
    forall e | e in entries ensures Counts(e, Since(t), k) {
      HourCut(e.ts, Since(t));
    }
    assert entries[0] in entries && k in KeysOf(entries, Since(t));
    OneKeyCounts(entries, Since(t), k);
    OneKeyCounts(entries, 0, k);
    RowLoaded(log, entries, rest, 0, k);
  }

  /** The stored table and the aggregation pass that maintains it. */
  class PeakHoursTable {
    var rows: Table

    constructor ()
      ensures rows == map[]
    {
      rows := map[];
    }

    method ReadWatermark() returns (w: nat)
      ensures w == Watermark(rows)
    {
      w := 0;
      var pending: set<Key> := rows.Keys;
      while pending != {}
        invariant pending <= rows.Keys
        invariant forall k :: k in rows && k !in pending ==> k.1 <= w
        invariant w == 0 || w in Hours(rows)
      {
        var k :| k in pending;
        if k.1 > w {
          w := k.1;
        }
        pending := pending - {k};
      }
      assert forall h :: h in Hours(rows) ==> h <= w;
    }

    /** One upsert per row; the first call that fails, for a key of `failing`, ends the pass. */
    method Upsert(agg: Table, failing: set<Key>) returns (ok: bool, ghost written: set<Key>)
      modifies this
      ensures rows == old(rows) + Restrict(agg, written)
      ensures written <= agg.Keys - failing
      ensures ok <==> failing !! agg.Keys
      ensures ok ==> rows == old(rows) + agg
    {
      ghost var before := rows;
      ok, written := true, {};
      var pending := agg.Keys;
      assert Restrict(agg, {}) == map[];
      while pending != {}
        invariant pending <= agg.Keys && written == agg.Keys - pending && written !! failing
        invariant rows == before + Restrict(agg, written)
      {
        var k :| k in pending;
        if k in failing {
          return false, written;
        }
        rows := rows[k := agg[k]];
        assert Restrict(agg, written + {k}) == Restrict(agg, written)[k := agg[k]];
        pending, written := pending - {k}, written + {k};
      }
      assert Restrict(agg, written) == agg;
    }

    /**
     * A pass over the loaded entries, none when the load failed, completed unless an upsert fails; it starts at 0
     * when the watermark cannot be read.
     */
    method AggregateOnce(entries: seq<Entry>, readable: bool, failing: set<Key>)
      returns (ok: bool, ghost written: set<Key>, ghost since: nat)
      modifies this
      ensures since == if readable then Since(old(rows)) else 0
      ensures ok <==> failing !! GroupBy(entries, since).Keys
      ensures ok ==> rows == PassFrom(old(rows), entries, since)
      ensures written <= GroupBy(entries, since).Keys - failing
      ensures rows == old(rows) + Restrict(GroupBy(entries, since), written)
      ensures entries == [] ==> rows == old(rows)
    {
      var from := 0;
      if readable {
        var w := ReadWatermark();
        from := SatSub(w, LOOKBACK);
      }
      since := from;
      var agg := AggregateEntries(entries, from);
      ok, written := Upsert(agg, failing);
    }
  }
}
