/** The ring of counter snapshots: appended one by one, trimmed by age and size, replayed after a restart. */
module MetricsRing {
  import opened Common

  const MAX_RETENTION_SECS: nat := 25 * 3600
  const MAX_SAMPLES: nat := 1500

  datatype Snapshot = Snapshot(at: nat, l0: nat, l1: nat, l2: nat, misses: nat,
                               hitTokens: nat, missTokens: nat, outputTokens: nat)

  ghost predicate Increasing(s: seq<Snapshot>) {
    forall i, j :: 0 <= i < j < |s| ==> s[i].at < s[j].at
  }

  // ---------------------------------------------------------------------------
  // The specification: accept, cut by age, cut by size
  // ---------------------------------------------------------------------------

  /** A sample is accepted when it is newer than every sample accepted before it. */
  function Accepted(inputs: seq<Snapshot>): seq<Snapshot> {
    if inputs == [] then []
    else
      var a, s := Accepted(inputs[..|inputs| - 1]), inputs[|inputs| - 1];
      if a != [] && s.at <= a[|a| - 1].at then a else a + [s]
  }

  function Retained(s: seq<Snapshot>, cutoff: nat): seq<Snapshot> {
    if s == [] then []
    else
      var front := Retained(s[..|s| - 1], cutoff);
      if s[|s| - 1].at >= cutoff then front + [s[|s| - 1]] else front
  }

  function Newest(s: seq<Snapshot>, n: nat): seq<Snapshot> {
    if |s| <= n then s else s[|s| - n..]
  }

  function Cutoff(s: seq<Snapshot>): nat {
    if s == [] then 0 else SatSub(s[|s| - 1].at, MAX_RETENTION_SECS)
  }

  /** The newest 1500 samples that are at most 25 hours older than the newest. */
  function Batch(a: seq<Snapshot>): seq<Snapshot> {
    Newest(Retained(a, Cutoff(a)), MAX_SAMPLES)
  }

  // ---------------------------------------------------------------------------
  // The ring
  // ---------------------------------------------------------------------------

  class MetricsHistory {
    var samples: seq<Snapshot>
    ghost var seen: seq<Snapshot>  // every sample offered so far

    /** Whatever was offered, the ring is the batch trim of what was accepted. */
    ghost predicate Valid()
      reads this
    {
      samples == Batch(Accepted(seen))
    }

    constructor ()
      ensures Valid() && seen == []
    {
      samples, seen := [], [];
    }

    method Trim()
      modifies `samples
      ensures samples == Batch(old(samples))
    {
      if samples == [] {
        return;
      }
      var cutoff := SatSub(samples[|samples| - 1].at, MAX_RETENTION_SECS);
      var kept: seq<Snapshot> := [];
      for n := 0 to |samples|
        invariant kept == Retained(samples[..n], cutoff)
      {
        assert samples[..n + 1][..n] == samples[..n];
        if samples[n].at >= cutoff {
          kept := kept + [samples[n]];
        }
      }
      assert samples[..|samples|] == samples;
      samples := kept;
      if |samples| > MAX_SAMPLES {
        samples := samples[|samples| - MAX_SAMPLES..];
      }
    }

    method Append(s: Snapshot)
      requires Valid()
      modifies this
      ensures Valid() && seen == old(seen) + [s]
    {
      OneMoreInput(seen, s);
      seen := seen + [s];
      if samples != [] && s.at <= samples[|samples| - 1].at {
        return;
      }
      samples := samples + [s];
      Trim();
    }

    /** Start over and append stored rows in time order. */
    method Replay(rows: seq<Snapshot>)
      requires Increasing(rows)
      modifies this
      ensures Valid() && samples == Batch(rows)
    {
      samples, seen := [], [];
      for n := 0 to |rows|
        invariant Valid() && seen == rows[..n]
      {
        Append(rows[n]);
      }
      assert rows[..|rows|] == rows;
      AcceptsIncreasing(rows);
    }
  }

  lemma {:induction false} AcceptedIncreasing(inputs: seq<Snapshot>)
    ensures Increasing(Accepted(inputs))
  {
    if inputs != [] {
      AcceptedIncreasing(inputs[..|inputs| - 1]);
    }
  }

  lemma {:induction false} AcceptsIncreasing(rows: seq<Snapshot>)
    requires Increasing(rows)
    ensures Accepted(rows) == rows
  {
    if rows != [] {
      AcceptsIncreasing(rows[..|rows| - 1]);
      assert rows == rows[..|rows| - 1] + [rows[|rows| - 1]];
    }
  }

  /** `k` separates the samples before `c` from those at or after it. */
  ghost predicate IsCut(s: seq<Snapshot>, c: nat, k: nat) {
    && k <= |s|
    && (forall i :: 0 <= i < k ==> s[i].at < c)
    && (forall i :: k <= i < |s| ==> s[i].at >= c)
  }

  lemma {:induction false} CutExists(s: seq<Snapshot>, c: nat) returns (k: nat)
    requires Increasing(s)
    ensures IsCut(s, c, k)
  {
    k := 0;
    while k < |s| && s[k].at < c
      invariant k <= |s| && forall i :: 0 <= i < k ==> s[i].at < c
    {
      k := k + 1;
    }
  }

  /** On increasing samples the age cut is a suffix. */
  lemma {:induction false} RetainedIs(s: seq<Snapshot>, c: nat, k: nat)
    requires IsCut(s, c, k)
    ensures Retained(s, c) == s[k..]
  {
    if s != [] {
      var n := |s| - 1;
      if k <= n {
        RetainedIs(s[..n], c, k);
        assert s[k..] == s[..n][k..] + [s[n]];
      } else {
        RetainedIs(s[..n], c, n);
      }
    }
  }

  /** So the whole batch trim is a suffix, cut at the later of the two limits. */
  lemma BatchIs(a: seq<Snapshot>, k: nat)
    requires IsCut(a, Cutoff(a), k)
    ensures Max(k, |a| - MAX_SAMPLES) <= |a| && Batch(a) == a[Max(k, |a| - MAX_SAMPLES)..]
  {
    RetainedIs(a, Cutoff(a), k);
  }

  /** The ring ends with everything from place `k` on: young enough, few enough, and no more than had to go is gone. */
  ghost predicate KeptFrom(a: seq<Snapshot>, k: nat, ring: seq<Snapshot>) {
    && k <= |a| && ring == a[k..] && |ring| <= 1500
    && (forall i :: k <= i < |a| ==> a[i].at + 90_000 >= a[|a| - 1].at)
    && (forall i :: 0 <= i < k ==> a[i].at + 90_000 < a[|a| - 1].at || |a| - i > 1500)
  }

  lemma BatchMeaning(a: seq<Snapshot>)
    requires Increasing(a)
    ensures exists k :: KeptFrom(a, k, Batch(a))
  {
    var j := CutExists(a, Cutoff(a));
    BatchIs(a, j);
    assert KeptFrom(a, Max(j, |a| - MAX_SAMPLES), Batch(a));
  }

  lemma {:induction false} LastAccepted(inputs: seq<Snapshot>)
    requires inputs != []
    ensures Accepted(inputs) != []
    ensures forall x :: x in inputs ==> x.at <= Accepted(inputs)[|Accepted(inputs)| - 1].at
    ensures Accepted(inputs)[|Accepted(inputs)| - 1] in inputs
  {
    var n := |inputs| - 1;
    assert inputs == inputs[..n] + [inputs[n]];
    if n > 0 { LastAccepted(inputs[..n]); }
  }

  /** A sample is accepted exactly when it is newer than everything offered before. */
  lemma AcceptedExactly(inputs: seq<Snapshot>, s: Snapshot)
    ensures Accepted(inputs + [s]) ==
            if forall x :: x in inputs ==> x.at < s.at then Accepted(inputs) + [s] else Accepted(inputs)
  {
    assert (inputs + [s])[..|inputs|] == inputs;
    if inputs != [] { LastAccepted(inputs); }
  }

  /** A sample no newer than the ring's last is dropped; any other is appended and the ring trimmed. */
  lemma OneMoreInput(inputs: seq<Snapshot>, s: Snapshot)
    ensures var ring := Batch(Accepted(inputs));
            Batch(Accepted(inputs + [s])) ==
            if ring != [] && s.at <= ring[|ring| - 1].at then ring else Batch(ring + [s])
  {
    assert (inputs + [s])[..|inputs|] == inputs;
    AcceptedIncreasing(inputs);
    AcceptedIncreasing(inputs + [s]);
    var a := Accepted(inputs);
    if a == [] || s.at > a[|a| - 1].at {
      BatchStep(a, s);
    }
  }

  /** Trimming after each sample loses nothing a later trim would have kept. */
  lemma BatchStep(a: seq<Snapshot>, s: Snapshot)
    requires Increasing(a + [s]) && Increasing(a)
    ensures Batch(Batch(a) + [s]) == Batch(a + [s])
  {
    var all := a + [s];
    var j := CutExists(a, Cutoff(a));
    var j' := CutExists(all, Cutoff(all));
    BatchIs(a, j);
    BatchIs(all, j');
    CutsGrow(a, s, j, j');
    var k := Max(j, |a| - MAX_SAMPLES);
    assert Batch(a) + [s] == all[k..];
    BatchFrom(all, k, j');
  }

  /** Trimming a suffix that still holds everything retained. */
  lemma BatchFrom(all: seq<Snapshot>, k: nat, j: nat)
    requires all != [] && k < |all| && IsCut(all, Cutoff(all), j) && k <= Max(j, |all| - MAX_SAMPLES)
    ensures Batch(all[k..]) == all[Max(j, |all| - MAX_SAMPLES)..]
  {
    var r := all[k..];
    assert Cutoff(r) == Cutoff(all);
    assert IsCut(r, Cutoff(r), Max(k, j) - k);
    BatchIs(r, Max(k, j) - k);
    assert r[Max(Max(k, j) - k, |r| - MAX_SAMPLES)..] == all[Max(j, |all| - MAX_SAMPLES)..];
  }

  lemma CutsGrow(a: seq<Snapshot>, s: Snapshot, j: nat, j': nat)
    requires Increasing(a + [s]) && IsCut(a, Cutoff(a), j) && IsCut(a + [s], Cutoff(a + [s]), j')
    ensures j <= j'
  {
    if a != [] { assert (a + [s])[|a| - 1].at < s.at; }
    assert forall i :: 0 <= i < j ==> a[i] == (a + [s])[i];
    LaterCut(a + [s], Cutoff(a), j, Cutoff(a + [s]), j');
  }

  lemma LaterCut(s: seq<Snapshot>, c: nat, j: nat, c': nat, j': nat)
    requires c <= c' && j <= |s| && (forall i :: 0 <= i < j ==> s[i].at < c) && IsCut(s, c', j')
    ensures j <= j'
  {
    var at := if j' < |s| then s[j'].at else 0;
  }

  // ---------------------------------------------------------------------------
  // Restart
  // ---------------------------------------------------------------------------

  type Store = map<nat, Snapshot>

  /** PostgreSQL keeps the first snapshot written for a second. */
  function Inserted(t: Store, s: Snapshot): Store {
    if s.at in t then t else t[s.at := s]
  }

  function Stored(inputs: seq<Snapshot>): Store {
    if inputs == [] then map[] else Inserted(Stored(inputs[..|inputs| - 1]), inputs[|inputs| - 1])
  }

  /** SQLite replaces it. */
  function Replaced(inputs: seq<Snapshot>): Store {
    if inputs == [] then map[] else Replaced(inputs[..|inputs| - 1])[inputs[|inputs| - 1].at := inputs[|inputs| - 1]]
  }

  /** The rows of `t` from `cutoff` on, oldest first. */
  ghost predicate IsRows(t: Store, cutoff: nat, rows: seq<Snapshot>) {
    && Increasing(rows)
    && (forall r :: r in rows ==> r.at in t && t[r.at] == r && r.at >= cutoff)
    && (forall at :: at in t && at >= cutoff ==> t[at] in rows)
  }

  ghost predicate ClockMonotone(inputs: seq<Snapshot>) {
    forall i, j :: 0 <= i < j < |inputs| ==> inputs[i].at <= inputs[j].at
  }

  ghost predicate Filed(t: Store) {
    forall at :: at in t ==> t[at].at == at
  }

  /** With a clock that never runs back, the table and the ring accept the same samples. */
  lemma {:induction false} StoredIsAccepted(inputs: seq<Snapshot>)
    requires ClockMonotone(inputs)
    ensures Filed(Stored(inputs)) && IsRows(Stored(inputs), 0, Accepted(inputs))
    ensures inputs != [] ==> Accepted(inputs) != [] && Accepted(inputs)[|Accepted(inputs)| - 1].at == inputs[|inputs| - 1].at
  {
    if inputs != [] {
      var front, s := inputs[..|inputs| - 1], inputs[|inputs| - 1];
      StoredIsAccepted(front);
      var a := Accepted(front);
      assert front != [] ==> a[|a| - 1].at == inputs[|inputs| - 2].at <= s.at;
      if a != [] && s.at <= a[|a| - 1].at {
        assert a[|a| - 1] in a;
      } else {
        NewerRow(Stored(front), a, s);
      }
    }
  }

  lemma NewerRow(t: Store, a: seq<Snapshot>, s: Snapshot)
    requires Filed(t) && IsRows(t, 0, a) && (a != [] ==> a[|a| - 1].at < s.at)
    ensures s.at !in t && IsRows(t[s.at := s], 0, a + [s])
  {
    forall r | r in a ensures r.at < s.at {
      var i :| 0 <= i < |a| && a[i] == r;
    }
    forall at | at in t ensures at < s.at {
      assert t[at] in a;
    }
  }

  lemma RetainedRows(t: Store, a: seq<Snapshot>, cutoff: nat)
    requires Filed(t) && IsRows(t, 0, a)
    ensures IsRows(t, cutoff, Retained(a, cutoff))
  {
    var k := CutExists(a, cutoff);
    RetainedIs(a, cutoff, k);
    forall at | at in t && at >= cutoff ensures t[at] in a[k..] {
      var i :| 0 <= i < |a| && a[i] == t[at];
      assert i >= k;
      assert a[k..][i - k] == t[at];
    }
  }

  /** Rows in time order are determined by the table. */
  lemma {:induction false} RowsUnique(t: Store, cutoff: nat, rows: seq<Snapshot>, rows': seq<Snapshot>)
    requires IsRows(t, cutoff, rows) && IsRows(t, cutoff, rows')
    ensures rows == rows'
  {
    SortedUnique(rows, rows');
  }

  lemma {:induction false} SortedUnique(a: seq<Snapshot>, b: seq<Snapshot>)
    requires Increasing(a) && Increasing(b) && forall r :: r in a <==> r in b
    ensures a == b
    decreases |a|
  {
    if b != [] { NonEmpty(b); }
    if a != [] {
      NonEmpty(a);
      var m, n := |a| - 1, |b| - 1;
      SameLast(a, b);
      forall r ensures r in a[..m] <==> r in b[..n] {
        LastApart(a, r);
        LastApart(b, r);
      }
      SortedUnique(a[..m], b[..n]);
      assert a == a[..m] + [a[m]] && b == b[..n] + [b[n]];
    }
  }

  lemma SameLast(a: seq<Snapshot>, b: seq<Snapshot>)
    requires Increasing(a) && Increasing(b) && a != [] && b != [] && forall r :: r in a <==> r in b
    ensures a[|a| - 1] == b[|b| - 1]
  {
    var x, y := a[|a| - 1], b[|b| - 1];
    assert x in b && y in a;
    var i :| 0 <= i < |b| && b[i] == x;
    var j :| 0 <= j < |a| && a[j] == y;
    assert i == |b| - 1 || x.at < y.at;
    assert j == |a| - 1 || y.at < x.at;
  }

  lemma NonEmpty(a: seq<Snapshot>)
    requires a != []
    ensures exists r :: r in a
  {
    assert a[0] in a;
  }

  lemma LastApart(a: seq<Snapshot>, r: Snapshot)
    requires Increasing(a) && a != []
    ensures r in a[..|a| - 1] <==> r in a && r != a[|a| - 1]
  {
    if r in a[..|a| - 1] {
      var i :| 0 <= i < |a| - 1 && a[i] == r;
    }
  }

  /** Cutting the accepted samples and trimming is trimming and cutting, from the live cutoff on. */
  lemma CutCommutes(a: seq<Snapshot>, cutoff: nat)
    requires Increasing(a) && cutoff >= Cutoff(a)
    ensures Batch(Retained(a, cutoff)) == Retained(Batch(a), cutoff)
  {
    var j := CutExists(a, Cutoff(a));
    var c := CutExists(a, cutoff);
    LaterCut(a, Cutoff(a), j, cutoff, c);
    BatchIs(a, j);
    RetainedIs(a, cutoff, c);
    BatchOfSuffix(a, c, cutoff);
    RetainedOfSuffix(a, c, cutoff, Max(j, |a| - MAX_SAMPLES));
  }

  lemma BatchOfSuffix(a: seq<Snapshot>, c: nat, cutoff: nat)
    requires IsCut(a, cutoff, c) && cutoff >= Cutoff(a)
    ensures Batch(a[c..]) == a[Max(c, |a| - MAX_SAMPLES)..]
  {
    var left := a[c..];
    assert left != [] ==> Cutoff(left) == Cutoff(a);
    BatchIs(left, 0);
    assert left[Max(0, |left| - MAX_SAMPLES)..] == a[Max(c, |a| - MAX_SAMPLES)..];
  }

  lemma RetainedOfSuffix(a: seq<Snapshot>, c: nat, cutoff: nat, k: nat)
    requires IsCut(a, cutoff, c) && k <= |a|
    ensures Retained(a[k..], cutoff) == a[Max(k, c)..]
  {
    RetainedIs(a[k..], cutoff, Max(k, c) - k);
    assert a[k..][Max(k, c) - k..] == a[Max(k, c)..];
  }

  /**
   Restart: with a clock that never runs back, loading the stored rows from `now` minus 25 hours and
   replaying them gives the ring the process had, cut to that time.
   */
  lemma RestartKeepsRing(inputs: seq<Snapshot>, now: nat, rows: seq<Snapshot>)
    requires ClockMonotone(inputs) && (inputs != [] ==> inputs[|inputs| - 1].at <= now)
    requires IsRows(Stored(inputs), SatSub(now, MAX_RETENTION_SECS), rows)
    ensures Batch(rows) == Retained(Batch(Accepted(inputs)), SatSub(now, MAX_RETENTION_SECS))
  {
    StoredIsAccepted(inputs);
    AcceptedIncreasing(inputs);
    RowsAreRetained(inputs, SatSub(now, MAX_RETENTION_SECS), rows);
    CutCommutes(Accepted(inputs), SatSub(now, MAX_RETENTION_SECS));
  }

  lemma RowsAreRetained(inputs: seq<Snapshot>, cutoff: nat, rows: seq<Snapshot>)
    requires ClockMonotone(inputs) && IsRows(Stored(inputs), cutoff, rows)
    ensures rows == Retained(Accepted(inputs), cutoff)
  {
    StoredIsAccepted(inputs);
    RetainedRows(Stored(inputs), Accepted(inputs), cutoff);
    RowsUnique(Stored(inputs), cutoff, rows, Retained(Accepted(inputs), cutoff));
  }

  /** Every second from `cutoff` on that was written more than once was last written as first written. */
  ghost predicate RewritesAgree(inputs: seq<Snapshot>, cutoff: nat) {
    forall i, j ::
      (&& 0 <= i < |inputs| && 0 <= j < |inputs| && inputs[i].at >= cutoff && inputs[i].at == inputs[j].at
       && FirstAt(inputs, i) && LastAt(inputs, j))
      ==> inputs[i] == inputs[j]
  }

  /** The replacing store replays the same rows exactly when rewritten seconds agree. */
  lemma ReplacingStoreReplays(inputs: seq<Snapshot>, cutoff: nat, rows: seq<Snapshot>, rows': seq<Snapshot>)
    requires IsRows(Stored(inputs), cutoff, rows) && IsRows(Replaced(inputs), cutoff, rows')
    ensures rows' == rows <==> RewritesAgree(inputs, cutoff)
  {
    var t, u := Stored(inputs), Replaced(inputs);
    SameSeconds(inputs);
    if rows' == rows {
      forall i, j | 0 <= i < |inputs| && 0 <= j < |inputs| && inputs[i].at >= cutoff && inputs[i].at == inputs[j].at
                    && FirstAt(inputs, i) && LastAt(inputs, j) ensures inputs[i] == inputs[j]
      {
        var at := inputs[i].at;
        SecondKnown(inputs, i);
        var i' := FirstWrite(inputs, at);
        var j' := LastWrite(inputs, at);
        assert i' == i && j' == j;
        assert t[at] in rows && u[at] in rows;
      }
    }
    if RewritesAgree(inputs, cutoff) {
      forall at | at in t && at >= cutoff ensures t[at] == u[at] {
        var i := FirstWrite(inputs, at);
        var j := LastWrite(inputs, at);
      }
      RowsUnique(t, cutoff, rows, rows');
    }
  }

  ghost predicate FirstAt(inputs: seq<Snapshot>, i: nat)
    requires i < |inputs|
  {
    forall k :: 0 <= k < i ==> inputs[k].at != inputs[i].at
  }

  ghost predicate LastAt(inputs: seq<Snapshot>, i: nat)
    requires i < |inputs|
  {
    forall k :: i < k < |inputs| ==> inputs[k].at != inputs[i].at
  }

  lemma {:induction false} SameSeconds(inputs: seq<Snapshot>)
    ensures Stored(inputs).Keys == Replaced(inputs).Keys
    ensures Filed(Stored(inputs)) && Filed(Replaced(inputs))
  {
    if inputs != [] { SameSeconds(inputs[..|inputs| - 1]); }
  }

  lemma {:induction false} SecondKnown(inputs: seq<Snapshot>, i: nat)
    requires i < |inputs|
    ensures inputs[i].at in Stored(inputs)
  {
    if i < |inputs| - 1 { SecondKnown(inputs[..|inputs| - 1], i); }
  }

  lemma {:induction false} FirstWrite(inputs: seq<Snapshot>, at: nat) returns (i: nat)
    requires at in Stored(inputs)
    ensures i < |inputs| && inputs[i].at == at && FirstAt(inputs, i) && Stored(inputs)[at] == inputs[i]
  {
    var front := inputs[..|inputs| - 1];
    if at in Stored(front) {
      i := FirstWrite(front, at);
    } else {
      i := |inputs| - 1;
      forall k | 0 <= k < i ensures inputs[k].at != at {
        SecondKnown(front, k);
      }
    }
  }

  lemma {:induction false} LastWrite(inputs: seq<Snapshot>, at: nat) returns (i: nat)
    requires at in Replaced(inputs)
    ensures i < |inputs| && inputs[i].at == at && LastAt(inputs, i) && Replaced(inputs)[at] == inputs[i]
  {
    if inputs[|inputs| - 1].at == at {
      i := |inputs| - 1;
    } else {
      i := LastWrite(inputs[..|inputs| - 1], at);
    }
  }
}
