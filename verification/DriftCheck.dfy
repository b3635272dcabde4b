/** The background tick that compares key counts and decides whether to run a restore pass. */
module DriftCheck {
  import opened Common
  import opened ClientKeys
  import opened KeyRestore
  import opened KeyBudgets
  import opened GatewayUptime
  import opened RestorePass

  predicate NeedsReconcile(localTokenKeys: nat, gatewayKeyCount: nat, restarted: bool) {
    restarted || (localTokenKeys > 0 && gatewayKeyCount < localTokenKeys)
  }

  function TokenEntries(m: Keys): set<string> {
    set i | i in m && m[i].token != ""
  }

  /** Rows whose token is not empty after trimming spaces. */
  function TrimmedRows(pg: Keys): set<string> {
    set i | i in pg && exists c :: c in pg[i].token && c != ' '
  }

  function Authoritative(w: World): nat {
    Max(|TokenEntries(w.admin)|, |TrimmedRows(w.pg)|)
  }

  predicate Flag(w: World, restarted: bool) {
    NeedsReconcile(Authoritative(w), |w.gw|, restarted)
  }

  lemma SubsetCount<T>(a: set<T>, b: set<T>)
    requires a <= b
    ensures |a| <= |b| && (|a| == |b| ==> a == b)
  {
    assert b == a + (b - a);
  }

  /** Distinct tokens are at most as many as the entries that hold them, and as many if unique. */
  lemma {:induction false} TokenCount(m: Keys)
    ensures |TokensOf(m)| <= |TokenEntries(m)|
    ensures UniqueTokens(m) ==> |TokensOf(m)| == |TokenEntries(m)|
    decreases |m|
  {
    if e :| e in TokenEntries(m) {
      var rest := m - {e};
      TokenCount(rest);
      assert TokenEntries(rest) == TokenEntries(m) - {e};
      assert TokensOf(m) == TokensOf(rest) + {m[e].token} by {
        forall t | t in TokensOf(m) ensures t in TokensOf(rest) + {m[e].token} {
          var i :| i in m && m[i].token != "" && m[i].token == t;
          if i != e { assert rest[i].token == t; }
        }
        forall t | t in TokensOf(rest) ensures t in TokensOf(m) {
          var i :| i in rest && rest[i].token != "" && rest[i].token == t;
          assert m[i].token == t;
        }
      }
      if UniqueTokens(m) {
        assert UniqueTokens(rest);
        assert m[e].token !in TokensOf(rest);
      }
    } else {
      forall i | i in m ensures m[i].token == "" {
        assert i !in TokenEntries(m);
      }
      assert TokensOf(m) == {};
    }
  }

  /** Completeness: while the Gateway holds only keys Admin knows, a quiet tick means equal sets. */
  lemma QuietMeansEqual(w: World)
    requires w.gw.Keys <= TokensOf(w.admin) && !Flag(w, false)
    ensures w.gw.Keys == TokensOf(w.admin)
    ensures |TrimmedRows(w.pg)| <= |w.gw|
  {
    TokenCount(w.admin);
    SubsetCount(w.gw.Keys, TokensOf(w.admin));
    assert |w.gw| == |w.gw.Keys|;
  }

  /** More stored keys with a visible token than the Gateway has are flagged, whatever Admin holds. */
  lemma StoredDriftIsFlagged(w: World, ids: set<string>)
    requires |ids| > |w.gw| && forall i :: i in ids ==> i in w.pg && exists c :: c in w.pg[i].token && c != ' '
    ensures Flag(w, false)
  {
    SubsetCount(ids, TrimmedRows(w.pg));
  }

  /** Every PostgreSQL row with a token sits under an id Admin files a token under. */
  ghost predicate RowsHeld(w: World) {
    forall i :: i in w.pg && w.pg[i].token != "" ==> i in w.admin && w.admin[i].token != ""
  }

  /** In agreement, Admin's entries with a token are as many as the Gateway's keys. */
  lemma AgreementCounts(w: World)
    requires InAgreement(w.admin, w.gw) && "" !in w.gw
    ensures |TokenEntries(w.admin)| == |w.gw|
    ensures RowsHeld(w) ==> |TrimmedRows(w.pg)| <= |w.gw|
  {
    assert UniqueTokens(w.admin);
    TokenCount(w.admin);
    forall t | t in w.gw ensures t in TokensOf(w.admin) {
      assert Matches(w.admin, w.gw, t);
    }
    assert TokensOf(w.admin) == w.gw.Keys;
    assert |w.gw| == |w.gw.Keys|;
    if RowsHeld(w) {
      SubsetCount(TrimmedRows(w.pg), TokenEntries(w.admin));
    }
  }

  /** In agreement, with no row Admin lacks, only a restart is flagged. */
  lemma AgreementIsQuiet(w: World, restarted: bool)
    requires InAgreement(w.admin, w.gw) && "" !in w.gw && RowsHeld(w)
    ensures Flag(w, restarted) <==> restarted
  {
    AgreementCounts(w);
  }

  // ---------------------------------------------------------------------------
  // After a clean pass
  // ---------------------------------------------------------------------------

  lemma {:induction false} GroupDistinct(rows: seq<KeyMetadata>, t: string)
    requires DistinctIds(rows)
    ensures DistinctIds(Group(rows, t))
  {
    if rows != [] {
      var front := rows[..|rows| - 1];
      GroupDistinct(front, t);
      GroupMembers(front, t);
      var g := Group(front, t);
      forall i | 0 <= i < |g| ensures g[i].id != rows[|rows| - 1].id {
        assert g[i] in front;
      }
    }
  }

  /** With unique tokens hydration copies the table. */
  lemma HydrateOfUniqueRows(pg: Keys, rows: seq<KeyMetadata>)
    requires RowsOf(pg, rows) && UniqueTokens(pg) && WellKeyed(pg)
    ensures Hydrated(rows) == pg
  {
    HydratedCorrect(rows);
    forall r | r in rows ensures r.token != "" ==> Group(rows, r.token) == [r] {
      var g := Group(rows, r.token);
      GroupMembers(rows, r.token);
      GroupDistinct(rows, r.token);
      assert |g| >= 2 ==> g[0].id != g[1].id;
      if r.token != "" {
        assert r in g;
        forall k | 0 <= k < |g| ensures g[k] == r {
          assert g[k] in g;
          assert g[k] in rows && pg[g[k].id].token == pg[r.id].token;
        }
      }
    }
    forall i | i in pg ensures EntryExplained(rows, pg, i) {
      assert pg[i] in rows;
    }
    assert IsHydration(rows, pg);
    HydrationDetermined(rows, pg, Hydrated(rows));
  }

  lemma CleanHydrateMirrors(w: World, rows: seq<KeyMetadata>, mid: World, targets: set<string>, written: set<string>, h: World)
    requires WellKeyed(w.pg) && Loaded(w, true, rows, mid) && Backfilled(mid, targets, written, h)
    requires h.pgFaults == mid.pgFaults
    ensures Mirrored(h)
  {
    assert WellKeyed(mid.pg);
    HydrateOfUniqueRows(mid.pg, rows);
    BackfillMirrors(mid, targets, written, h);
  }

  lemma BackfillMirrors(w: World, targets: set<string>, written: set<string>, w': World)
    requires w.admin == w.pg && Backfilled(w, targets, written, w') && w'.pgFaults == w.pgFaults
    ensures Mirrored(w') && w'.pg.Keys == w.pg.Keys
  {
    forall i | i in w'.pg ensures i in w.pg && i in w'.admin && SameKey(w'.pg[i], w'.admin[i]) {
      BackfilledRow(w.admin, targets, i);
    }
  }

  /** One entry after a backfill: the row written for it, or the row it had, is the entry as flagged. */
  lemma BackfilledRow(m: Keys, targets: set<string>, i: string)
    requires i in m
    ensures var rows := m + FlaggedRows(m, Unflagged(m, targets));
            i in rows && SameKey(rows[i], Flagged(m, targets)[i])
  {
  }

  lemma MoveHolds(w: World, oldId: string, meta: KeyMetadata, w': World)
    requires Moved(w, oldId, meta, w') && meta.token != ""
    ensures w'.pgFaults >= w.pgFaults && (RowsHeld(w) && w'.pgFaults == w.pgFaults ==> RowsHeld(w'))
  {
    if RowsHeld(w) && w'.pgFaults == w.pgFaults {
      assert w'.pg == (w.pg - {oldId})[meta.id := Persisted(meta)];
      forall i | i in w'.pg && w'.pg[i].token != "" ensures i in w'.admin && w'.admin[i].token != "" {
        if i != meta.id { assert i in w.pg && i != oldId; }
      }
    }
  }

  lemma MigrateHolds(w: World, oldId: string, newId: string, token: string, w': World)
    requires Migrated(w, oldId, newId, token, w') && token != ""
    ensures w'.pgFaults >= w.pgFaults && (RowsHeld(w) && w'.pgFaults == w.pgFaults ==> RowsHeld(w'))
  {
    if oldId != newId && oldId in w.admin {
      MoveHolds(w, oldId, w.admin[oldId].(id := newId, token := token), w');
    }
  }

  lemma ReconcileStepHolds(w: World, g0: GatewayKeys, id: string, meta: KeyMetadata, out: Outcome, w': World)
    requires ReconcileStep(w, g0, id, meta, out, w')
    ensures w'.pgFaults >= w.pgFaults && (RowsHeld(w) && w'.pgFaults == w.pgFaults ==> RowsHeld(w'))
  {
    if meta.token != "" && id !in GatewayIds(g0) {
      if meta.token in g0 {
        MigrateHolds(w, id, g0[meta.token].id, meta.token, w');
      } else if out.Restored? {
        var g :| Created(w, meta, out.newId, g) && Migrated(w.(gw := g), id, out.newId, meta.token, w');
        MigrateHolds(w.(gw := g), id, out.newId, meta.token, w');
      }
    }
  }

  lemma {:induction false} ReconcileHolds(w: World, g0: GatewayKeys, m0: Keys, order: seq<string>,
                                          outs: seq<Outcome>, w': World)
    requires forall i :: i in order ==> i in m0
    requires ReconcileRun(w, g0, m0, order, outs, w')
    ensures w'.pgFaults >= w.pgFaults && (RowsHeld(w) && w'.pgFaults == w.pgFaults ==> RowsHeld(w'))
    decreases |order|
  {
    if order != [] {
      var n := |order| - 1;
      var mid :| ReconcileRun(w, g0, m0, order[..n], outs[..n], mid)
              && ReconcileStep(mid, g0, order[n], m0[order[n]], outs[n], w');
      ReconcileHolds(w, g0, m0, order[..n], outs[..n], mid);
      ReconcileStepHolds(mid, g0, order[n], m0[order[n]], outs[n], w');
    }
  }

  lemma SyncStepHolds(w: World, spec: ApiKeySpec, w': World)
    requires SyncStep(w, spec, w') && FullToken(spec) != ""
    ensures w'.pgFaults >= w.pgFaults && (RowsHeld(w) && w'.pgFaults == w.pgFaults ==> RowsHeld(w'))
  {
    var t := FullToken(spec);
    if spec.id !in w.admin && exists i :: HoldsToken(w.admin, i, t, spec.id) {
      var i :| HoldsToken(w.admin, i, t, spec.id) && Moved(w, i, Applied(w.admin[i].(id := spec.id), spec), w');
      MoveHolds(w, i, Applied(w.admin[i].(id := spec.id), spec), w');
    }
  }

  lemma {:induction false} SyncHolds(w: World, g: GatewayKeys, tokens: seq<string>, w': World)
    requires "" !in g && forall t :: t in tokens ==> t in g
    requires SyncRun(w, g, tokens, w')
    ensures w'.pgFaults >= w.pgFaults && (RowsHeld(w) && w'.pgFaults == w.pgFaults ==> RowsHeld(w'))
    decreases |tokens|
  {
    if tokens != [] {
      var n := |tokens| - 1;
      assert tokens[n] in tokens;
      var mid :| SyncRun(w, g, tokens[..n], mid) && SyncStep(mid, SpecOf(g, tokens[n]), w');
      SyncHolds(w, g, tokens[..n], mid);
      SyncStepHolds(mid, SpecOf(g, tokens[n]), w');
    }
  }

  lemma PushHolds(h: World, order: seq<string>, outs: seq<Outcome>, r: World, w': World)
    requires GatewayWellFormed(h.gw) && WellKeyed(h.admin) && UniqueTokens(h.admin)
    requires Reconciled(h, order, outs, r) && NoFailure(outs) && Synced(r, w')
    ensures w'.pgFaults >= h.pgFaults && (RowsHeld(h) && w'.pgFaults == h.pgFaults ==> RowsHeld(w'))
  {
    ReconcileHolds(h, h.gw, h.admin, order, outs, r);
    ReconcileReaches(h, order, outs, r);
    var tokens :| Enumerates(tokens, r.gw.Keys) && SyncRun(r, r.gw, tokens, w');
    SyncHolds(r, r.gw, tokens, w');
  }

  lemma PassHolds(w: World, rows: seq<KeyMetadata>, targets: set<string>, h: World,
                  order: seq<string>, outs: seq<Outcome>, w': World)
    requires GatewayWellFormed(w.gw) && WellKeyed(w.pg)
    requires Passed(w, rows, targets, h, order, outs, w') && NoFailure(outs) && w'.pgFaults == w.pgFaults
    ensures RowsHeld(w') && h.pgFaults == w.pgFaults && Mirrored(h)
  {
    HydrateEffect(w, rows, targets, h);
    var mid, deduped, written :| Loaded(w, deduped, rows, mid) && Backfilled(mid, targets, written, h);
    var r :| Reconciled(h, order, outs, r) && Synced(r, w');
    PushHolds(h, order, outs, r, w');
    assert deduped;
    CleanHydrateMirrors(w, rows, mid, targets, written, h);
  }

  /** A pass without failures leaves a world in which only a Gateway restart is flagged. */
  lemma CleanPassIsQuiet(w: World, rows: seq<KeyMetadata>, targets: set<string>, h: World,
                         order: seq<string>, outs: seq<Outcome>, w': World, restarted: bool)
    requires GatewayWellFormed(w.gw) && WellKeyed(w.pg)
    requires Passed(w, rows, targets, h, order, outs, w') && NoFailure(outs) && w'.pgFaults == w.pgFaults
    ensures Flag(w', restarted) <==> restarted
    ensures InAgreement(w'.admin, w'.gw) && "" !in w'.gw && RowsHeld(w')
  {
    PassHolds(w, rows, targets, h, order, outs, w');
    PassConverges(w, rows, targets, h, order, outs, w');
    AgreementIsQuiet(w', restarted);
  }

  lemma CompatibleRows(w: World, rows: seq<KeyMetadata>, targets: set<string>, h: World)
    requires HydratedFrom(w, rows, targets, h) && Compatible(w.pg, w.gw)
    ensures Compatible(h.admin, w.gw)
  {
    forall i | i in h.admin ensures i in w.pg && w.pg[i].token == h.admin[i].token {
      EntriesAreRows(w, rows, targets, h, i);
    }
    SameIdsCompatible(w.pg, h.admin, w.gw);
  }

  lemma SameIdsCompatible(pg: Keys, m: Keys, g: GatewayKeys)
    requires Compatible(pg, g) && forall i :: i in m ==> i in pg && pg[i].token == m[i].token
    ensures Compatible(m, g)
  {
  }

  lemma PushMirrors(h: World, order: seq<string>, outs: seq<Outcome>, r: World, w': World)
    requires Consistent(h) && Reconciled(h, order, outs, r) && Synced(r, w')
    requires Mirrored(h) && w'.pgFaults == h.pgFaults
    ensures Mirrored(w')
  {
    ReconcileRunKeepsAll(h, order, outs, r);
    EventKeeps(r, Sync, w');
    KeptTransitive(h, r, w');
  }

  /** With compatible ids PostgreSQL mirrors Admin besides. */
  lemma CleanPassMirrors(w: World, rows: seq<KeyMetadata>, targets: set<string>, h: World,
                         order: seq<string>, outs: seq<Outcome>, w': World)
    requires GatewayWellFormed(w.gw) && WellKeyed(w.pg)
    requires Passed(w, rows, targets, h, order, outs, w') && NoFailure(outs) && w'.pgFaults == w.pgFaults
    requires Compatible(w.pg, w.gw)
    ensures Mirrored(w')
  {
    HydrateEffect(w, rows, targets, h);
    CompatibleRows(w, rows, targets, h);
    PassHolds(w, rows, targets, h, order, outs, w');
    var r :| Reconciled(h, order, outs, r) && Synced(r, w');
    PushMirrors(h, order, outs, r, w');
  }

  /** The check falls quiet even when the pass left a token off the Gateway, which is for its rows to decide. */
  lemma QuietWhileMissing(w: World, rows: seq<KeyMetadata>, targets: set<string>, h: World,
                          order: seq<string>, outs: seq<Outcome>, w': World)
    requires GatewayWellFormed(w.gw) && WellKeyed(w.pg) && UniqueTokens(w.pg)
    requires Passed(w, rows, targets, h, order, outs, w') && NoFailure(outs) && w'.pgFaults == w.pgFaults
    ensures !Flag(w', false)
    ensures !SharedIdsKnown(w.pg, w.gw) <==> exists i :: i in w.pg && w.pg[i].token != "" && w.pg[i].token !in w'.gw
  {
    CleanPassIsQuiet(w, rows, targets, h, order, outs, w', false);
    PassReachesExactly(w, rows, targets, h, order, outs, w');
  }

  /**
   Without a PostgreSQL fault the second pass is quiet whatever ids the rows share with the Gateway:
   what the first pass could not push stays filed under a Gateway id.
   */
  lemma CleanSecondPassIsQuiet(w: World, rows: seq<KeyMetadata>, targets: set<string>, h: World,
                               order: seq<string>, outs: seq<Outcome>, w1: World,
                               snapshot: Keys, w2: World,
                               rows': seq<KeyMetadata>, targets': set<string>, h': World,
                               order': seq<string>, outs': seq<Outcome>, w3: World)
    requires GatewayWellFormed(w.gw) && WellKeyed(w.pg)
    requires Passed(w, rows, targets, h, order, outs, w1) && NoFailure(outs) && w1.pgFaults == w.pgFaults
    requires Flushed(w1, snapshot, w2) && TokensWithin(snapshot, w1.gw.Keys)
    requires Passed(w2, rows', targets', h', order', outs', w3) && NoFailure(outs')
    ensures RestoredCount(outs') == 0 && w3.gw == w1.gw
    ensures SameTable(w1.admin, w3.admin) && InAgreement(w3.admin, w3.gw)
  {
    CleanPassIsQuiet(w, rows, targets, h, order, outs, w1, false);
    PassConverges(w, rows, targets, h, order, outs, w1);
    HeldRowsSettle(w1);
    SettledPassIsQuiet(w2, rows', targets', h', order', outs', w3);
    AgreementFixesTable(w1.admin, w3.admin, w1.gw);
  }

  lemma HeldRowsSettle(w: World)
    requires InAgreement(w.admin, w.gw) && RowsHeld(w)
    ensures RowsSettled(w.pg, w.gw)
  {
    forall i | i in w.pg && w.pg[i].token != "" ensures i in GatewayIds(w.gw) {
      assert w.gw[w.admin[i].token].id == i;
    }
  }

  // ---------------------------------------------------------------------------
  // Ticks
  // ---------------------------------------------------------------------------

  /** What a tick meets: whether the Gateway is ready, the uptime last probed, whether listing and count are answered. */
  datatype Reading = Reading(ready: bool, uptime: Option<nat>, counted: bool)

  /** The uptime a tick compares with: that of the last tick that found the Gateway ready. */
  function LastUptime(prev: Option<nat>, rs: seq<Reading>): Option<nat> {
    if rs == [] then prev
    else if rs[|rs| - 1].ready then rs[|rs| - 1].uptime
    else LastUptime(prev, rs[..|rs| - 1])
  }

  /** The tick gets as far as comparing counts, and something is wrong. */
  predicate Alarmed(w: World, prev: Option<nat>, r: Reading) {
    r.ready && r.counted && Flag(w, RestartDetected(prev, r.uptime))
  }

  ghost predicate Tick(w: World, prev: Option<nat>, r: Reading, w': World) {
    if Alarmed(w, prev, r) then exists rows, targets, h, order, outs :: Passed(w, rows, targets, h, order, outs, w')
    else w' == w
  }

  ghost predicate Ticks(w: World, prev: Option<nat>, rs: seq<Reading>, w': World)
    decreases |rs|
  {
    if rs == [] then w' == w
    else
      var n := |rs| - 1;
      exists mid :: Ticks(w, prev, rs[..n], mid) && Tick(mid, LastUptime(prev, rs[..n]), rs[n], w')
  }

  /** No tick that gets to compare counts sees the uptime drop. */
  ghost predicate NoDropSeen(prev: Option<nat>, rs: seq<Reading>) {
    forall k :: 0 <= k < |rs| && rs[k].ready && rs[k].counted ==>
      !RestartDetected(LastUptime(prev, rs[..k]), rs[k].uptime)
  }

  /** While counts match, ticks change nothing until one of them sees a drop. */
  lemma {:induction false} UnflaggedStays(w: World, prev: Option<nat>, rs: seq<Reading>, w': World)
    requires !Flag(w, false) && NoDropSeen(prev, rs) && Ticks(w, prev, rs, w')
    ensures w' == w
    decreases |rs|
  {
    if rs != [] {
      var n := |rs| - 1;
      var mid :| Ticks(w, prev, rs[..n], mid) && Tick(mid, LastUptime(prev, rs[..n]), rs[n], w');
      assert forall k :: 0 <= k < n ==> rs[..n][k] == rs[k] && rs[..n][..k] == rs[..k];
      UnflaggedStays(w, prev, rs[..n], mid);
    }
  }

  /** Quiescence: from a settled world, ticks change nothing until an uptime reading drops. */
  lemma SettledStaysQuiet(w: World, prev: Option<nat>, rs: seq<Reading>, w': World)
    requires InAgreement(w.admin, w.gw) && "" !in w.gw && RowsHeld(w)
    requires NoDropSeen(prev, rs) && Ticks(w, prev, rs, w')
    ensures w' == w
  {
    AgreementIsQuiet(w, false);
    UnflaggedStays(w, prev, rs, w');
  }

  /** A tick that compares counts runs a pass after a restart, and whenever the Gateway lacks one of Admin's tokens. */
  lemma DriftIsSeen(w: World, prev: Option<nat>, r: Reading, w': World)
    requires Tick(w, prev, r, w') && r.ready && r.counted
    requires RestartDetected(prev, r.uptime) || (w.gw.Keys <= TokensOf(w.admin) && w.gw.Keys != TokensOf(w.admin))
    ensures exists rows, targets, h, order, outs :: Passed(w, rows, targets, h, order, outs, w')
  {
    if !Flag(w, false) && w.gw.Keys <= TokensOf(w.admin) {
      QuietMeansEqual(w);
    }
  }

  /** One key stored and loaded, and another one on the Gateway: as many on each side. */
  function Swapped(meta: KeyMetadata, y: string, id: string): World {
    World(map[meta.id := meta], map[meta.id := meta], map[y := StoredKey(id, "", 0, 0)], 0)
  }

  /**
   The uptime is remembered before the listing is asked for. So a tick that sees a restart and then gets no listing
   forgets it, and where counts happen to match, the lost key stays lost through any number of ticks; with the
   listing, the same tick runs a pass.
   */
  lemma ForgottenRestart(meta: KeyMetadata, y: string, id: string, u: nat, v: nat, rs: seq<Reading>, w': World)
    requires meta.token != "" && y != "" && meta.token != y && v < u
    requires rs != [] && rs[0] == Reading(true, Some(v), false) && NoDropSeen(Some(u), rs)
    requires Ticks(Swapped(meta, y, id), Some(u), rs, w')
    ensures meta.token !in w'.gw && meta.token in TokensOf(w'.pg)
    ensures Alarmed(Swapped(meta, y, id), Some(u), rs[0].(counted := true))
  {
    var w := Swapped(meta, y, id);
    assert |w.gw| == |w.gw.Keys| == |{y}|;
    assert TokenEntries(w.admin) <= {meta.id} && TrimmedRows(w.pg) <= {meta.id};
    SubsetCount(TokenEntries(w.admin), {meta.id});
    SubsetCount(TrimmedRows(w.pg), {meta.id});
    UnflaggedStays(w, Some(u), rs, w');
    assert w.pg[meta.id].token in TokensOf(w.pg);
  }
}
