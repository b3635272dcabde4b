/** The composed restore pass: hydrate Admin from PostgreSQL, reconcile to the Gateway, sync back. */
module RestorePass {
  import opened Common
  import opened ClientKeys
  import opened KeyRestore

  // ---------------------------------------------------------------------------
  // Hydrate
  // ---------------------------------------------------------------------------

  /** One row per non-empty token is kept, and every row without a token. */
  ghost predicate Deduped(pg: Keys, pg': Keys) {
    && (forall i :: i in pg' ==> i in pg && pg'[i] == pg[i])
    && (forall i :: i in pg && pg[i].token == "" ==> i in pg')
    && (forall i :: i in pg && pg[i].token != "" ==> HasToken(pg', pg[i].token))
    && UniqueTokens(pg')
  }

  ghost predicate HasToken(m: Keys, token: string) {
    exists i :: i in m && m[i].token == token
  }

  ghost predicate RowsOf(pg: Keys, rows: seq<KeyMetadata>) {
    && DistinctIds(rows)
    && (forall r :: r in rows ==> r.id in pg && r == pg[r.id])
    && (forall i :: i in pg ==> pg[i] in rows)
  }

  function Flagged(m: Keys, targets: set<string>): Keys {
    map i | i in m :: if i in targets then m[i].(dashboardCreated := true) else m[i]
  }

  /** The entries whose flag a backfill for `targets` turns on. */
  function Unflagged(m: Keys, targets: set<string>): set<string> {
    set i | i in m && i in targets && !m[i].dashboardCreated
  }

  function FlaggedRows(m: Keys, ids: set<string>): Keys {
    map i | i in m && i in ids :: Persisted(m[i].(dashboardCreated := true))
  }

  /** Set the dashboard flag of the audited ids; the changed entries in `written` reach PostgreSQL. */
  ghost predicate Backfilled(w: World, targets: set<string>, written: set<string>, w': World) {
    && written <= Unflagged(w.admin, targets)
    && w'.gw == w.gw && w'.admin == Flagged(w.admin, targets)
    && w'.pg == w.pg + FlaggedRows(w.admin, written)
    && w'.pgFaults >= w.pgFaults
    && (w'.pgFaults == w.pgFaults <==> written == Unflagged(w.admin, targets))
  }

  /** The rows were deduplicated (or that call failed), loaded and inserted one by one. */
  ghost predicate Loaded(w: World, deduped: bool, rows: seq<KeyMetadata>, w': World) {
    && (if deduped then Deduped(w.pg, w'.pg) && w'.pgFaults == w.pgFaults
        else w'.pg == w.pg && w'.pgFaults == w.pgFaults + 1)
    && RowsOf(w'.pg, rows) && rows != []
    && w'.admin == Hydrated(rows) && w'.gw == w.gw
  }

  ghost predicate HydratedFrom(w: World, rows: seq<KeyMetadata>, targets: set<string>, w': World) {
    exists mid, deduped, written :: Loaded(w, deduped, rows, mid) && Backfilled(mid, targets, written, w')
  }

  /** A restore pass; `h` is the world after hydration. */
  ghost predicate Passed(w: World, rows: seq<KeyMetadata>, targets: set<string>, h: World,
                         order: seq<string>, outs: seq<Outcome>, w': World) {
    && HydratedFrom(w, rows, targets, h)
    && exists r :: Reconciled(h, order, outs, r) && Synced(r, w')
  }

  ghost predicate TokensWithin(m: Keys, s: set<string>) {
    forall i :: i in m && m[i].token != "" ==> m[i].token in s
  }

  function TokensOf(m: Keys): set<string> {
    set i | i in m && m[i].token != "" :: m[i].token
  }

  /** The Gateway holds or would accept every token. */
  ghost predicate AllAcceptable(pg: Keys, g: GatewayKeys) {
    forall t :: t in TokensOf(pg) && t !in g ==> Acceptable(t)
  }

  lemma FlaggedWellFormed(m: Keys, targets: set<string>)
    requires WellKeyed(m) && UniqueTokens(m)
    ensures WellKeyed(Flagged(m, targets)) && UniqueTokens(Flagged(m, targets))
    ensures TokensOf(Flagged(m, targets)) == TokensOf(m)
  {
    var f := Flagged(m, targets);
    forall t | t in TokensOf(m) ensures t in TokensOf(f) {
      var i :| i in m && m[i].token != "" && m[i].token == t;
      assert f[i].token == t;
    }
    forall t | t in TokensOf(f) ensures t in TokensOf(m) {
      var i :| i in f && f[i].token != "" && f[i].token == t;
      assert m[i].token == t;
    }
  }

  lemma DedupedTokens(pg: Keys, pg1: Keys)
    requires pg1 == pg || Deduped(pg, pg1)
    ensures TokensOf(pg1) == TokensOf(pg)
  {
    forall t | t in TokensOf(pg) ensures t in TokensOf(pg1) {
      var i :| i in pg && pg[i].token != "" && pg[i].token == t;
    }
    forall t | t in TokensOf(pg1) ensures t in TokensOf(pg) {
      var i :| i in pg1 && pg1[i].token != "" && pg1[i].token == t;
      assert pg[i].token == t;
    }
  }

  lemma RowsTokens(pg: Keys, rows: seq<KeyMetadata>, m: Keys)
    requires RowsOf(pg, rows) && IsHydration(rows, m)
    ensures TokensOf(m) == TokensOf(pg)
  {
    HydrationWellFormed(rows, m);
    forall t | t in TokensOf(m) ensures t in TokensOf(pg) {
      var i :| i in m && m[i].token != "" && m[i].token == t;
      var r :| r in rows && r.id == i && r.token == m[i].token;
      assert pg[r.id].token == t;
    }
    forall t | t in TokensOf(pg) ensures t in TokensOf(m) {
      var i :| i in pg && pg[i].token != "" && pg[i].token == t;
      assert pg[i] in rows;
      var j :| j in m && m[j].token == pg[i].token;
    }
  }

  lemma OverlayTokens(pg: Keys, more: Keys)
    ensures TokensOf(pg + more) <= TokensOf(pg) + TokensOf(more)
  {
    forall t | t in TokensOf(pg + more) ensures t in TokensOf(pg) + TokensOf(more) {
      var i :| i in pg + more && (pg + more)[i].token != "" && (pg + more)[i].token == t;
      if i in more { assert more[i].token == t; } else { assert pg[i].token == t; }
    }
  }

  lemma LoadedEffect(w: World, deduped: bool, rows: seq<KeyMetadata>, w': World)
    requires Loaded(w, deduped, rows, w')
    ensures WellKeyed(w'.admin) && UniqueTokens(w'.admin)
    ensures TokensOf(w'.admin) == TokensOf(w.pg) == TokensOf(w'.pg)
  {
    HydratedCorrect(rows);
    HydrationWellFormed(rows, w'.admin);
    DedupedTokens(w.pg, w'.pg);
    RowsTokens(w'.pg, rows, w'.admin);
  }

  lemma BackfilledEffect(w: World, targets: set<string>, written: set<string>, w': World)
    requires Backfilled(w, targets, written, w') && WellKeyed(w.admin) && UniqueTokens(w.admin)
    ensures WellKeyed(w'.admin) && UniqueTokens(w'.admin)
    ensures TokensOf(w'.admin) == TokensOf(w.admin) && TokensOf(w'.pg) <= TokensOf(w.pg) + TokensOf(w.admin)
  {
    FlaggedWellFormed(w.admin, targets);
    var more := FlaggedRows(w.admin, written);
    OverlayTokens(w.pg, more);
    forall t | t in TokensOf(more) ensures t in TokensOf(w.admin) {
      var i :| i in more && more[i].token != "" && more[i].token == t;
      assert w.admin[i].token == t;
    }
  }

  /** Hydration holds exactly PostgreSQL's tokens, each once, whatever duplicates the rows had. */
  lemma HydrateEffect(w: World, rows: seq<KeyMetadata>, targets: set<string>, h: World)
    requires HydratedFrom(w, rows, targets, h)
    ensures WellKeyed(h.admin) && UniqueTokens(h.admin) && h.gw == w.gw
    ensures TokensOf(h.admin) == TokensOf(w.pg)
    ensures TokensOf(h.pg) <= TokensOf(w.pg)
  {
    var mid, deduped, written :| Loaded(w, deduped, rows, mid) && Backfilled(mid, targets, written, h);
    LoadedEffect(w, deduped, rows, mid);
    BackfilledEffect(mid, targets, written, h);
  }

  /** Every hydrated entry has the id and the token of one row. */
  lemma EntriesAreRows(w: World, rows: seq<KeyMetadata>, targets: set<string>, h: World, i: string)
    requires HydratedFrom(w, rows, targets, h) && i in h.admin
    ensures i in w.pg && w.pg[i].token == h.admin[i].token
  {
    var mid, deduped, written :| Loaded(w, deduped, rows, mid) && Backfilled(mid, targets, written, h);
    HydratedCorrect(rows);
    HydrationWellFormed(rows, mid.admin);
    assert mid.admin[i].token == h.admin[i].token;
    var r :| r in rows && r.id == i && r.token == mid.admin[i].token;
  }

  /** Every hydrated entry with a token is the merge of its token's rows, flagged if audited. */
  lemma HydratedEntry(w: World, rows: seq<KeyMetadata>, targets: set<string>, h: World, i: string)
    requires HydratedFrom(w, rows, targets, h) && i in h.admin && h.admin[i].token != ""
    ensures var g := Group(rows, h.admin[i].token);
            && g != [] && MergeAll(g).id == i
            && h.admin[i] == MergeAll(g).(dashboardCreated := MergeAll(g).dashboardCreated || i in targets)
  {
    var mid, deduped, written :| Loaded(w, deduped, rows, mid) && Backfilled(mid, targets, written, h);
    HydratedCorrect(rows);
    HydrationEntry(rows, mid.admin, i);
  }

  /** With unique tokens every row comes back as an entry under its own id. */
  lemma UniqueRowsAreEntries(w: World, rows: seq<KeyMetadata>, targets: set<string>, h: World, i: string)
    requires HydratedFrom(w, rows, targets, h) && UniqueTokens(w.pg) && i in w.pg && w.pg[i].token != ""
    ensures i in h.admin && h.admin[i].token == w.pg[i].token
  {
    HydrateEffect(w, rows, targets, h);
    assert w.pg[i].token in TokensOf(w.pg);
    var j :| j in h.admin && h.admin[j].token != "" && h.admin[j].token == w.pg[i].token;
    EntriesAreRows(w, rows, targets, h, j);
  }

  // ---------------------------------------------------------------------------
  // The pass
  // ---------------------------------------------------------------------------

  lemma MovedTokens(w: World, oldId: string, meta: KeyMetadata, w': World, s: set<string>)
    requires Moved(w, oldId, meta, w') && TokensWithin(w.pg, s) && (meta.token != "" ==> meta.token in s)
    requires TokensWithin(w.admin, s)
    ensures TokensWithin(w'.pg, s) && TokensWithin(w'.admin, s)
  {
  }

  lemma {:induction false} ReconcileTokens(w: World, g0: GatewayKeys, m0: Keys, order: seq<string>,
                                           outs: seq<Outcome>, w': World, s: set<string>)
    requires forall i :: i in order ==> i in m0
    requires ReconcileRun(w, g0, m0, order, outs, w')
    requires TokensWithin(m0, s) && TokensWithin(w.pg, s) && TokensWithin(w.admin, s)
    ensures TokensWithin(w'.pg, s) && TokensWithin(w'.admin, s)
    decreases |order|
  {
    if order != [] {
      var n := |order| - 1;
      var id, meta := order[n], m0[order[n]];
      var mid :| ReconcileRun(w, g0, m0, order[..n], outs[..n], mid)
              && ReconcileStep(mid, g0, id, meta, outs[n], w');
      ReconcileTokens(w, g0, m0, order[..n], outs[..n], mid, s);
      if meta.token != "" && id !in GatewayIds(g0) && id in mid.admin {
        if meta.token in g0 {
          if id != g0[meta.token].id {
            MovedTokens(mid, id, mid.admin[id].(id := g0[meta.token].id, token := meta.token), w', s);
          }
        } else if outs[n].Restored? {
          var g :| Created(mid, meta, outs[n].newId, g) && Migrated(mid.(gw := g), id, outs[n].newId, meta.token, w');
          MovedTokens(mid.(gw := g), id, mid.admin[id].(id := outs[n].newId, token := meta.token), w', s);
        }
      }
    }
  }

  lemma {:induction false} SyncTokens(w: World, g: GatewayKeys, tokens: seq<string>, w': World, s: set<string>)
    requires forall t :: t in tokens ==> t in g
    requires SyncRun(w, g, tokens, w')
    requires TokensWithin(w.pg, s) && TokensWithin(w.admin, s) && g.Keys <= s
    ensures TokensWithin(w'.pg, s) && TokensWithin(w'.admin, s)
    decreases |tokens|
  {
    if tokens != [] {
      var n := |tokens| - 1;
      var t := tokens[n];
      var spec := SpecOf(g, t);
      var mid :| SyncRun(w, g, tokens[..n], mid) && SyncStep(mid, spec, w');
      SyncTokens(w, g, tokens[..n], mid, s);
      assert t in s;
      if spec.id !in mid.admin && t != "" && exists i :: HoldsToken(mid.admin, i, t, spec.id) {
        var i :| HoldsToken(mid.admin, i, t, spec.id)
              && Moved(mid, i, Applied(mid.admin[i].(id := spec.id), spec), w');
        MovedTokens(mid, i, Applied(mid.admin[i].(id := spec.id), spec), w', s);
      }
    }
  }

  /**
   One restore pass from any PostgreSQL rows, token duplicates included: Admin and Gateway end in
   agreement, the Gateway loses nothing, and nothing is restored when nothing was missing.
   */
  lemma PassConverges(w: World, rows: seq<KeyMetadata>, targets: set<string>, h: World,
                      order: seq<string>, outs: seq<Outcome>, w': World)
    requires GatewayWellFormed(w.gw) && Passed(w, rows, targets, h, order, outs, w') && NoFailure(outs)
    ensures InAgreement(w'.admin, w'.gw) && WellKeyed(w'.admin) && GatewayWellFormed(w'.gw)
    ensures forall t :: t in w.gw ==> t in w'.gw && w'.gw[t] == w.gw[t]
    ensures TokensWithin(w.pg, w'.gw.Keys) <==> SharedIdsKnown(h.admin, w.gw)
    ensures TokensWithin(w.pg, w.gw.Keys) ==> RestoredCount(outs) == 0 && w'.gw == w.gw
    ensures forall t :: t in w'.gw && t !in w.gw ==> RestoredAs(rows, t, w'.gw[t])
  {
    HydrateEffect(w, rows, targets, h);
    var r :| Reconciled(h, order, outs, r) && Synced(r, w');
    ReconcileThenSyncConverges(h, order, outs, r, w');
    SameTokens(w.pg, h.admin);
    forall t | t in w'.gw && t !in w.gw ensures RestoredAs(rows, t, w'.gw[t]) {
      var i :| PushedAs(h.admin, h.gw, i, t, w'.gw[t]);
      HydratedEntry(w, rows, targets, h, i);
    }
  }

  /** A restored key has the name, rate and concurrency of its token's rows, merged. */
  ghost predicate RestoredAs(rows: seq<KeyMetadata>, t: string, k: StoredKey) {
    Group(rows, t) != [] && MadeOf(k, MergeAll(Group(rows, t)))
  }

  /** A pass that reached every token writes no other one to PostgreSQL. */
  lemma PassKeepsTokens(w: World, rows: seq<KeyMetadata>, targets: set<string>, h: World,
                        order: seq<string>, outs: seq<Outcome>, w': World)
    requires GatewayWellFormed(w.gw) && Passed(w, rows, targets, h, order, outs, w') && NoFailure(outs)
    requires TokensWithin(w.pg, w'.gw.Keys)
    ensures TokensWithin(w'.pg, w'.gw.Keys)
  {
    HydrateEffect(w, rows, targets, h);
    var r :| Reconciled(h, order, outs, r) && Synced(r, w');
    SameTokens(w.pg, h.admin);
    TokensWithinOf(w.pg, w'.gw.Keys);
    TokensWithinOf(h.pg, w'.gw.Keys);
    PushKeepsTokens(h, order, outs, r, w');
  }

  lemma PushKeepsTokens(h: World, order: seq<string>, outs: seq<Outcome>, r: World, w': World)
    requires GatewayWellFormed(h.gw) && WellKeyed(h.admin) && UniqueTokens(h.admin)
    requires Reconciled(h, order, outs, r) && NoFailure(outs) && Synced(r, w')
    requires TokensWithin(h.pg, w'.gw.Keys) && TokensWithin(h.admin, w'.gw.Keys)
    ensures TokensWithin(w'.pg, w'.gw.Keys)
  {
    ReconcileReaches(h, order, outs, r);
    SyncAgrees(r, w');
    ReconcileTokens(h, h.gw, h.admin, order, outs, r, w'.gw.Keys);
    var tokens :| Enumerates(tokens, r.gw.Keys) && SyncRun(r, r.gw, tokens, w');
    SyncTokens(r, r.gw, tokens, w', w'.gw.Keys);
  }

  /** Rows that share no id with a strange Gateway key all reach the Gateway. */
  lemma PassReaches(w: World, rows: seq<KeyMetadata>, targets: set<string>, h: World,
                    order: seq<string>, outs: seq<Outcome>, w': World)
    requires GatewayWellFormed(w.gw) && Passed(w, rows, targets, h, order, outs, w') && NoFailure(outs)
    requires SharedIdsKnown(w.pg, w.gw)
    ensures TokensWithin(w.pg, w'.gw.Keys) && TokensWithin(w'.pg, w'.gw.Keys)
  {
    forall i | i in h.admin && h.admin[i].token != "" && i in GatewayIds(w.gw) ensures h.admin[i].token in w.gw {
      EntriesAreRows(w, rows, targets, h, i);
    }
    PassConverges(w, rows, targets, h, order, outs, w');
    PassKeepsTokens(w, rows, targets, h, order, outs, w');
  }

  /** For rows without repeated tokens that is exact: every pass reaches all of them, or none does. */
  lemma PassReachesExactly(w: World, rows: seq<KeyMetadata>, targets: set<string>, h: World,
                           order: seq<string>, outs: seq<Outcome>, w': World)
    requires GatewayWellFormed(w.gw) && Passed(w, rows, targets, h, order, outs, w') && NoFailure(outs)
    requires UniqueTokens(w.pg)
    ensures TokensWithin(w.pg, w'.gw.Keys) <==> SharedIdsKnown(w.pg, w.gw)
  {
    PassConverges(w, rows, targets, h, order, outs, w');
    if SharedIdsKnown(w.pg, w.gw) {
      PassReaches(w, rows, targets, h, order, outs, w');
    }
    if SharedIdsKnown(h.admin, w.gw) {
      forall i | i in w.pg && w.pg[i].token != "" && i in GatewayIds(w.gw) ensures w.pg[i].token in w.gw {
        UniqueRowsAreEntries(w, rows, targets, h, i);
      }
    }
  }

  /** Every id stands for one token, wherever it is used. */
  ghost predicate IdsStandFor(pg: Keys, g: GatewayKeys, bound: map<string, string>) {
    && (forall i :: i in pg && pg[i].token != "" ==> i in bound && bound[i] == pg[i].token)
    && (forall t :: t in g ==> g[t].id in bound && bound[g[t].id] == t)
  }

  /** Ids the protocol hands out stand for one token for life, and then every token is reached. */
  lemma PassReachesBound(w: World, rows: seq<KeyMetadata>, targets: set<string>, h: World,
                         order: seq<string>, outs: seq<Outcome>, w': World, bound: map<string, string>)
    requires GatewayWellFormed(w.gw) && Passed(w, rows, targets, h, order, outs, w') && NoFailure(outs)
    requires IdsStandFor(w.pg, w.gw, bound)
    ensures TokensWithin(w.pg, w'.gw.Keys)
  {
    forall i | i in w.pg && w.pg[i].token != "" && i in GatewayIds(w.gw) ensures w.pg[i].token in w.gw {
      var t :| t in w.gw && w.gw[t].id == i;
    }
    PassReaches(w, rows, targets, h, order, outs, w');
  }

  lemma SameTokens(m: Keys, m': Keys)
    requires TokensOf(m) == TokensOf(m')
    ensures forall s :: TokensWithin(m, s) <==> TokensWithin(m', s)
  {
    forall s ensures TokensWithin(m, s) <==> TokensWithin(m', s) {
      TokensWithinOf(m, s);
      TokensWithinOf(m', s);
    }
  }

  lemma TokensWithinOf(m: Keys, s: set<string>)
    ensures TokensWithin(m, s) <==> TokensOf(m) <= s
  {
    if TokensOf(m) <= s {
      forall i | i in m && m[i].token != "" ensures m[i].token in s {
        assert m[i].token in TokensOf(m);
      }
    }
  }

  /** A dual-write that lands late: rows of an earlier snapshot are written over the table. */
  ghost predicate Flushed(w: World, snapshot: Keys, w': World) {
    w' == w.(pg := w.pg + snapshot)
  }

  /** No row waits to be pushed: its token is on the Gateway, or its id is. */
  ghost predicate RowsSettled(pg: Keys, g: GatewayKeys) {
    forall i :: i in pg && pg[i].token != "" ==> pg[i].token in g || i in GatewayIds(g)
  }

  /** A pass over settled rows restores nothing. */
  lemma SettledPassIsQuiet(w: World, rows: seq<KeyMetadata>, targets: set<string>, h: World,
                           order: seq<string>, outs: seq<Outcome>, w': World)
    requires GatewayWellFormed(w.gw) && Passed(w, rows, targets, h, order, outs, w') && NoFailure(outs)
    requires RowsSettled(w.pg, w.gw)
    ensures RestoredCount(outs) == 0 && w'.gw == w.gw && InAgreement(w'.admin, w'.gw)
  {
    HydrateEffect(w, rows, targets, h);
    var r :| Reconciled(h, order, outs, r) && Synced(r, w');
    forall i | i in h.admin && h.admin[i].token != "" && i !in GatewayIds(h.gw) ensures h.admin[i].token in h.gw {
      EntriesAreRows(w, rows, targets, h, i);
    }
    NothingToPush(h, order, outs, r);
    PassConverges(w, rows, targets, h, order, outs, w');
    SyncKeepsGateway(h, order, outs, r, w');
  }

  lemma SyncKeepsGateway(h: World, order: seq<string>, outs: seq<Outcome>, r: World, w': World)
    requires GatewayWellFormed(h.gw) && WellKeyed(h.admin) && UniqueTokens(h.admin)
    requires Reconciled(h, order, outs, r) && NoFailure(outs) && Synced(r, w')
    ensures w'.gw == r.gw
  {
    ReconcileReaches(h, order, outs, r);
    SyncAgrees(r, w');
  }

  lemma NothingToPush(h: World, order: seq<string>, outs: seq<Outcome>, r: World)
    requires GatewayWellFormed(h.gw) && WellKeyed(h.admin) && UniqueTokens(h.admin)
    requires Reconciled(h, order, outs, r) && NoFailure(outs)
    requires forall i :: i in h.admin && h.admin[i].token != "" && i !in GatewayIds(h.gw) ==> h.admin[i].token in h.gw
    ensures RestoredCount(outs) == 0 && r.gw == h.gw
  {
    RunPushesNothing(h, h.gw, h.admin, order, outs, r);
  }

  /**
   Self-stabilisation: after a pass over rows that share no id with a strange Gateway key, any late
   flush of keys the Gateway knows, and a second pass, nothing is restored, the Gateway is unchanged
   and Admin files the same tokens under the same ids.
   */
  lemma SecondPassIsQuiet(w: World, rows: seq<KeyMetadata>, targets: set<string>, h: World,
                          order: seq<string>, outs: seq<Outcome>, w1: World,
                          snapshot: Keys, w2: World,
                          rows': seq<KeyMetadata>, targets': set<string>, h': World,
                          order': seq<string>, outs': seq<Outcome>, w3: World)
    requires GatewayWellFormed(w.gw) && SharedIdsKnown(w.pg, w.gw)
    requires Passed(w, rows, targets, h, order, outs, w1) && NoFailure(outs)
    requires Flushed(w1, snapshot, w2) && TokensWithin(snapshot, w1.gw.Keys)
    requires Passed(w2, rows', targets', h', order', outs', w3) && NoFailure(outs')
    ensures RestoredCount(outs') == 0 && w3.gw == w1.gw
    ensures SameTable(w1.admin, w3.admin) && InAgreement(w3.admin, w3.gw)
  {
    PassConverges(w, rows, targets, h, order, outs, w1);
    PassReaches(w, rows, targets, h, order, outs, w1);
    SettledPassIsQuiet(w2, rows', targets', h', order', outs', w3);
    AgreementFixesTable(w1.admin, w3.admin, w1.gw);
  }

  /** The same tokens under the same ids. */
  ghost predicate SameTable(m: Keys, m': Keys) {
    && (forall i :: i in m && m[i].token != "" ==> i in m' && m'[i].token == m[i].token)
    && (forall i :: i in m' && m'[i].token != "" ==> i in m && m[i].token == m'[i].token)
  }

  lemma AgreementFixesTable(m: Keys, m': Keys, g: GatewayKeys)
    requires InAgreement(m, g) && InAgreement(m', g)
    ensures SameTable(m, m')
  {
    forall i | i in m && m[i].token != "" ensures i in m' && m'[i].token == m[i].token {
      assert Matches(m', g, m[i].token);
    }
    forall i | i in m' && m'[i].token != "" ensures i in m && m[i].token == m'[i].token {
      assert Matches(m, g, m'[i].token);
    }
  }
}
