/** What every sequence of reconcile and sync runs keeps: budgets, and PostgreSQL as a mirror of Admin. */
module KeyBudgets {
  import opened Common
  import opened ClientKeys
  import opened KeyRestore

  /** Everything about a key that only Admin knows: all but id, name, token and Gateway limits. */
  function Budget(meta: KeyMetadata): KeyMetadata {
    meta.(id := "", name := "", token := "", rpmLimit := 0, maxConcurrent := 0)
  }

  ghost predicate HasBudget(m: Keys, token: string, b: KeyMetadata) {
    exists j :: j in m && m[j].token == token && Budget(m[j]) == b
  }

  /** Every token of `m` is still held in `m'`, with the same budget. */
  ghost predicate KeepsBudgets(m: Keys, m': Keys) {
    forall i :: i in m && m[i].token != "" ==> HasBudget(m', m[i].token, Budget(m[i]))
  }

  lemma KeepsBudgetsTransitive(m: Keys, m': Keys, m'': Keys)
    requires KeepsBudgets(m, m') && KeepsBudgets(m', m'')
    ensures KeepsBudgets(m, m'')
  {
    forall i | i in m && m[i].token != "" ensures HasBudget(m'', m[i].token, Budget(m[i])) {
      assert HasBudget(m', m[i].token, Budget(m[i]));
      var j :| j in m' && m'[j].token == m[i].token && Budget(m'[j]) == Budget(m[i]);
      assert HasBudget(m'', m'[j].token, Budget(m'[j]));
    }
  }

  /** An id known to both sides names one key: Admin's entry under it holds the Gateway's token,
      or no token while nobody else holds it. */
  ghost predicate Compatible(m: Keys, g: GatewayKeys) {
    forall t :: t in g && g[t].id in m ==>
      m[g[t].id].token == t || (m[g[t].id].token == "" && forall k :: k in m ==> m[k].token != t)
  }

  ghost predicate Consistent(w: World) {
    && WellKeyed(w.admin) && UniqueTokens(w.admin)
    && GatewayWellFormed(w.gw) && Compatible(w.admin, w.gw)
  }

  /** The same limit, usage, quota, expiry, models and month. */
  predicate SameBudget(a: KeyMetadata, b: KeyMetadata) {
    && a.monthlyTokenLimit == b.monthlyTokenLimit && a.tokensThisMonth == b.tokensThisMonth
    && a.inputTokens == b.inputTokens && a.outputTokens == b.outputTokens
    && a.remainQuota == b.remainQuota && a.unlimitedQuota == b.unlimitedQuota
    && a.expiredAt == b.expiredAt && a.modelLimits == b.modelLimits && a.usageMonth == b.usageMonth
  }

  /** The same key as far as it is stored: token, budget and origin. */
  predicate SameKey(a: KeyMetadata, b: KeyMetadata) {
    a.token == b.token && SameBudget(a, b) && a.dashboardCreated == b.dashboardCreated
  }

  /** Every PostgreSQL row with a token is an Admin entry with that id, token, budget and origin. */
  ghost predicate Mirrored(w: World) {
    forall i :: i in w.pg && w.pg[i].token != "" ==> i in w.admin && SameKey(w.pg[i], w.admin[i])
  }

  ghost predicate HasRow(pg: Keys, row: KeyMetadata) {
    exists j :: j in pg && SameKey(row, pg[j])
  }

  /** Every row with a token has a row of the same token, budget and origin. */
  ghost predicate KeepsRows(pg: Keys, pg': Keys) {
    pg' == pg || forall i :: i in pg && pg[i].token != "" ==> HasRow(pg', pg[i])
  }

  /** A migration whose write goes through stores the whole budget under the new id, the delete failing or not. */
  lemma MigrationStoresBudget(w: World, oldId: string, newId: string, token: string, deleted: bool, w': World)
    requires oldId != newId && oldId in w.admin && Migrated(w, oldId, newId, token, w')
    requires var meta := w.admin[oldId].(id := newId, token := if token == "" then w.admin[oldId].token else token);
             PgMoved(w, oldId, meta, deleted, true, w')
    ensures newId in w'.pg && newId in w'.admin && w'.pg[newId].id == newId
    ensures var was, row := w.admin[oldId], w'.pg[newId];
            && SameBudget(row, was) && row.dashboardCreated == was.dashboardCreated
            && row.token == (if token == "" then was.token else token)
            && row.name == was.name && row.rpmLimit == was.rpmLimit && row.maxConcurrent == was.maxConcurrent
    ensures SameKey(w'.pg[newId], w'.admin[newId])
    ensures deleted ==> oldId !in w'.pg
  {
  }

  /** One step: consistency, budgets, and the mirror unless a PostgreSQL call failed. */
  ghost predicate Kept(w: World, w': World) {
    && Consistent(w') && KeepsBudgets(w.admin, w'.admin)
    && w.pgFaults <= w'.pgFaults && (WellKeyed(w.pg) ==> WellKeyed(w'.pg))
    && (Mirrored(w) && w'.pgFaults == w.pgFaults ==> Mirrored(w') && KeepsRows(w.pg, w'.pg))
  }

  lemma KeptTransitive(w: World, w': World, w'': World)
    requires Kept(w, w') && Kept(w', w'')
    ensures Kept(w, w'')
  {
    KeepsBudgetsTransitive(w.admin, w'.admin, w''.admin);
    if Mirrored(w) && w''.pgFaults == w.pgFaults {
      KeepsRowsTransitive(w.pg, w'.pg, w''.pg);
    }
  }

  lemma KeepsRowsTransitive(pg: Keys, pg': Keys, pg'': Keys)
    requires KeepsRows(pg, pg') && KeepsRows(pg', pg'')
    ensures KeepsRows(pg, pg'')
  {
    forall i | i in pg && pg[i].token != "" && pg' != pg && pg'' != pg' ensures HasRow(pg'', pg[i]) {
      assert HasRow(pg', pg[i]);
      var k :| k in pg' && SameKey(pg[i], pg'[k]);
      assert HasRow(pg'', pg'[k]);
    }
  }

  lemma UnchangedAdminKeeps(w: World, w': World)
    requires Consistent(w) && w'.admin == w.admin && w'.pg == w.pg && w'.pgFaults == w.pgFaults
    requires GatewayWellFormed(w'.gw) && Compatible(w'.admin, w'.gw)
    ensures Kept(w, w')
  {
    forall i | i in w.admin && w.admin[i].token != "" ensures HasBudget(w'.admin, w.admin[i].token, Budget(w.admin[i])) {
      assert i in w'.admin;
    }
  }

  /** Moving an entry to its token's Gateway id never overwrites another one and keeps everything. */
  lemma MoveKeepsAll(w: World, oldId: string, meta: KeyMetadata, w': World)
    requires Consistent(w) && oldId in w.admin && oldId != meta.id
    requires meta.token != "" && w.admin[oldId].token == meta.token && Budget(w.admin[oldId]) == Budget(meta)
    requires meta.token in w.gw && w.gw[meta.token].id == meta.id
    requires Moved(w, oldId, meta, w')
    ensures meta.id !in w.admin && Kept(w, w')
  {
    var m, m' := w.admin, w'.admin;
    assert meta.id !in m;
    forall i | i in m && m[i].token != "" ensures HasBudget(m', m[i].token, Budget(m[i])) {
      if i == oldId { assert meta.id in m'; } else { assert i in m'; }
    }
    forall t | t in w.gw && w.gw[t].id in m'
      ensures m'[w.gw[t].id].token == t || (m'[w.gw[t].id].token == "" && forall k :: k in m' ==> m'[k].token != t)
    {
      if w.gw[t].id != meta.id {
        assert w.gw[t].id in m;
        assert t != meta.token;
      }
    }
    if Mirrored(w) && w'.pgFaults == w.pgFaults {
      MoveKeepsRows(w, oldId, meta, w');
    }
  }

  lemma MoveKeepsRows(w: World, oldId: string, meta: KeyMetadata, w': World)
    requires Mirrored(w) && oldId in w.admin && meta.id !in w.admin && Moved(w, oldId, meta, w')
    requires w.admin[oldId].token == meta.token && Budget(w.admin[oldId]) == Budget(meta)
    requires w'.pgFaults == w.pgFaults
    ensures Mirrored(w') && KeepsRows(w.pg, w'.pg)
  {
    var pg' := w'.pg;
    assert pg' == (w.pg - {oldId})[meta.id := Persisted(meta)];
    BudgetIsBudget(w.admin[oldId], meta);
    forall i | i in pg' && pg'[i].token != "" ensures i in w'.admin && SameKey(pg'[i], w'.admin[i]) {
      if i != meta.id { assert i in w.pg && i != oldId; }
    }
    forall i | i in w.pg && w.pg[i].token != "" ensures HasRow(pg', w.pg[i]) {
      var j := if i == oldId then meta.id else i;
      assert i in w.admin && SameKey(w.pg[i], w.admin[i]);
      assert j in pg' && SameKey(w.pg[i], pg'[j]);
    }
  }

  lemma BudgetIsBudget(a: KeyMetadata, b: KeyMetadata)
    requires Budget(a) == Budget(b)
    ensures SameBudget(a, b) && a.dashboardCreated == b.dashboardCreated && a.currentRpm == b.currentRpm
  {
    assert Budget(a).dashboardCreated == a.dashboardCreated && Budget(b).dashboardCreated == b.dashboardCreated;
  }

  lemma CreateKeepsAll(w: World, meta: KeyMetadata, newId: string, g: GatewayKeys)
    requires Consistent(w) && Created(w, meta, newId, g)
    ensures Kept(w, w.(gw := g))
  {
    assert exists c :: c in meta.token && !Space(c);
    forall s | s in w.gw ensures g[s].id != newId {
      assert w.gw[s].id in GatewayIds(w.gw);
    }
    UnchangedAdminKeeps(w, w.(gw := g));
  }

  lemma ReconcileStepKeepsAll(w: World, g0: GatewayKeys, id: string, meta: KeyMetadata, out: Outcome, w': World)
    requires Consistent(w) && ReconcileStep(w, g0, id, meta, out, w')
    requires forall t :: t in g0 ==> t in w.gw && w.gw[t] == g0[t]
    requires meta.token != "" && id !in GatewayIds(g0) && id in w.admin ==> w.admin[id].token == meta.token
    ensures Kept(w, w')
    ensures forall t :: t in w.gw ==> t in w'.gw && w'.gw[t] == w.gw[t]
    ensures forall i :: i in w.admin && i != id ==> i in w'.admin && w'.admin[i] == w.admin[i]
  {
    UnchangedAdminKeeps(w, w);
    if meta.token == "" || id in GatewayIds(g0) {
    } else if meta.token in g0 {
      MigrateKeepsAll(w, id, g0[meta.token].id, meta.token, w');
    } else if out.Restored? {
      var g :| Created(w, meta, out.newId, g) && Migrated(w.(gw := g), id, out.newId, meta.token, w');
      CreateKeepsAll(w, meta, out.newId, g);
      MigrateKeepsAll(w.(gw := g), id, out.newId, meta.token, w');
      KeptTransitive(w, w.(gw := g), w');
    } else if out.TimedOut? {
      CreateKeepsAll(w, meta, out.newId, w'.gw);
    }
  }

  lemma MigrateKeepsAll(w: World, id: string, newId: string, token: string, w': World)
    requires Consistent(w) && Migrated(w, id, newId, token, w')
    requires token != "" && (id in w.admin ==> w.admin[id].token == token)
    requires token in w.gw && w.gw[token].id == newId
    ensures Kept(w, w') && w'.gw == w.gw
    ensures forall i :: i in w.admin && i != id ==> i in w'.admin && w'.admin[i] == w.admin[i]
  {
    if id == newId || id !in w.admin {
      UnchangedAdminKeeps(w, w);
    } else {
      MoveKeepsAll(w, id, w.admin[id].(id := newId, token := token), w');
    }
  }

  /** Writing the Gateway's entry for `t` at its id, over the same key or over nothing. */
  lemma PutKeepsAll(w: World, t: string, meta: KeyMetadata)
    requires Consistent(w) && t in w.gw && meta.id == w.gw[t].id && meta.token == t
    requires forall i :: i in w.admin && w.admin[i].token == t ==> i == meta.id
    requires meta.id in w.admin ==> Budget(w.admin[meta.id]) == Budget(meta)
    ensures Kept(w, w.(admin := w.admin[meta.id := meta]))
  {
    var m, m' := w.admin, w.admin[meta.id := meta];
    forall i | i in m && m[i].token != "" ensures HasBudget(m', m[i].token, Budget(m[i])) {
      assert i in m' && Budget(m'[i]) == Budget(m[i]);
      assert i == meta.id ==> m[i].token == t;
    }
    forall s | s in w.gw && w.gw[s].id in m'
      ensures m'[w.gw[s].id].token == s || (m'[w.gw[s].id].token == "" && forall k :: k in m' ==> m'[k].token != s)
    {
      if s != t { assert w.gw[s].id != meta.id; }
    }
    assert UniqueTokens(m');
    if meta.id in m { BudgetIsBudget(m[meta.id], meta); }
  }

  lemma SyncStepKeepsAll(w: World, t: string, w': World)
    requires Consistent(w) && t in w.gw && SyncStep(w, SpecOf(w.gw, t), w')
    ensures Kept(w, w') && w'.gw == w.gw
  {
    var spec := SpecOf(w.gw, t);
    var m := w.admin;
    if spec.id in m {
      PutKeepsAll(w, t, Applied(m[spec.id], spec));
    } else if exists i :: HoldsToken(m, i, t, spec.id) {
      var i :| HoldsToken(m, i, t, spec.id) && Moved(w, i, Applied(m[i].(id := spec.id), spec), w');
      MoveKeepsAll(w, i, Applied(m[i].(id := spec.id), spec), w');
    } else {
      forall i | i in m && m[i].token == t ensures i == spec.id {
        assert !HoldsToken(m, i, t, spec.id);
      }
      PutKeepsAll(w, t, Adopted(spec));
    }
  }

  /** The part of compatibility that concerns one Gateway key. */
  ghost predicate CompatibleAt(m: Keys, g: GatewayKeys, t: string)
    requires t in g
  {
    g[t].id in m ==>
      m[g[t].id].token == t || (m[g[t].id].token == "" && forall k :: k in m ==> m[k].token != t)
  }

  lemma MoveKeepsOne(m: Keys, i: string, meta: KeyMetadata)
    requires UniqueTokens(m) && i in m && meta.id !in m
    requires meta.token == m[i].token && Budget(meta) == Budget(m[i])
    ensures var m' := (m - {i})[meta.id := meta];
            KeepsBudgets(m, m') && UniqueTokens(m')
  {
    var m' := (m - {i})[meta.id := meta];
    forall k | k in m && m[k].token != "" ensures HasBudget(m', m[k].token, Budget(m[k])) {
      if k == i { assert meta.id in m'; } else { assert k in m'; }
    }
  }

  lemma PutKeepsOne(m: Keys, meta: KeyMetadata)
    requires UniqueTokens(m) && forall k :: k in m && k != meta.id ==> m[k].token != meta.token
    requires meta.id in m ==> Budget(m[meta.id]) == Budget(meta) && (m[meta.id].token == "" || m[meta.id].token == meta.token)
    ensures var m' := m[meta.id := meta];
            KeepsBudgets(m, m') && UniqueTokens(m')
  {
    var m' := m[meta.id := meta];
    forall k | k in m && m[k].token != "" ensures HasBudget(m', m[k].token, Budget(m[k])) {
      assert k in m' && Budget(m'[k]) == Budget(m[k]) && m'[k].token == m[k].token;
    }
  }

  lemma SyncStepKeepsOne(w: World, t: string, w': World)
    requires WellKeyed(w.admin) && UniqueTokens(w.admin) && t in w.gw && t != ""
    requires SyncStep(w, SpecOf(w.gw, t), w') && CompatibleAt(w.admin, w.gw, t)
    ensures KeepsBudgets(w.admin, w'.admin) && UniqueTokens(w'.admin)
  {
    var spec, m := SpecOf(w.gw, t), w.admin;
    if spec.id in m {
      PutKeepsOne(m, Applied(m[spec.id], spec));
    } else if exists i :: HoldsToken(m, i, t, spec.id) {
      var i :| HoldsToken(m, i, t, spec.id) && Moved(w, i, Applied(m[i].(id := spec.id), spec), w');
      MoveKeepsOne(m, i, Applied(m[i].(id := spec.id), spec));
    } else {
      forall k | k in m && k != spec.id ensures m[k].token != t {
        assert !HoldsToken(m, k, t, spec.id);
      }
      PutKeepsOne(m, Adopted(spec));
    }
  }

  lemma SyncStepLosesOne(w: World, t: string, w': World)
    requires WellKeyed(w.admin) && UniqueTokens(w.admin) && t in w.gw && t != ""
    requires SyncStep(w, SpecOf(w.gw, t), w') && !CompatibleAt(w.admin, w.gw, t)
    ensures !KeepsBudgets(w.admin, w'.admin) || !UniqueTokens(w'.admin)
  {
    var id, m, m' := w.gw[t].id, w.admin, w'.admin;
    assert m' == m[id := Applied(m[id], SpecOf(w.gw, t))] && m'[id].token == t;
    if m[id].token != "" {
      forall j | j in m' ensures m'[j].token != m[id].token {
      }
      assert !HasBudget(m', m[id].token, Budget(m[id]));
    } else {
      var k :| k in m && m[k].token == t;
      assert k in m' && m'[k].token == t && k != id;
    }
  }

  /** Compatibility is what it takes: a sync step keeps budgets and unique tokens exactly when its key is compatible. */
  lemma SyncStepKeepsExactly(w: World, t: string, w': World)
    requires WellKeyed(w.admin) && UniqueTokens(w.admin) && t in w.gw && t != ""
    requires SyncStep(w, SpecOf(w.gw, t), w')
    ensures KeepsBudgets(w.admin, w'.admin) && UniqueTokens(w'.admin) <==> CompatibleAt(w.admin, w.gw, t)
  {
    if CompatibleAt(w.admin, w.gw, t) {
      SyncStepKeepsOne(w, t, w');
    } else {
      SyncStepLosesOne(w, t, w');
    }
  }

  /** Where a restore pass ends, every run of events may start. */
  lemma AgreementIsConsistent(w: World)
    requires InAgreement(w.admin, w.gw) && WellKeyed(w.admin) && GatewayWellFormed(w.gw)
    ensures Consistent(w)
  {
    forall t | t in w.gw ensures w.gw[t].id in w.admin && w.admin[w.gw[t].id].token == t {
      assert Matches(w.admin, w.gw, t);
    }
  }

  lemma {:induction false} ReconcileRunKeepsAll(w: World, order: seq<string>, outs: seq<Outcome>, w': World)
    requires Consistent(w) && forall i :: i in order ==> i in w.admin
    requires forall i, j :: 0 <= i < j < |order| ==> order[i] != order[j]
    requires ReconcileRun(w, w.gw, w.admin, order, outs, w')
    ensures Kept(w, w')
    ensures forall t :: t in w.gw ==> t in w'.gw && w'.gw[t] == w.gw[t]
    ensures forall i :: i in w.admin && i !in order ==> i in w'.admin && w'.admin[i] == w.admin[i]
    decreases |order|
  {
    if order == [] {
      UnchangedAdminKeeps(w, w);
    } else {
      var n := |order| - 1;
      var front, id := order[..n], order[n];
      LastApart(order);
      var mid :| ReconcileRun(w, w.gw, w.admin, front, outs[..n], mid)
              && ReconcileStep(mid, w.gw, id, w.admin[id], outs[n], w');
      ReconcileRunKeepsAll(w, front, outs[..n], mid);
      ReconcileStepKeepsAll(mid, w.gw, id, w.admin[id], outs[n], w');
      KeptTransitive(w, mid, w');
    }
  }

  lemma {:induction false} SyncRunKeepsAll(w: World, tokens: seq<string>, w': World)
    requires Consistent(w) && forall t :: t in tokens ==> t in w.gw
    requires SyncRun(w, w.gw, tokens, w')
    ensures Kept(w, w') && w'.gw == w.gw
    decreases |tokens|
  {
    if tokens == [] {
      UnchangedAdminKeeps(w, w);
    } else {
      var n := |tokens| - 1;
      var mid :| SyncRun(w, w.gw, tokens[..n], mid) && SyncStep(mid, SpecOf(w.gw, tokens[n]), w');
      SyncRunKeepsAll(w, tokens[..n], mid);
      SyncStepKeepsAll(mid, tokens[n], w');
      KeptTransitive(w, mid, w');
    }
  }

  // ---------------------------------------------------------------------------
  // Whole runs
  // ---------------------------------------------------------------------------

  /** What may happen next: a reconcile, a sync, or the Gateway losing keys (restart, revoke). */
  datatype Event =
    | Reconcile(order: seq<string>, outs: seq<Outcome>)
    | Sync
    | GatewayLoss(lost: set<string>)

  ghost predicate Happens(w: World, e: Event, w': World) {
    match e
    case Reconcile(order, outs) => Reconciled(w, order, outs, w')
    case Sync => Synced(w, w')
    case GatewayLoss(lost) => w' == w.(gw := w.gw - lost)
  }

  ghost predicate Run(w: World, events: seq<Event>, w': World)
    decreases |events|
  {
    if events == [] then w' == w
    else
      var n := |events| - 1;
      exists mid :: Run(w, events[..n], mid) && Happens(mid, events[n], w')
  }

  lemma EventKeeps(w: World, e: Event, w': World)
    requires Consistent(w) && Happens(w, e, w')
    ensures Kept(w, w')
  {
    match e
    case Reconcile(order, outs) => ReconcileRunKeepsAll(w, order, outs, w');
    case Sync =>
      var tokens :| Enumerates(tokens, w.gw.Keys) && SyncRun(w, w.gw, tokens, w');
      SyncRunKeepsAll(w, tokens, w');
    case GatewayLoss(lost) => UnchangedAdminKeeps(w, w');
  }

  /**
   Over every run of reconciles, syncs and Gateway losses, in any order and with any failures,
   every token Admin held is still held once, with its budget untouched; as long as no PostgreSQL
   call fails, PostgreSQL stays a mirror of Admin and loses neither a row's token nor its budget.
   */
  lemma {:induction false} RunKeepsBudgets(w: World, events: seq<Event>, w': World)
    requires Consistent(w) && Run(w, events, w')
    ensures Consistent(w') && KeepsBudgets(w.admin, w'.admin)
    ensures w.pgFaults <= w'.pgFaults
    ensures WellKeyed(w.pg) ==> WellKeyed(w'.pg)
    ensures Mirrored(w) && w'.pgFaults == w.pgFaults ==> Mirrored(w') && KeepsRows(w.pg, w'.pg)
    decreases |events|
  {
    if events == [] {
      UnchangedAdminKeeps(w, w);
    } else {
      var n := |events| - 1;
      var mid :| Run(w, events[..n], mid) && Happens(mid, events[n], w');
      RunKeepsBudgets(w, events[..n], mid);
      EventKeeps(mid, events[n], w');
      KeptTransitive(w, mid, w');
    }
  }

  /** No run, whatever it loses on the way, costs a token its budget or files it twice. */
  ghost predicate EveryRunKeeps(w: World) {
    forall events, w' :: Run(w, events, w') ==> KeepsBudgets(w.admin, w'.admin) && UniqueTokens(w'.admin)
  }

  lemma TwoEvents(w: World, e: Event, mid: World, f: Event, w': World)
    requires Happens(w, e, mid) && Happens(mid, f, w')
    ensures Run(w, [e, f], w')
  {
    assert [e][..0] == [] && Run(w, [], w);
    assert [e, f][..1] == [e] && Run(w, [e], mid);
  }

  lemma LoneSync(w: World, t: string, w': World)
    requires w.gw.Keys == {t} && SyncStep(w, SpecOf(w.gw, t), w')
    ensures Synced(w, w')
  {
    assert [t][..0] == [] && SyncRun(w, w.gw, [], w);
    assert Enumerates([t], w.gw.Keys) && SyncRun(w, w.gw, [t], w');
  }

  /** The Gateway is left with the strange key alone, and a sync follows. */
  lemma StrangeIdLosesBudget(w: World, t: string)
    requires WellKeyed(w.admin) && UniqueTokens(w.admin) && GatewayWellFormed(w.gw)
    requires t in w.gw && !CompatibleAt(w.admin, w.gw, t)
    ensures !EveryRunKeeps(w)
  {
    var id, lone, spec := w.gw[t].id, w.(gw := map[t := w.gw[t]]), SpecOf(w.gw, t);
    var w' := lone.(admin := w.admin[id := Applied(w.admin[id], spec)]);
    assert SyncStep(lone, spec, w') && SpecOf(lone.gw, t) == spec;
    SyncStepLosesOne(lone, t, w');
    LoneSync(lone, t, w');
    assert lone.gw == w.gw - (w.gw.Keys - {t});
    TwoEvents(w, GatewayLoss(w.gw.Keys - {t}), lone, Sync, w');
  }

  /** Compatibility of the start is exactly what every run needs to keep the budgets. */
  lemma EveryRunKeepsExactly(w: World)
    requires WellKeyed(w.admin) && UniqueTokens(w.admin) && GatewayWellFormed(w.gw)
    ensures EveryRunKeeps(w) <==> Compatible(w.admin, w.gw)
  {
    if Compatible(w.admin, w.gw) {
      forall events, w' | Run(w, events, w') ensures KeepsBudgets(w.admin, w'.admin) && UniqueTokens(w'.admin) {
        RunKeepsBudgets(w, events, w');
      }
    } else {
      var t :| t in w.gw && !CompatibleAt(w.admin, w.gw, t);
      StrangeIdLosesBudget(w, t);
    }
  }
}
