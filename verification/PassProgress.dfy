/** When a restore pass can go through: runs without failures exist, and exactly when. */
module PassProgress {
  import opened Common
  import opened ClientKeys
  import opened KeyRestore
  import opened RestorePass
  import DriftCheck

  // ---------------------------------------------------------------------------
  // Reconcile
  // ---------------------------------------------------------------------------

  /** The move with both PostgreSQL calls succeeding. */
  function MovedTo(w: World, oldId: string, meta: KeyMetadata): World {
    World((w.admin - {oldId})[meta.id := meta], (w.pg - {oldId})[meta.id := KeyRestore.Persisted(meta)], w.gw, w.pgFaults)
  }

  function MigratedTo(w: World, oldId: string, newId: string, token: string): World {
    if oldId == newId || oldId !in w.admin then w
    else
      var moved := w.admin[oldId].(id := newId);
      MovedTo(w, oldId, if token == "" then moved else moved.(token := token))
  }

  lemma MoveWorks(w: World, oldId: string, meta: KeyMetadata)
    ensures Moved(w, oldId, meta, MovedTo(w, oldId, meta))
  {
    assert PgMoved(w, oldId, meta, true, true, MovedTo(w, oldId, meta));
  }

  lemma MigrationWorks(w: World, oldId: string, newId: string, token: string)
    ensures Migrated(w, oldId, newId, token, MigratedTo(w, oldId, newId, token))
  {
    if oldId != newId && oldId in w.admin {
      var moved := w.admin[oldId].(id := newId);
      MoveWorks(w, oldId, if token == "" then moved else moved.(token := token));
    }
  }

  lemma CreationPossible(w: World, meta: KeyMetadata)
    requires Acceptable(meta.token) && meta.token !in w.gw
    ensures exists newId, g :: Created(w, meta, newId, g)
  {
    FreshIdExists(GatewayIds(w.gw) + w.admin.Keys + w.pg.Keys);
    var newId :| newId !in GatewayIds(w.gw) + w.admin.Keys + w.pg.Keys;
    assert Created(w, meta, newId, w.gw[meta.token := StoredKey(newId, meta.name, meta.rpmLimit % U32, meta.maxConcurrent)]);
  }

  /** A step that neither fails nor times out, and no failing PostgreSQL call. */
  ghost predicate CleanStep(w: World, g0: GatewayKeys, id: string, meta: KeyMetadata, out: Outcome, w': World) {
    ReconcileStep(w, g0, id, meta, out, w') && !out.Failed? && !out.TimedOut? && w'.pgFaults == w.pgFaults
  }

  lemma StepPossible(w0: World, done: seq<string>, w: World, id: string)
    requires UniqueTokens(w0.admin) && GatewayGrew(w0, done, w.gw) && Pushable(w0.admin, w0.gw)
    requires id in w0.admin && id !in done
    ensures exists out, w' :: CleanStep(w, w0.gw, id, w0.admin[id], out, w')
  {
    var meta := w0.admin[id];
    if meta.token == "" || id in GatewayIds(w0.gw) {
      assert CleanStep(w, w0.gw, id, meta, Skipped, w);
    } else if meta.token in w0.gw {
      var newId := w0.gw[meta.token].id;
      MigrationWorks(w, id, newId, meta.token);
      assert CleanStep(w, w0.gw, id, meta, Aligned, MigratedTo(w, id, newId, meta.token));
    } else {
      CreationPossible(w, meta);
      var newId, g :| Created(w, meta, newId, g);
      MigrationWorks(w.(gw := g), id, newId, meta.token);
      assert CleanStep(w, w0.gw, id, meta, Restored(newId), MigratedTo(w.(gw := g), id, newId, meta.token));
    }
  }

  ghost predicate CleanRun(w: World, order: seq<string>, outs: seq<Outcome>, w': World)
    requires forall i :: i in order ==> i in w.admin
  {
    && ReconcileRun(w, w.gw, w.admin, order, outs, w') && |outs| == |order|
    && NoFailure(outs) && w'.pgFaults == w.pgFaults
  }

  lemma {:induction false} RunPossible(w: World, order: seq<string>)
    requires GatewayWellFormed(w.gw) && WellKeyed(w.admin) && UniqueTokens(w.admin) && Pushable(w.admin, w.gw)
    requires forall i :: i in order ==> i in w.admin
    requires forall i, j :: 0 <= i < j < |order| ==> order[i] != order[j]
    ensures exists outs, w' :: CleanRun(w, order, outs, w')
    decreases |order|
  {
    if order == [] {
      assert CleanRun(w, order, [], w);
    } else {
      var n := |order| - 1;
      LastApart(order);
      RunPossible(w, order[..n]);
      var front, mid :| CleanRun(w, order[..n], front, mid);
      ReconcileRunKeeps(w, order[..n], front, mid);
      StepPossible(w, order[..n], mid, order[n]);
      var out, w' :| CleanStep(mid, w.gw, order[n], w.admin[order[n]], out, w');
      RunExtends(w, order, front, mid, out, w');
    }
  }

  lemma RunExtends(w: World, order: seq<string>, front: seq<Outcome>, mid: World, out: Outcome, w': World)
    requires order != [] && forall i :: i in order ==> i in w.admin
    requires CleanRun(w, order[..|order| - 1], front, mid)
    requires CleanStep(mid, w.gw, order[|order| - 1], w.admin[order[|order| - 1]], out, w')
    ensures CleanRun(w, order, front + [out], w')
  {
    var n := |order| - 1;
    assert (front + [out])[..n] == front && (front + [out])[n] == out;
  }

  lemma {:induction false} RunNeedsAcceptable(w: World, g0: GatewayKeys, m0: Keys, order: seq<string>,
                                              outs: seq<Outcome>, w': World)
    requires forall i :: i in order ==> i in m0
    requires ReconcileRun(w, g0, m0, order, outs, w') && NoFailure(outs)
    ensures forall i :: i in order && Missing(m0, g0, i) ==> Acceptable(m0[i].token)
    decreases |order|
  {
    if order != [] {
      var n := |order| - 1;
      var mid :| ReconcileRun(w, g0, m0, order[..n], outs[..n], mid)
              && ReconcileStep(mid, g0, order[n], m0[order[n]], outs[n], w');
      RunNeedsAcceptable(w, g0, m0, order[..n], outs[..n], mid);
      assert order == order[..n] + [order[n]];
      assert !outs[n].Failed? && !outs[n].TimedOut?;
    }
  }

  ghost predicate CleanlyReconciled(w: World, order: seq<string>) {
    exists outs, w' :: Reconciled(w, order, outs, w') && NoFailure(outs)
  }

  /** A reconcile can go through, in whatever order, if and only if every missing key has an acceptable token. */
  lemma CleanReconcileExactly(w: World, order: seq<string>)
    requires GatewayWellFormed(w.gw) && WellKeyed(w.admin) && UniqueTokens(w.admin)
    requires Enumerates(order, w.admin.Keys)
    ensures CleanlyReconciled(w, order) <==> Pushable(w.admin, w.gw)
  {
    if Pushable(w.admin, w.gw) {
      RunPossible(w, order);
      var outs, w' :| CleanRun(w, order, outs, w');
      assert Reconciled(w, order, outs, w') && NoFailure(outs);
    }
    if CleanlyReconciled(w, order) {
      var outs, w' :| Reconciled(w, order, outs, w') && NoFailure(outs);
      RunNeedsAcceptable(w, w.gw, w.admin, order, outs, w');
    }
  }

  // ---------------------------------------------------------------------------
  // Sync and hydrate
  // ---------------------------------------------------------------------------

  ghost predicate CleanSyncStep(w: World, spec: ApiKeySpec, w': World) {
    SyncStep(w, spec, w') && w'.pgFaults == w.pgFaults
  }

  lemma SyncStepPossible(w: World, spec: ApiKeySpec)
    ensures exists w' :: CleanSyncStep(w, spec, w')
  {
    var t := FullToken(spec);
    if spec.id in w.admin {
      assert CleanSyncStep(w, spec, w.(admin := w.admin[spec.id := Applied(w.admin[spec.id], spec)]));
    } else if t != "" && exists i :: HoldsToken(w.admin, i, t, spec.id) {
      var i :| HoldsToken(w.admin, i, t, spec.id);
      var meta := Applied(w.admin[i].(id := spec.id), spec);
      MoveWorks(w, i, meta);
      assert CleanSyncStep(w, spec, MovedTo(w, i, meta));
    } else {
      assert CleanSyncStep(w, spec, w.(admin := w.admin[spec.id := Adopted(spec)]));
    }
  }

  ghost predicate CleanSync(w: World, g: GatewayKeys, tokens: seq<string>, w': World)
    requires forall t :: t in tokens ==> t in g
  {
    SyncRun(w, g, tokens, w') && w'.pgFaults == w.pgFaults
  }

  lemma {:induction false} SyncPossible(w: World, g: GatewayKeys, tokens: seq<string>)
    requires forall t :: t in tokens ==> t in g
    ensures exists w' :: CleanSync(w, g, tokens, w')
    decreases |tokens|
  {
    if tokens == [] {
      assert CleanSync(w, g, tokens, w);
    } else {
      var n := |tokens| - 1;
      SyncPossible(w, g, tokens[..n]);
      var mid :| CleanSync(w, g, tokens[..n], mid);
      SyncStepPossible(mid, SpecOf(g, tokens[n]));
      var w' :| CleanSyncStep(mid, SpecOf(g, tokens[n]), w');
      assert CleanSync(w, g, tokens, w');
    }
  }

  lemma {:induction false} OrderExists(keys: set<string>)
    ensures exists order :: Enumerates(order, keys)
    decreases keys
  {
    if keys == {} {
      assert Enumerates([], keys);
    } else {
      var k :| k in keys;
      OrderExists(keys - {k});
      var order :| Enumerates(order, keys - {k});
      assert Enumerates(order + [k], keys);
    }
  }

  lemma {:induction false} DedupePossible(pg: Keys)
    ensures exists pg' :: Deduped(pg, pg')
    decreases |pg|
  {
    if pg == map[] {
      assert Deduped(pg, pg);
    } else {
      var i :| i in pg;
      var rest := pg - {i};
      DedupePossible(rest);
      var kept: Keys :| Deduped(rest, kept);
      if pg[i].token == "" || forall j :: j in kept ==> kept[j].token != pg[i].token {
        KeepRow(pg, i, rest, kept);
      } else {
        assert forall j :: j in pg ==> j == i || j in rest;
        assert Deduped(pg, kept);
      }
    }
  }

  lemma KeepRow(pg: Keys, i: string, rest: Keys, kept: Keys)
    requires i in pg && rest == pg - {i} && Deduped(rest, kept)
    requires pg[i].token == "" || forall j :: j in kept ==> kept[j].token != pg[i].token
    ensures Deduped(pg, kept[i := pg[i]])
  {
    var more := kept[i := pg[i]];
    assert i !in kept;
    assert UniqueTokens(more);
    forall k | k in pg && pg[k].token != "" ensures HasToken(more, pg[k].token) {
      if k != i {
        assert k in rest;
        TokenStays(kept, i, pg[i], pg[k].token);
      } else {
        assert i in more;
      }
    }
  }

  lemma TokenStays(kept: Keys, i: string, meta: KeyMetadata, token: string)
    requires i !in kept && HasToken(kept, token)
    ensures HasToken(kept[i := meta], token)
  {
    var j :| j in kept && kept[j].token == token;
    assert kept[i := meta][j] == kept[j];
  }

  lemma {:induction false} RowsExist(pg: Keys)
    requires WellKeyed(pg)
    ensures exists rows :: RowsOf(pg, rows)
    decreases |pg|
  {
    if pg == map[] {
      assert RowsOf(pg, []);
    } else {
      var i :| i in pg;
      RowsExist(pg - {i});
      var front :| RowsOf(pg - {i}, front);
      OneMoreRow(pg, i, front);
    }
  }

  lemma OneMoreRow(pg: Keys, i: string, front: seq<KeyMetadata>)
    requires WellKeyed(pg) && i in pg && RowsOf(pg - {i}, front)
    ensures RowsOf(pg, front + [pg[i]])
  {
    forall k | 0 <= k < |front| ensures front[k].id != i {
      assert front[k] in front;
    }
    forall j | j in pg ensures pg[j] in front + [pg[i]] {
      assert j == i || (j in pg - {i} && pg[j] in front);
    }
  }

  ghost predicate CleanHydrate(w: World, rows: seq<KeyMetadata>, targets: set<string>, h: World) {
    HydratedFrom(w, rows, targets, h) && h.pgFaults == w.pgFaults
  }

  /** Hydrating from a deduplicated table files each of its rows. */
  lemma HydrateFrom(w: World, targets: set<string>, pg: Keys)
    requires WellKeyed(w.pg) && Deduped(w.pg, pg) && pg != map[]
    ensures exists rows, h :: CleanHydrate(w, rows, targets, h) && h.admin == Flagged(pg, targets)
  {
    RowsExist(pg);
    var rows :| RowsOf(pg, rows);
    var i :| i in pg;
    assert pg[i] in rows;
    DriftCheck.HydrateOfUniqueRows(pg, rows);
    var mid := World(pg, pg, w.gw, w.pgFaults);
    assert Loaded(w, true, rows, mid);
    var written := Unflagged(pg, targets);
    var h := World(Flagged(pg, targets), pg + FlaggedRows(pg, written), w.gw, w.pgFaults);
    assert Backfilled(mid, targets, written, h);
    assert CleanHydrate(w, rows, targets, h) && h.admin == Flagged(pg, targets);
  }

  /** Hydrating can go through whenever there is a row. */
  lemma HydratePossible(w: World, targets: set<string>)
    requires WellKeyed(w.pg) && w.pg != map[]
    ensures exists rows, h :: CleanHydrate(w, rows, targets, h)
  {
    DedupePossible(w.pg);
    var pg :| Deduped(w.pg, pg);
    DedupedNonEmpty(w.pg, pg);
    HydrateFrom(w, targets, pg);
  }

  /** Of a token's rows, any one may be the survivor. */
  lemma DedupeKeeping(pg: Keys, i: string)
    requires i in pg
    ensures exists pg' :: Deduped(pg, pg') && i in pg'
  {
    DedupePossible(pg);
    var kept: Keys :| Deduped(pg, kept);
    if i !in kept {
      assert HasToken(kept, pg[i].token);
      var j :| j in kept && kept[j].token == pg[i].token;
      SwapSurvivor(pg, kept, j, i);
    }
  }

  lemma SwapSurvivor(pg: Keys, kept: Keys, j: string, i: string)
    requires Deduped(pg, kept) && i in pg && i !in kept && j in kept && kept[j].token == pg[i].token != ""
    ensures Deduped(pg, (kept - {j})[i := pg[i]])
  {
    var swapped := (kept - {j})[i := pg[i]];
    forall k | k in pg && pg[k].token != "" ensures HasToken(swapped, pg[k].token) {
      if pg[k].token == pg[i].token {
        assert i in swapped;
      } else {
        TokenElsewhere(kept, j, i, pg[i], pg[k].token);
      }
    }
    assert UniqueTokens(swapped);
  }

  lemma TokenElsewhere(kept: Keys, j: string, i: string, meta: KeyMetadata, token: string)
    requires i !in kept && j in kept && kept[j].token != token && HasToken(kept, token)
    ensures HasToken((kept - {j})[i := meta], token)
  {
    var k :| k in kept && kept[k].token == token;
    assert (kept - {j})[i := meta][k] == kept[k];
  }

  lemma DedupedNonEmpty(pg: Keys, pg': Keys)
    requires Deduped(pg, pg') && pg != map[]
    ensures pg' != map[]
  {
    var i :| i in pg;
    if pg[i].token == "" {
      assert i in pg';
    } else {
      var j :| j in pg' && pg'[j].token == pg[i].token;
    }
  }

  /** A pass in which nothing fails. */
  ghost predicate CleanPass(w: World, rows: seq<KeyMetadata>, targets: set<string>, h: World,
                            order: seq<string>, outs: seq<Outcome>, w': World) {
    Passed(w, rows, targets, h, order, outs, w') && NoFailure(outs) && w'.pgFaults == w.pgFaults
  }

  /** A reconcile and a sync in which nothing fails. */
  ghost predicate CleanPush(h: World, order: seq<string>, outs: seq<Outcome>, w': World) {
    && (exists r :: Reconciled(h, order, outs, r) && Synced(r, w'))
    && NoFailure(outs) && w'.pgFaults == h.pgFaults
  }

  lemma PushPossible(h: World)
    requires GatewayWellFormed(h.gw) && WellKeyed(h.admin) && UniqueTokens(h.admin) && Pushable(h.admin, h.gw)
    ensures exists order, outs, w' :: CleanPush(h, order, outs, w')
  {
    OrderExists(h.admin.Keys);
    var order :| Enumerates(order, h.admin.Keys);
    RunPossible(h, order);
    var outs, r :| CleanRun(h, order, outs, r);
    assert Reconciled(h, order, outs, r);
    OrderExists(r.gw.Keys);
    var tokens :| Enumerates(tokens, r.gw.Keys);
    SyncPossible(r, r.gw, tokens);
    var w' :| CleanSync(r, r.gw, tokens, w');
    assert Synced(r, w');
    assert CleanPush(h, order, outs, w');
  }

  lemma PassPossible(w: World, rows: seq<KeyMetadata>, targets: set<string>, h: World)
    requires GatewayWellFormed(w.gw) && AllAcceptable(w.pg, w.gw) && CleanHydrate(w, rows, targets, h)
    ensures exists order, outs, w' :: CleanPass(w, rows, targets, h, order, outs, w')
  {
    HydrateEffect(w, rows, targets, h);
    forall i | i in h.admin && Missing(h.admin, h.gw, i) ensures Acceptable(h.admin[i].token) {
      assert h.admin[i].token in TokensOf(h.admin);
    }
    PushPossible(h);
    var order, outs, w' :| CleanPush(h, order, outs, w');
    assert CleanPass(w, rows, targets, h, order, outs, w');
  }

  /**
   From any rows whose tokens the Gateway holds or would accept, a pass without failures exists; with
   `PassConverges` it ends in agreement.
   */
  lemma CleanPassPossible(w: World, targets: set<string>)
    requires GatewayWellFormed(w.gw) && WellKeyed(w.pg) && w.pg != map[] && AllAcceptable(w.pg, w.gw)
    ensures exists rows, h, order, outs, w' ::
              CleanPass(w, rows, targets, h, order, outs, w') && InAgreement(w'.admin, w'.gw)
  {
    HydratePossible(w, targets);
    var rows, h :| CleanHydrate(w, rows, targets, h);
    PassPossible(w, rows, targets, h);
    var order, outs, w' :| CleanPass(w, rows, targets, h, order, outs, w');
    PassConverges(w, rows, targets, h, order, outs, w');
  }

  /** Every clean pass, whichever rows survive the deduplication, brings every token to the Gateway. */
  ghost predicate AlwaysReached(w: World, targets: set<string>) {
    forall rows, h, order, outs, w' :: CleanPass(w, rows, targets, h, order, outs, w') ==> TokensWithin(w.pg, w'.gw.Keys)
  }

  /**
   From any rows, token duplicates included: all clean passes reach every token if and only if no row
   sits under a Gateway id with a token the Gateway does not know.
   */
  lemma AlwaysReachedExactly(w: World, targets: set<string>)
    requires GatewayWellFormed(w.gw) && WellKeyed(w.pg) && w.pg != map[] && AllAcceptable(w.pg, w.gw)
    ensures AlwaysReached(w, targets) <==> SharedIdsKnown(w.pg, w.gw)
  {
    if SharedIdsKnown(w.pg, w.gw) {
      forall rows, h, order, outs, w' | CleanPass(w, rows, targets, h, order, outs, w')
        ensures TokensWithin(w.pg, w'.gw.Keys)
      {
        PassReaches(w, rows, targets, h, order, outs, w');
      }
    } else {
      var i :| i in w.pg && w.pg[i].token != "" && i in GatewayIds(w.gw) && w.pg[i].token !in w.gw;
      SomePassMisses(w, targets, i);
    }
  }

  lemma SomePassMisses(w: World, targets: set<string>, i: string)
    requires GatewayWellFormed(w.gw) && WellKeyed(w.pg) && AllAcceptable(w.pg, w.gw)
    requires i in w.pg && w.pg[i].token != "" && i in GatewayIds(w.gw) && w.pg[i].token !in w.gw
    ensures exists rows, h, order, outs, w' ::
              CleanPass(w, rows, targets, h, order, outs, w') && !TokensWithin(w.pg, w'.gw.Keys)
  {
    HydrateKeeping(w, targets, i);
    var rows, h :| CleanHydrate(w, rows, targets, h) && i in h.admin && h.admin[i].token == w.pg[i].token;
    PassPossible(w, rows, targets, h);
    var order, outs, w' :| CleanPass(w, rows, targets, h, order, outs, w');
    PassConverges(w, rows, targets, h, order, outs, w');
    assert !SharedIdsKnown(h.admin, w.gw);
  }

  lemma HydrateKeeping(w: World, targets: set<string>, i: string)
    requires WellKeyed(w.pg) && i in w.pg
    ensures exists rows, h :: CleanHydrate(w, rows, targets, h) && i in h.admin && h.admin[i].token == w.pg[i].token
  {
    DedupeKeeping(w.pg, i);
    var pg: Keys :| Deduped(w.pg, pg) && i in pg;
    HydrateFrom(w, targets, pg);
  }

  /** One row under an id the Gateway uses for another token. */
  function StrangeRow(meta: KeyMetadata, y: string): World {
    World(map[], map[meta.id := meta], map[y := StoredKey(meta.id, "", 0, 0)], 0)
  }

  lemma StrangeRowShape(meta: KeyMetadata, y: string)
    requires y != "" && meta.token != y && Acceptable(meta.token)
    ensures var w := StrangeRow(meta, y);
            && GatewayWellFormed(w.gw) && WellKeyed(w.pg) && UniqueTokens(w.pg)
            && AllAcceptable(w.pg, w.gw) && !SharedIdsKnown(w.pg, w.gw)
  {
    var w := StrangeRow(meta, y);
    assert exists c :: c in meta.token && !Space(c);
    assert meta.id in w.pg && w.gw[y].id in GatewayIds(w.gw);
  }

  /** From there clean passes exist, each leaves the row's token off the Gateway, and the check is quiet. */
  lemma StrangeRowIsMissed(meta: KeyMetadata, y: string, targets: set<string>)
    requires y != "" && meta.token != y && Acceptable(meta.token)
    ensures exists rows, h, order, outs, w' :: CleanPass(StrangeRow(meta, y), rows, targets, h, order, outs, w')
    ensures forall rows, h, order, outs, w' :: CleanPass(StrangeRow(meta, y), rows, targets, h, order, outs, w') ==>
              meta.token !in w'.gw && !DriftCheck.Flag(w', false)
  {
    var w := StrangeRow(meta, y);
    StrangeRowShape(meta, y);
    CleanPassPossible(w, targets);
    forall rows, h, order, outs, w' | CleanPass(w, rows, targets, h, order, outs, w')
      ensures meta.token !in w'.gw && !DriftCheck.Flag(w', false)
    {
      DriftCheck.QuietWhileMissing(w, rows, targets, h, order, outs, w');
    }
  }
}
