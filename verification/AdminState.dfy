/** The Admin process itself: the in-memory key map and its loops. */
module AdminState {
  import opened Common
  import opened ClientKeys
  import opened KeyRestore
  import opened KeyBudgets
  import opened RestorePass
  import opened StoredBudgets

  // The PostgreSQL table and the Gateway table are the remote state the calls change. Which remote
  // calls fail is for the network to say, and concurrent maps are iterated in any order. Each loop is
  // proved to be one of the runs the protocol reasons about.

  // ---------------------------------------------------------------------------
  // The network
  // ---------------------------------------------------------------------------

  /** The calls for one key: whether a create call arrives and its answer returns, the delete and the upsert of a move. */
  datatype Answers = Answers(reached: bool, answered: bool, deletes: bool, writes: bool)

  /** How every remote call of a pass goes; `flag` by audited id, `push` by Admin id, `pull` by listed token. */
  datatype Network = Network(
    dedupe: bool, load: bool, flag: string -> bool,
    firstList: bool, push: string -> Answers,
    secondList: bool, pull: string -> Answers)

  predicate Stores(a: Answers) {
    a.deletes && a.writes
  }

  ghost predicate PgUp(net: Network) {
    && net.dedupe && net.load && (forall i :: net.flag(i))
    && (forall i :: Stores(net.push(i))) && (forall t :: Stores(net.pull(t)))
  }

  predicate Delivers(a: Answers) {
    a.reached && a.answered
  }

  ghost predicate GatewayUp(net: Network) {
    net.firstList && net.secondList && forall i :: Delivers(net.push(i))
  }

  /** What the network makes of one snapshot entry, `g` being the Gateway at that moment. */
  predicate Fits(g: GatewayKeys, listing: GatewayKeys, id: string, meta: KeyMetadata, a: Answers, out: Outcome) {
    if meta.token == "" || id in GatewayIds(listing) then out.Skipped?
    else if meta.token in listing then out.Aligned?
    else if !a.reached || !Acceptable(meta.token) || meta.token in g then out.Failed?
    else if a.answered then out.Restored?
    else out.TimedOut?
  }

  /** A missing key that the Gateway was asked for and accepted. */
  predicate Arrives(m: Keys, listing: GatewayKeys, push: string -> Answers, i: string) {
    i in m && Missing(m, listing, i) && push(i).reached && Acceptable(m[i].token)
  }

  /** The Gateway holds what it listed and what arrived of the entries in `done`, and nothing else. */
  ghost predicate HoldsArrived(m: Keys, listing: GatewayKeys, push: string -> Answers, done: seq<string>, g: GatewayKeys) {
    forall t :: t in g <==> t in listing || exists i :: i in done && Arrives(m, listing, push, i) && m[i].token == t
  }

  lemma ArrivedStep(m: Keys, listing: GatewayKeys, push: string -> Answers, done: seq<string>, w: World,
                    id: string, out: Outcome, w': World)
    requires id in m && HoldsArrived(m, listing, push, done, w.gw)
    requires ReconcileStep(w, listing, id, m[id], out, w') && Fits(w.gw, listing, id, m[id], push(id), out)
    ensures HoldsArrived(m, listing, push, done + [id], w'.gw)
  {
    var t := m[id].token;
    assert w'.gw.Keys == w.gw.Keys + if Arrives(m, listing, push, id) then {t} else {};
    forall u ensures u in w'.gw <==> u in listing || exists i :: i in done + [id] && Arrives(m, listing, push, i) && m[i].token == u {
      if i :| i in done && Arrives(m, listing, push, i) && m[i].token == u {
        assert i in done + [id];
      }
      if u == t && Arrives(m, listing, push, id) {
        assert id in done + [id];
      }
    }
  }

  /** Without repeated tokens the Gateway has not met a missing one before its own entry comes up. */
  lemma FitsFirst(m: Keys, listing: GatewayKeys, push: string -> Answers, done: seq<string>, g: GatewayKeys,
                  id: string, out: Outcome)
    requires UniqueTokens(m) && HoldsArrived(m, listing, push, done, g) && id in m && id !in done
    requires Fits(g, listing, id, m[id], push(id), out)
    ensures Fits(listing, listing, id, m[id], push(id), out)
  {
  }

  lemma BackfillNothing(w: World)
    ensures Backfilled(w, {}, {}, w)
  {
    assert Flagged(w.admin, {}) == w.admin;
    assert FlaggedRows(w.admin, {}) == map[];
  }

  lemma BackfillCompose(w: World, done: set<string>, written: set<string>, mid: World,
                        id: string, one: set<string>, w': World)
    requires Backfilled(w, done, written, mid) && Backfilled(mid, {id}, one, w') && id !in done
    ensures Backfilled(w, done + {id}, written + one, w')
  {
    var u, v := Unflagged(w.admin, done), Unflagged(mid.admin, {id});
    assert Unflagged(w.admin, done + {id}) == u + v && u !! v;
    assert Flagged(w.admin, done + {id}) == w'.admin;
    OverlayCompose(w.pg, w.admin, mid.admin, written, one);
    assert one <= v && written <= u;
    assert written + one == u + v <==> written == u && one == v by {
      assert (written + one) - v == written && (written + one) - u == one;
    }
  }

  lemma OverlayCompose(pg: Keys, m: Keys, m': Keys, written: set<string>, one: set<string>)
    requires forall i :: i in one ==> i in m && i in m' && m'[i] == m[i]
    requires forall i :: i in written ==> i in m
    ensures pg + FlaggedRows(m, written) + FlaggedRows(m', one) == pg + FlaggedRows(m, written + one)
  {
  }

  /** What a backfill writes: the rows of the entries it flags whose call is answered. */
  function Answered(m: Keys, targets: set<string>, up: string -> bool): set<string> {
    set i | i in Unflagged(m, targets) && up(i)
  }

  lemma SyncOneMore(w: World, g: GatewayKeys, tokens: seq<string>, mid: World, t: string, w': World)
    requires t in g && (forall s :: s in tokens ==> s in g)
    requires SyncRun(w, g, tokens, mid) && SyncStep(mid, SpecOf(g, t), w')
    ensures SyncRun(w, g, tokens + [t], w')
  {
    var more := tokens + [t];
    assert more[..|more| - 1] == tokens && more[|more| - 1] == t;
  }

  class AppState {
    var keysMeta: Keys
    var pgKeys: Keys
    var gatewayKeys: GatewayKeys
    ghost var pgFaults: nat

    ghost function Replicas(): World
      reads this
    {
      World(keysMeta, pgKeys, gatewayKeys, pgFaults)
    }

    // -------------------------------------------------------------------------
    // Hydrate
    // -------------------------------------------------------------------------

    method FindIdByToken(token: string, exceptId: string) returns (r: Option<string>)
      ensures r.Some? ==> token != "" && HoldsToken(keysMeta, r.value, token, exceptId)
      ensures r.None? ==> token == "" || forall i :: !HoldsToken(keysMeta, i, token, exceptId)
    {
      if token == "" {
        return None;
      }
      var pending := keysMeta.Keys;
      while pending != {}
        invariant pending <= keysMeta.Keys
        invariant forall i :: i in keysMeta && i !in pending ==> !HoldsToken(keysMeta, i, token, exceptId)
      {
        var i :| i in pending;
        if i != exceptId && keysMeta[i].token == token {
          return Some(i);
        }
        pending := pending - {i};
      }
      return None;
    }

    method InsertDedupedByToken(meta: KeyMetadata)
      requires UniqueTokens(keysMeta)
      modifies `keysMeta
      ensures keysMeta == InsertDeduped(old(keysMeta), meta)
    {
      if meta.token == "" {
        keysMeta := keysMeta[meta.id := meta];
        return;
      }
      var found := FindIdByToken(meta.token, meta.id);
      if found.Some? {
        var merged := Merge(keysMeta[found.value], meta);
        keysMeta := keysMeta - {found.value};
        keysMeta := keysMeta[merged.id := merged];
      } else {
        keysMeta := keysMeta[meta.id := meta];
      }
    }

    /** The hydrate loop builds exactly the specified map. */
    method InsertRows(rows: seq<KeyMetadata>)
      requires DistinctIds(rows)
      modifies `keysMeta
      ensures keysMeta == Hydrated(rows) && IsHydration(rows, keysMeta)
    {
      keysMeta := map[];
      for n := 0 to |rows|
        invariant keysMeta == Hydrated(rows[..n]) && IsHydration(rows[..n], keysMeta)
      {
        assert rows[..n + 1][..n] == rows[..n];
        HydrationWellFormed(rows[..n], keysMeta);
        HydrationStep(rows[..n + 1], keysMeta);
        InsertDedupedByToken(rows[n]);
      }
      assert rows[..|rows|] == rows;
    }

    method Dedupe(up: bool)
      modifies `pgKeys, `pgFaults
      ensures if up then Deduped(old(pgKeys), pgKeys) && pgFaults == old(pgFaults)
              else pgKeys == old(pgKeys) && pgFaults == old(pgFaults) + 1
    {
      if !up {
        pgFaults := pgFaults + 1;
        return;
      }
      var pending := pgKeys.Keys;
      var keeper: map<string, string> := map[];
      while pending != {}
        invariant pending <= pgKeys.Keys
        invariant forall i :: i in pgKeys && i !in pending && pgKeys[i].token != "" ==> pgKeys[i].token in keeper
        invariant forall t :: t in keeper ==> t != "" && keeper[t] in pgKeys && pgKeys[keeper[t]].token == t
      {
        var i :| i in pending;
        if pgKeys[i].token != "" {
          keeper := keeper[pgKeys[i].token := i];
        }
        pending := pending - {i};
      }
      var kept := map i | i in pgKeys && (pgKeys[i].token == "" || keeper[pgKeys[i].token] == i) :: pgKeys[i];
      forall i | i in pgKeys && pgKeys[i].token != ""
        ensures exists j :: j in kept && kept[j].token == pgKeys[i].token
      {
        assert keeper[pgKeys[i].token] in kept;
      }
      pgKeys := kept;
    }

    method LoadAllKeys() returns (rows: seq<KeyMetadata>)
      requires WellKeyed(pgKeys)
      ensures RowsOf(pgKeys, rows)
    {
      rows := [];
      var pending := pgKeys.Keys;
      while pending != {}
        invariant pending <= pgKeys.Keys
        invariant DistinctIds(rows)
        invariant forall r :: r in rows ==> r.id in pgKeys && r.id !in pending && r == pgKeys[r.id]
        invariant forall i :: i in pgKeys && i !in pending ==> pgKeys[i] in rows
      {
        var i :| i in pending;
        forall k | 0 <= k < |rows| ensures rows[k].id != i {
          assert rows[k] in rows;
        }
        rows := rows + [pgKeys[i]];
        pending := pending - {i};
      }
    }

    /** Flag one audited id and write its row, unless that call fails. */
    method BackfillOne(id: string, up: bool) returns (ghost written: set<string>)
      modifies `keysMeta, `pgKeys, `pgFaults
      ensures Backfilled(old(Replicas()), {id}, written, Replicas())
      ensures written == if up then Unflagged(old(keysMeta), {id}) else {}
    {
      ghost var m, pg := keysMeta, pgKeys;
      written := {};
      if id !in keysMeta || keysMeta[id].dashboardCreated {
        BackfillNothing(Replicas());
        assert Unflagged(m, {id}) == {} && Flagged(m, {id}) == m;
        return;
      }
      keysMeta := keysMeta[id := keysMeta[id].(dashboardCreated := true)];
      assert Unflagged(m, {id}) == {id} && keysMeta == Flagged(m, {id});
      if up {
        pgKeys := pgKeys[id := Persisted(keysMeta[id])];
        written := {id};
        assert pgKeys == pg + FlaggedRows(m, written);
      } else {
        pgFaults := pgFaults + 1;
        assert pgKeys == pg + FlaggedRows(m, {});
      }
    }

    method Backfill(targets: set<string>, up: string -> bool) returns (ghost written: set<string>)
      modifies `keysMeta, `pgKeys, `pgFaults
      ensures Backfilled(old(Replicas()), targets, written, Replicas())
      ensures written == Answered(old(keysMeta), targets, up)
    {
      ghost var w := Replicas();
      var pending := targets;
      written := {};
      BackfillNothing(w);
      while pending != {}
        invariant pending <= targets
        invariant Backfilled(w, targets - pending, written, Replicas())
        invariant written == Answered(w.admin, targets - pending, up)
      {
        var id :| id in pending;
        ghost var mid := Replicas();
        ghost var done := targets - pending;
        ghost var one := BackfillOne(id, up(id));
        BackfillCompose(w, done, written, mid, id, one, Replicas());
        written := written + one;
        pending := pending - {id};
        assert targets - pending == done + {id};
      }
      assert targets - pending == targets;
    }

    // -------------------------------------------------------------------------
    // Reconcile
    // -------------------------------------------------------------------------

    /** Remove, re-insert under the new id, delete the stale row, write the new one. */
    method MoveEntry(oldId: string, meta: KeyMetadata, a: Answers)
      modifies `keysMeta, `pgKeys, `pgFaults
      ensures Moved(old(Replicas()), oldId, meta, Replicas())
      ensures PgMoved(old(Replicas()), oldId, meta, a.deletes, a.writes, Replicas())
    {
      ghost var w := Replicas();
      keysMeta := keysMeta - {oldId};
      keysMeta := keysMeta[meta.id := meta];
      if a.deletes {
        pgKeys := pgKeys - {oldId};
      }
      if a.writes {
        pgKeys := pgKeys[meta.id := Persisted(meta)];
      }
      pgFaults := pgFaults + if Stores(a) then 0 else 1;
      assert PgMoved(w, oldId, meta, a.deletes, a.writes, Replicas());
    }

    /** The entry moves to its new id; if the write goes through, the row there holds its whole budget. */
    method MigrateId(oldId: string, newId: string, token: string, a: Answers)
      modifies `keysMeta, `pgKeys, `pgFaults
      ensures Migrated(old(Replicas()), oldId, newId, token, Replicas())
      ensures Stores(a) ==> pgFaults == old(pgFaults)
      ensures oldId != newId && oldId in old(keysMeta) && a.writes ==>
                && newId in keysMeta && newId in pgKeys
                && SameBudget(old(keysMeta)[oldId], pgKeys[newId]) && SameKey(pgKeys[newId], keysMeta[newId])
      ensures oldId != newId && oldId in old(keysMeta) && a.deletes ==> oldId !in pgKeys
    {
      if oldId == newId || oldId !in keysMeta {
        return;
      }
      var meta := keysMeta[oldId].(id := newId);
      if token != "" {
        meta := meta.(token := token);
      }
      ghost var w := Replicas();
      MoveEntry(oldId, meta, a);
      if a.writes {
        MigrationStoresBudget(w, oldId, newId, token, a.deletes, Replicas());
      }
    }

    /** The Gateway refuses bad or known tokens; otherwise it issues a fresh id. The call or its answer may be lost. */
    method CreateKey(meta: KeyMetadata, a: Answers) returns (created: Option<string>, ghost out: Outcome)
      modifies `gatewayKeys
      ensures created.Some? ==> out == Restored(created.value)
      ensures out.Failed? <==> !a.reached || !Acceptable(meta.token) || meta.token in old(gatewayKeys)
      ensures out.Failed? ==> created.None? && gatewayKeys == old(gatewayKeys)
      ensures !out.Failed? ==> if a.answered then created.Some? else created.None? && out.TimedOut?
      ensures !out.Failed? ==>
                (out.Restored? || out.TimedOut?) && Created(old(Replicas()), meta, out.newId, gatewayKeys)
    {
      if !a.reached || !Acceptable(meta.token) || meta.token in gatewayKeys {
        return None, Failed;
      }
      var used := GatewayIds(gatewayKeys) + keysMeta.Keys + pgKeys.Keys;
      FreshIdExists(used);
      var newId: string :| newId !in used;
      gatewayKeys := gatewayKeys[meta.token := StoredKey(newId, meta.name, meta.rpmLimit % U32, meta.maxConcurrent)];
      if a.answered {
        return Some(newId), Restored(newId);
      }
      return None, TimedOut(newId);
    }

    method ReconcileOne(listing: GatewayKeys, id: string, meta: KeyMetadata, a: Answers)
      returns (restored: nat, ghost out: Outcome)
      modifies this
      ensures ReconcileStep(old(Replicas()), listing, id, meta, out, Replicas())
      ensures Fits(old(gatewayKeys), listing, id, meta, a, out)
      ensures Stores(a) ==> pgFaults == old(pgFaults)
      ensures restored == if out.Restored? then 1 else 0
    {
      restored, out := 0, Skipped;
      if meta.token == "" || id in GatewayIds(listing) {
        return;
      }
      if meta.token in listing {
        out := Aligned;
        MigrateId(id, listing[meta.token].id, meta.token, a);
        return;
      }
      ghost var w := Replicas();
      var created;
      created, out := CreateKey(meta, a);
      if created.Some? {
        restored := 1;
        assert Replicas() == w.(gw := gatewayKeys);
        MigrateId(id, created.value, meta.token, a);
      }
    }

    /** Nothing is done when the Gateway cannot be listed. */
    method ReconcileClientKeys(up: bool, push: string -> Answers)
      returns (restored: nat, ghost order: seq<string>, ghost outs: seq<Outcome>)
      modifies this
      ensures if up then Pushed(old(Replicas()), push, order, outs, Replicas())
              else outs == [] && Replicas() == old(Replicas())
      ensures restored == RestoredCount(outs)
    {
      if up {
        restored, order, outs := ReconcileListed(push);
      } else {
        restored, order, outs := 0, [], [];
      }
    }

    method ReconcileListed(push: string -> Answers)
      returns (restored: nat, ghost order: seq<string>, ghost outs: seq<Outcome>)
      modifies this
      ensures Pushed(old(Replicas()), push, order, outs, Replicas())
      ensures restored == RestoredCount(outs)
    {
      ghost var w := Replicas();
      var listing, snapshot := gatewayKeys, keysMeta;
      var pending := snapshot.Keys;
      restored, order, outs := 0, [], [];
      while pending != {}
        invariant Walked(snapshot.Keys, pending, order)
        invariant PushedSoFar(w, push, order, outs, Replicas())
        invariant restored == RestoredCount(outs)
      {
        var id :| id in pending;
        ghost var mid := Replicas();
        var one;
        ghost var out;
        one, out := ReconcileOne(listing, id, snapshot[id], push(id));
        restored := restored + one;
        WalkStep(snapshot.Keys, pending, order, id);
        PushStep(w, push, order, outs, mid, id, out, Replicas());
        pending, order, outs := pending - {id}, order + [id], outs + [out];
      }
    }

    // -------------------------------------------------------------------------
    // Sync and restore
    // -------------------------------------------------------------------------

    method SyncOne(spec: ApiKeySpec, a: Answers)
      modifies `keysMeta, `pgKeys, `pgFaults
      ensures SyncStep(old(Replicas()), spec, Replicas())
      ensures Stores(a) ==> pgFaults == old(pgFaults)
    {
      var full := FullToken(spec);
      if spec.id !in keysMeta && full != "" {
        var found := FindIdByToken(full, spec.id);
        if found.Some? {
          MoveEntry(found.value, Applied(keysMeta[found.value].(id := spec.id), spec), a);
          return;
        }
      }
      if spec.id !in keysMeta {
        keysMeta := keysMeta[spec.id := Adopted(spec)];
      } else {
        keysMeta := keysMeta[spec.id := Applied(keysMeta[spec.id], spec)];
      }
    }

    /** Nothing is done when the Gateway cannot be listed. */
    method SyncFromGateway(up: bool, pull: string -> Answers)
      modifies `keysMeta, `pgKeys, `pgFaults
      ensures if up then Synced(old(Replicas()), Replicas()) else Replicas() == old(Replicas())
      ensures (forall t :: Stores(pull(t))) ==> pgFaults == old(pgFaults)
    {
      if up {
        SyncListed(pull);
      }
    }

    method SyncListed(pull: string -> Answers)
      modifies `keysMeta, `pgKeys, `pgFaults
      ensures Synced(old(Replicas()), Replicas())
      ensures (forall t :: Stores(pull(t))) ==> pgFaults == old(pgFaults)
    {
      ghost var w := Replicas();
      var listing := gatewayKeys;
      var pending := listing.Keys;
      ghost var tokens: seq<string> := [];
      while pending != {}
        invariant Walked(listing.Keys, pending, tokens) && gatewayKeys == listing
        invariant SyncRun(w, listing, tokens, Replicas())
        invariant (forall t :: Stores(pull(t))) ==> pgFaults == w.pgFaults
      {
        var t :| t in pending;
        ghost var mid := Replicas();
        SyncOne(SpecOf(listing, t), pull(t));
        WalkStep(listing.Keys, pending, tokens, t);
        SyncOneMore(w, listing, tokens, mid, t, Replicas());
        pending, tokens := pending - {t}, tokens + [t];
      }
    }

    /** Load the rows, deduplicated if that call goes through; without any, memory stays as it is. */
    method HydrateClientKeys(targets: set<string>, net: Network) returns (loaded: bool, ghost rows: seq<KeyMetadata>)
      requires WellKeyed(pgKeys)
      modifies this
      ensures WellKeyed(pgKeys)
      ensures loaded <==> net.load && old(pgKeys) != map[]
      ensures if loaded then Hydrates(net, old(Replicas()), rows, targets, Replicas())
              else keysMeta == old(keysMeta) && gatewayKeys == old(gatewayKeys)
                   && (if net.dedupe then Deduped(old(pgKeys), pgKeys) else pgKeys == old(pgKeys))
    {
      ghost var w := Replicas();
      Dedupe(net.dedupe);
      var list := LoadAllKeys();
      NoRows(w.pg, pgKeys, list);
      rows, loaded := list, net.load && list != [];
      if loaded {
        ghost var mid := World(Hydrated(list), pgKeys, gatewayKeys, pgFaults);
        Reload(list, targets, net.flag);
        assert Loaded(w, net.dedupe, rows, mid);
      }
    }

    /** Replace memory by the rows and flag the audited keys. */
    method Reload(list: seq<KeyMetadata>, targets: set<string>, up: string -> bool)
      requires DistinctIds(list) && WellKeyed(pgKeys)
      modifies this
      ensures WellKeyed(pgKeys)
      ensures var mid := old(World(Hydrated(list), pgKeys, gatewayKeys, pgFaults));
              Backfilled(mid, targets, Answered(mid.admin, targets, up), Replicas())
    {
      InsertRows(list);
      HydrationWellFormed(list, keysMeta);
      ghost var written := Backfill(targets, up);
    }

    /**
     * The restore pass; `h` and `r` are the worlds after hydrating and after reconciling. What it does is for the
     * network and the three replicas to decide, and with the network up it restores every key.
     */
    method RestoreControlPlane(targets: set<string>, net: Network)
      returns (restored: nat, loaded: bool, ghost rows: seq<KeyMetadata>,
               ghost h: World, ghost order: seq<string>, ghost outs: seq<Outcome>, ghost r: World)
      requires WellKeyed(pgKeys)
      modifies this
      ensures WellKeyed(pgKeys)
      ensures loaded <==> net.load && old(pgKeys) != map[]
      ensures if loaded then Hydrates(net, old(Replicas()), rows, targets, h)
              else h.admin == old(keysMeta) && h.gw == old(gatewayKeys)
                   && (if net.dedupe then Deduped(old(pgKeys), h.pg) else h.pg == old(pgKeys))
      ensures if net.firstList then Pushed(h, net.push, order, outs, r) else outs == [] && r == h
      ensures if net.secondList then Synced(r, Replicas()) else Replicas() == r
      ensures restored == RestoredCount(outs)
      ensures PgUp(net) && old(pgKeys) != map[] ==> pgFaults == old(pgFaults)
      ensures GatewayUp(net) && loaded && GatewayWellFormed(old(gatewayKeys))
              && AllAcceptable(old(pgKeys), old(gatewayKeys)) ==>
                Restores(old(Replicas()), rows, targets, h, order, outs, Replicas())
      ensures GatewayUp(net) && PgUp(net) && old(pgKeys) != map[] && Ready(old(Replicas()))
              && AllAcceptable(old(pgKeys), old(gatewayKeys)) ==>
                CarriesAll(old(pgKeys), pgKeys) && Mirrored(Replicas()) && Ready(Replicas())
    {
      ghost var w := Replicas();
      loaded, rows := HydrateClientKeys(targets, net);
      h := Replicas();
      restored, order, outs := ReconcileClientKeys(net.firstList, net.push);
      r := Replicas();
      SyncFromGateway(net.secondList, net.pull);
      PushKeysRows(net, h, order, outs, r, Replicas());
      if GatewayUp(net) && loaded && GatewayWellFormed(w.gw) && AllAcceptable(w.pg, w.gw) {
        HealthyPass(net, w, rows, targets, h, order, outs, r, Replicas());
        if PgUp(net) && Ready(w) {
          assert CleanlyPassed(w, targets, Replicas());
          CleanPassStores(w, targets, Replicas());
        }
      }
    }
  }

  /** A loop over `keys` that has come past `done` and has `pending` ahead; with nothing ahead it has seen them all. */
  ghost predicate Walked(keys: set<string>, pending: set<string>, done: seq<string>) {
    && pending <= keys && (forall k :: k in keys <==> k in pending || k in done)
    && (forall k :: k in done ==> k !in pending)
    && (forall i, j :: 0 <= i < j < |done| ==> done[i] != done[j])
  }

  lemma WalkStep(keys: set<string>, pending: set<string>, done: seq<string>, k: string)
    requires Walked(keys, pending, done) && k in pending
    ensures Walked(keys, pending - {k}, done + [k])
  {
  }

  /** Deduplicating never empties a table, so there are rows to load exactly when there were any. */
  lemma NoRows(pg: Keys, pg': Keys, rows: seq<KeyMetadata>)
    requires (pg' == pg || Deduped(pg, pg')) && RowsOf(pg', rows)
    ensures rows == [] <==> pg == map[]
  {
    if i :| i in pg {
      assert pg[i].token != "" ==> pg' == pg || HasToken(pg', pg[i].token);
      var j :| j in pg';
      assert pg'[j] in rows;
    }
    if rows != [] {
      assert rows[0] in rows;
    }
  }

  /** Every outcome is the one the network and the listing call for. */
  ghost predicate AllFit(m: Keys, listing: GatewayKeys, push: string -> Answers, order: seq<string>, outs: seq<Outcome>)
    requires forall i :: i in order ==> i in m
  {
    && |outs| == |order|
    && forall k :: 0 <= k < |order| ==> Fits(listing, listing, order[k], m[order[k]], push(order[k]), outs[k])
  }

  /** A reconcile over a network: which tokens arrive, how each entry ends, whether PostgreSQL was reached. */
  ghost predicate Pushed(w: World, push: string -> Answers, order: seq<string>, outs: seq<Outcome>, w': World) {
    Enumerates(order, w.admin.Keys) && PushedSoFar(w, push, order, outs, w')
  }

  ghost predicate PushedSoFar(w: World, push: string -> Answers, order: seq<string>, outs: seq<Outcome>, w': World) {
    && (forall i :: i in order ==> i in w.admin)
    && ReconcileRun(w, w.gw, w.admin, order, outs, w')
    && HoldsArrived(w.admin, w.gw, push, order, w'.gw)
    && (UniqueTokens(w.admin) ==> AllFit(w.admin, w.gw, push, order, outs))
    && ((forall i :: Stores(push(i))) ==> w'.pgFaults == w.pgFaults)
  }

  lemma RunOneMore(w: World, g0: GatewayKeys, m0: Keys, order: seq<string>, outs: seq<Outcome>, mid: World,
                   id: string, out: Outcome, w': World)
    requires id in m0 && forall i :: i in order ==> i in m0
    requires ReconcileRun(w, g0, m0, order, outs, mid) && ReconcileStep(mid, g0, id, m0[id], out, w')
    ensures ReconcileRun(w, g0, m0, order + [id], outs + [out], w')
    ensures |outs| == |order| && RestoredCount(outs + [out]) == RestoredCount(outs) + if out.Restored? then 1 else 0
  {
    var n := |order|;
    assert |outs| == n && (order + [id])[..n] == order && (outs + [out])[..n] == outs;
    assert (order + [id])[n] == id && (outs + [out])[n] == out;
  }

  lemma PushStep(w: World, push: string -> Answers, order: seq<string>, outs: seq<Outcome>, mid: World,
                 id: string, out: Outcome, w': World)
    requires PushedSoFar(w, push, order, outs, mid) && id in w.admin && id !in order
    requires ReconcileStep(mid, w.gw, id, w.admin[id], out, w') && Fits(mid.gw, w.gw, id, w.admin[id], push(id), out)
    requires Stores(push(id)) ==> w'.pgFaults == mid.pgFaults
    ensures PushedSoFar(w, push, order + [id], outs + [out], w')
    ensures RestoredCount(outs + [out]) == RestoredCount(outs) + if out.Restored? then 1 else 0
  {
    RunOneMore(w, w.gw, w.admin, order, outs, mid, id, out, w');
    ArrivedStep(w.admin, w.gw, push, order, mid, id, out, w');
    if UniqueTokens(w.admin) {
      FitsFirst(w.admin, w.gw, push, order, mid.gw, id, out);
    }
  }

  /** A hydrate over a network. */
  ghost predicate Hydrates(net: Network, w: World, rows: seq<KeyMetadata>, targets: set<string>, h: World) {
    exists mid ::
      Loaded(w, net.dedupe, rows, mid) && Backfilled(mid, targets, Answered(mid.admin, targets, net.flag), h)
  }

  lemma PushKeysRows(net: Network, h: World, order: seq<string>, outs: seq<Outcome>, r: World, w': World)
    requires WellKeyed(h.pg)
    requires if net.firstList then Pushed(h, net.push, order, outs, r) else r == h
    requires if net.secondList then Synced(r, w') else w' == r
    ensures WellKeyed(w'.pg)
  {
    if net.firstList {
      ReconcileKeysRows(h, h.gw, h.admin, order, outs, r);
    }
    if net.secondList {
      var tokens :| Enumerates(tokens, r.gw.Keys) && SyncRun(r, r.gw, tokens, w');
      SyncKeysRows(r, r.gw, tokens, w');
    }
  }

  /** What a pass with the Gateway up achieves. */
  ghost predicate Restores(w: World, rows: seq<KeyMetadata>, targets: set<string>, h: World,
                           order: seq<string>, outs: seq<Outcome>, w': World) {
    && Passed(w, rows, targets, h, order, outs, w') && NoFailure(outs)
    && InAgreement(w'.admin, w'.gw) && WellKeyed(w'.admin) && GatewayWellFormed(w'.gw)
    && (forall t :: t in w.gw ==> t in w'.gw && w'.gw[t] == w.gw[t])
    && (forall t :: t in w'.gw && t !in w.gw ==> RestoredAs(rows, t, w'.gw[t]))
    && (SharedIdsKnown(w.pg, w.gw) ==> TokensWithin(w.pg, w'.gw.Keys))
  }

  /** Nothing fails exactly when every missing key has an acceptable token and its call is answered. */
  lemma NoFailureExactly(w: World, push: string -> Answers, order: seq<string>, outs: seq<Outcome>, w': World)
    requires UniqueTokens(w.admin) && Pushed(w, push, order, outs, w')
    ensures NoFailure(outs) <==>
            forall i :: i in w.admin && Missing(w.admin, w.gw, i) ==> Acceptable(w.admin[i].token) && Delivers(push(i))
  {
    if NoFailure(outs) {
      forall i | i in w.admin && Missing(w.admin, w.gw, i) ensures Acceptable(w.admin[i].token) && Delivers(push(i)) {
        var k :| 0 <= k < |order| && order[k] == i;
        assert !outs[k].Failed? && !outs[k].TimedOut?;
      }
    }
  }

  lemma HealthyPass(net: Network, w: World, rows: seq<KeyMetadata>, targets: set<string>, h: World,
                    order: seq<string>, outs: seq<Outcome>, r: World, w': World)
    requires GatewayUp(net) && GatewayWellFormed(w.gw) && AllAcceptable(w.pg, w.gw)
    requires Hydrates(net, w, rows, targets, h) && Pushed(h, net.push, order, outs, r) && Synced(r, w')
    ensures Restores(w, rows, targets, h, order, outs, w')
  {
    assert HydratedFrom(w, rows, targets, h);
    HydrateEffect(w, rows, targets, h);
    forall i | i in h.admin && Missing(h.admin, h.gw, i) ensures Acceptable(h.admin[i].token) && Delivers(net.push(i)) {
      assert h.admin[i].token in TokensOf(h.admin);
    }
    NoFailureExactly(h, net.push, order, outs, r);
    assert Passed(w, rows, targets, h, order, outs, w');
    PassConverges(w, rows, targets, h, order, outs, w');
    if SharedIdsKnown(w.pg, w.gw) {
      PassReaches(w, rows, targets, h, order, outs, w');
    }
  }
}
