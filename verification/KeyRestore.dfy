/** The restore protocol over three replicas of the client keys. */
module KeyRestore {
  import opened Common
  import opened ClientKeys

  // The replicas are the Admin map, the PostgreSQL rows and the Gateway table. Each remote call may
  // fail, Gateway ids are fresh when created and concurrent maps are walked in any order, so every
  // operation is a relation between worlds.

  /** A Gateway key; the Gateway files it under its token. */
  datatype StoredKey = StoredKey(id: string, name: string, rpmLimit: nat, maxConcurrent: nat)

  type GatewayKeys = map<string, StoredKey>

  /** One entry of the Gateway's key listing. */
  datatype ApiKeySpec = ApiKeySpec(id: string, name: string, keyFull: Option<string>,
                                   rpmLimit: nat, maxConcurrent: nat)

  /** The three replicas, and how many PostgreSQL calls have failed so far. */
  datatype World = World(admin: Keys, pg: Keys, gw: GatewayKeys, pgFaults: nat)

  // ---------------------------------------------------------------------------
  // Gateway
  // ---------------------------------------------------------------------------

  ghost predicate GatewayWellFormed(g: GatewayKeys) {
    && "" !in g
    && (forall s, t :: s in g && t in g && g[s].id == g[t].id ==> s == t)
  }

  function GatewayIds(g: GatewayKeys): set<string> {
    set t | t in g :: g[t].id
  }

  /** Unicode white space that is not also a control character. */
  predicate Space(c: char) {
    || c in {' ', '\U{A0}', '\U{1680}', '\U{2028}', '\U{2029}', '\U{202F}', '\U{205F}', '\U{3000}'}
    || '\U{2000}' <= c <= '\U{200A}'
  }

  predicate Control(c: char) {
    c < ' ' || '\U{7F}' <= c < '\U{A0}'
  }

  /** Tokens the Gateway accepts: not blank, at most 512 characters, no control characters. */
  predicate Acceptable(token: string) {
    && (exists c :: c in token && !Space(c))
    && |token| <= 512
    && (forall c :: c in token ==> !Control(c))
  }

  function SpecOf(g: GatewayKeys, token: string): ApiKeySpec
    requires token in g
  {
    ApiKeySpec(g[token].id, g[token].name, Some(token), g[token].rpmLimit, g[token].maxConcurrent)
  }

  // ---------------------------------------------------------------------------
  // Id migration
  // ---------------------------------------------------------------------------

  /** PostgreSQL keeps everything but the live request rate. */
  function Persisted(meta: KeyMetadata): KeyMetadata {
    meta.(currentRpm := 0)
  }

  /** The stale row is deleted and the new one written; either call may fail. */
  ghost predicate PgMoved(w: World, oldId: string, meta: KeyMetadata, deleted: bool, written: bool, w': World) {
    var pg1 := if deleted then w.pg - {oldId} else w.pg;
    && w'.pg == (if written then pg1[meta.id := Persisted(meta)] else pg1)
    && w'.pgFaults == w.pgFaults + if deleted && written then 0 else 1
  }

  /** Move the entry `oldId` to `meta.id`, in memory and then in PostgreSQL. */
  ghost predicate Moved(w: World, oldId: string, meta: KeyMetadata, w': World) {
    && w'.gw == w.gw
    && w'.admin == (w.admin - {oldId})[meta.id := meta]
    && (exists deleted, written :: PgMoved(w, oldId, meta, deleted, written, w'))
  }

  ghost predicate Migrated(w: World, oldId: string, newId: string, token: string, w': World) {
    if oldId == newId || oldId !in w.admin then w' == w
    else
      var meta := w.admin[oldId].(id := newId);
      Moved(w, oldId, if token == "" then meta else meta.(token := token), w')
  }

  // ---------------------------------------------------------------------------
  // Reconcile: push keys the Gateway lacks
  // ---------------------------------------------------------------------------

  datatype Outcome =
    | Skipped              // no token, or the id is on the Gateway
    | Aligned              // token on the Gateway under another id
    | Restored(newId: string)
    | Failed               // the Gateway did nothing
    | TimedOut(newId: string)  // the Gateway created the key, the answer was lost

  const U32: nat := 0x1_0000_0000

  ghost predicate Created(w: World, meta: KeyMetadata, newId: string, g: GatewayKeys) {
    && Acceptable(meta.token) && meta.token !in w.gw
    && newId !in GatewayIds(w.gw) && newId !in w.admin && newId !in w.pg
    && g == w.gw[meta.token := StoredKey(newId, meta.name, meta.rpmLimit % U32, meta.maxConcurrent)]
  }

  lemma {:induction false} FreshIdExists(used: set<string>)
    ensures exists s: string :: s !in used
  {
    var n := LongestLength(used);
    var s := seq(n + 1, _ => 'x');
    assert s !in used;
  }

  lemma {:induction false} LongestLength(used: set<string>) returns (n: nat)
    ensures forall s :: s in used ==> |s| <= n
  {
    if used == {} {
      n := 0;
    } else {
      var s :| s in used;
      n := LongestLength(used - {s});
      n := Max(n, |s|);
    }
  }

  /** One snapshot entry, against the Gateway listing `g0` taken at the start. */
  ghost predicate ReconcileStep(w: World, g0: GatewayKeys, id: string, meta: KeyMetadata, out: Outcome, w': World) {
    if meta.token == "" || id in GatewayIds(g0) then out == Skipped && w' == w
    else if meta.token in g0 then out == Aligned && Migrated(w, id, g0[meta.token].id, meta.token, w')
    else match out
      case Restored(newId) =>
        exists g :: Created(w, meta, newId, g) && Migrated(w.(gw := g), id, newId, meta.token, w')
      case TimedOut(newId) => Created(w, meta, newId, w'.gw) && w' == w.(gw := w'.gw)
      case Failed => w' == w
      case _ => false
  }

  /** The loop over the snapshot `m0` in the order `order`. */
  ghost predicate ReconcileRun(w: World, g0: GatewayKeys, m0: Keys, order: seq<string>, outs: seq<Outcome>, w': World)
    requires forall i :: i in order ==> i in m0
    decreases |order|
  {
    if order == [] then outs == [] && w' == w
    else
      var n := |order| - 1;
      && |outs| == |order|
      && exists mid ::
           && ReconcileRun(w, g0, m0, order[..n], outs[..n], mid)
           && ReconcileStep(mid, g0, order[n], m0[order[n]], outs[n], w')
  }

  function RestoredCount(outs: seq<Outcome>): nat {
    if outs == [] then 0
    else RestoredCount(outs[..|outs| - 1]) + if outs[|outs| - 1].Restored? then 1 else 0
  }

  ghost predicate NoFailure(outs: seq<Outcome>) {
    forall k :: 0 <= k < |outs| ==> !outs[k].Failed? && !outs[k].TimedOut?
  }

  /** A whole reconcile: the listing and the snapshot are both taken from `w`. */
  ghost predicate Reconciled(w: World, order: seq<string>, outs: seq<Outcome>, w': World) {
    Enumerates(order, w.admin.Keys) && ReconcileRun(w, w.gw, w.admin, order, outs, w')
  }

  // ---------------------------------------------------------------------------
  // Sync: adopt the Gateway's ids, names and limits
  // ---------------------------------------------------------------------------

  function Applied(meta: KeyMetadata, spec: ApiKeySpec): KeyMetadata {
    var m := meta.(name := spec.name, maxConcurrent := spec.maxConcurrent, rpmLimit := spec.rpmLimit);
    if spec.keyFull.Some? && spec.keyFull.value != "" then m.(token := spec.keyFull.value) else m
  }

  function Adopted(spec: ApiKeySpec): KeyMetadata {
    KeyMetadata(spec.id, spec.name, FullToken(spec), spec.rpmLimit, 0, 0, 0, 0, 0, None, [],
                -1, true, spec.maxConcurrent, "", false)
  }

  function FullToken(spec: ApiKeySpec): string {
    if spec.keyFull.Some? then spec.keyFull.value else ""
  }

  ghost predicate SyncStep(w: World, spec: ApiKeySpec, w': World) {
    var t := FullToken(spec);
    if spec.id in w.admin then w' == w.(admin := w.admin[spec.id := Applied(w.admin[spec.id], spec)])
    else if t != "" && exists i :: HoldsToken(w.admin, i, t, spec.id) then
      exists i :: HoldsToken(w.admin, i, t, spec.id) && Moved(w, i, Applied(w.admin[i].(id := spec.id), spec), w')
    else w' == w.(admin := w.admin[spec.id := Adopted(spec)])
  }

  /** The loop over the Gateway listing of `g`, its entries in the order `tokens`. */
  ghost predicate SyncRun(w: World, g: GatewayKeys, tokens: seq<string>, w': World)
    requires forall t :: t in tokens ==> t in g
    decreases |tokens|
  {
    if tokens == [] then w' == w
    else
      var n := |tokens| - 1;
      exists mid :: SyncRun(w, g, tokens[..n], mid) && SyncStep(mid, SpecOf(g, tokens[n]), w')
  }

  ghost predicate Synced(w: World, w': World) {
    exists tokens :: Enumerates(tokens, w.gw.Keys) && SyncRun(w, w.gw, tokens, w')
  }

  /** Whatever fails, rows stay filed under their own ids. */
  lemma {:induction false} ReconcileKeysRows(w: World, g0: GatewayKeys, m0: Keys, order: seq<string>,
                                             outs: seq<Outcome>, w': World)
    requires forall i :: i in order ==> i in m0
    requires WellKeyed(w.pg) && ReconcileRun(w, g0, m0, order, outs, w')
    ensures WellKeyed(w'.pg)
    decreases |order|
  {
    if order != [] {
      var n := |order| - 1;
      var mid :| ReconcileRun(w, g0, m0, order[..n], outs[..n], mid)
              && ReconcileStep(mid, g0, order[n], m0[order[n]], outs[n], w');
      ReconcileKeysRows(w, g0, m0, order[..n], outs[..n], mid);
    }
  }

  lemma {:induction false} SyncKeysRows(w: World, g: GatewayKeys, tokens: seq<string>, w': World)
    requires forall t :: t in tokens ==> t in g
    requires WellKeyed(w.pg) && SyncRun(w, g, tokens, w')
    ensures WellKeyed(w'.pg)
    decreases |tokens|
  {
    if tokens != [] {
      var n := |tokens| - 1;
      var mid :| SyncRun(w, g, tokens[..n], mid) && SyncStep(mid, SpecOf(g, tokens[n]), w');
      SyncKeysRows(w, g, tokens[..n], mid);
    }
  }

  // ---------------------------------------------------------------------------
  // Convergence
  // ---------------------------------------------------------------------------

  /** Admin and Gateway hold the same keys under the same ids, with the Gateway's settings. */
  ghost predicate InAgreement(m: Keys, g: GatewayKeys) {
    && (forall t :: t in g ==> Matches(m, g, t))
    && (forall i :: i in m && m[i].token != "" ==> m[i].token in g && g[m[i].token].id == i)
  }

  /** A key the Gateway made of an entry: its name, its rate as far as 32 bits hold it, its concurrency. */
  predicate MadeOf(k: StoredKey, meta: KeyMetadata) {
    k.name == meta.name && k.rpmLimit == meta.rpmLimit % 0x1_0000_0000 && k.maxConcurrent == meta.maxConcurrent
  }

  /** Entry `i` was pushed: the Gateway did not know its id, and `k` is made of it. */
  ghost predicate PushedAs(m: Keys, g0: GatewayKeys, i: string, t: string, k: StoredKey) {
    i in m && i !in GatewayIds(g0) && m[i].token == t && MadeOf(k, m[i])
  }

  /** The Gateway only gains keys, each made of an entry already processed. */
  ghost predicate GatewayGrew(w0: World, done: seq<string>, g: GatewayKeys) {
    && GatewayWellFormed(g)
    && (forall t :: t in w0.gw ==> t in g && g[t] == w0.gw[t])
    && (forall t :: t in g && t !in w0.gw ==>
          exists i :: i in done && PushedAs(w0.admin, w0.gw, i, t, g[t]))
  }

  /** Entries not yet processed are untouched; the others that hold a token have Gateway ids. */
  ghost predicate AdminMoved(w0: World, done: seq<string>, w: World) {
    && WellKeyed(w.admin)
    && (forall i :: i in w0.admin && i !in done && i !in GatewayIds(w0.gw) ==> i in w.admin && w.admin[i] == w0.admin[i])
    && (forall i :: i in w.admin && w.admin[i].token != "" ==>
          i in GatewayIds(w.gw) || (i in w0.admin && i !in done))
  }

  lemma IdsGrow(g: GatewayKeys, g': GatewayKeys)
    requires forall t :: t in g ==> t in g' && g'[t] == g[t]
    ensures forall i :: i in GatewayIds(g) ==> i in GatewayIds(g')
  {
    forall i | i in GatewayIds(g) ensures i in GatewayIds(g') {
      var t :| t in g && g[t].id == i;
      assert g'[t].id == i;
    }
  }

  lemma MoveKeeps(w0: World, done: seq<string>, w: World, id: string, newId: string, token: string, w': World)
    requires id in w0.admin && id !in done && id !in GatewayIds(w0.gw)
    requires GatewayGrew(w0, done + [id], w.gw) && AdminMoved(w0, done, w)
    requires newId in GatewayIds(w.gw) && newId != id
    requires newId in w0.admin ==> newId in done || newId in GatewayIds(w0.gw)
    requires Migrated(w, id, newId, token, w')
    ensures AdminMoved(w0, done + [id], w') && w'.gw == w.gw
  {
    var moved := w.admin[id].(id := newId);
    var meta := if token == "" then moved else moved.(token := token);
    assert id in w.admin && w'.admin == (w.admin - {id})[newId := meta];
    UnmovedStay(w0, done, w, id, newId, w'.admin);
    MovedAreFiled(w0, done, w, id, newId, w'.admin);
  }

  lemma UnmovedStay(w0: World, done: seq<string>, w: World, id: string, newId: string, m: Keys)
    requires AdminMoved(w0, done, w) && newId in m && m == (w.admin - {id})[newId := m[newId]]
    requires newId in w0.admin ==> newId in done || newId in GatewayIds(w0.gw)
    ensures forall i :: i in w0.admin && i !in done + [id] && i !in GatewayIds(w0.gw) ==> i in m && m[i] == w0.admin[i]
  {
    forall i | i in w0.admin && i !in done + [id] && i !in GatewayIds(w0.gw) ensures i in m && m[i] == w0.admin[i] {
      assert i !in done && i != id;
    }
  }

  lemma MovedAreFiled(w0: World, done: seq<string>, w: World, id: string, newId: string, m: Keys)
    requires AdminMoved(w0, done, w) && newId in m && m == (w.admin - {id})[newId := m[newId]]
    requires newId in GatewayIds(w.gw) && newId != id
    ensures forall i :: i in m && m[i].token != "" ==> i in GatewayIds(w.gw) || (i in w0.admin && i !in done + [id])
  {
    forall i | i in m && m[i].token != "" ensures i in GatewayIds(w.gw) || (i in w0.admin && i !in done + [id]) {
      assert i == newId || (i != id && i in w.admin && w.admin[i] == m[i]);
    }
  }

  lemma CreateKeeps(w0: World, done: seq<string>, w: World, id: string, newId: string, g: GatewayKeys)
    requires id in w0.admin && id !in GatewayIds(w0.gw) && w0.admin[id].token !in w0.gw
    requires GatewayGrew(w0, done, w.gw) && Created(w, w0.admin[id], newId, g)
    requires AdminMoved(w0, done, w)
    ensures GatewayGrew(w0, done + [id], g) && newId in GatewayIds(g)
    ensures AdminMoved(w0, done, w.(gw := g))
  {
    var t := w0.admin[id].token;
    assert g[t].id == newId;
    IdsGrow(w.gw, g);
    assert exists c :: c in t && !Space(c);
    forall s | s in w.gw ensures g[s].id != newId {
      assert w.gw[s].id in GatewayIds(w.gw);
    }
    forall u | u in g && u !in w0.gw
      ensures exists i :: i in done + [id] && PushedAs(w0.admin, w0.gw, i, u, g[u])
    {
      if u == t {
        assert id in done + [id] && PushedAs(w0.admin, w0.gw, id, u, g[u]);
      } else {
        var i :| i in done && PushedAs(w0.admin, w0.gw, i, u, w.gw[u]);
        assert i in done + [id];
      }
    }
  }

  lemma ReconcileStepKeeps(w0: World, done: seq<string>, w: World, id: string, out: Outcome, w': World)
    requires id in w0.admin && id !in done
    requires GatewayGrew(w0, done, w.gw) && AdminMoved(w0, done, w)
    requires ReconcileStep(w, w0.gw, id, w0.admin[id], out, w')
    requires !out.Failed? && !out.TimedOut?
    ensures GatewayGrew(w0, done + [id], w'.gw) && AdminMoved(w0, done + [id], w')
    ensures forall t :: t in w.gw ==> t in w'.gw
    ensures w0.admin[id].token != "" && id !in GatewayIds(w0.gw) ==> w0.admin[id].token in w'.gw
  {
    var meta := w0.admin[id];
    IdsGrow(w0.gw, w.gw);
    if meta.token == "" || id in GatewayIds(w0.gw) {
      SkipKeeps(w0, done, w, id);
    } else if meta.token in w0.gw {
      MoveKeeps(w0, done, w, id, w0.gw[meta.token].id, meta.token, w');
    } else {
      var g :| Created(w, meta, out.newId, g) && Migrated(w.(gw := g), id, out.newId, meta.token, w');
      CreateKeeps(w0, done, w, id, out.newId, g);
      FreshIsNew(w0, done, w, out.newId);
      MoveKeeps(w0, done, w.(gw := g), id, out.newId, meta.token, w');
    }
  }

  lemma SkipKeeps(w0: World, done: seq<string>, w: World, id: string)
    requires id in w0.admin && AdminMoved(w0, done, w)
    requires w0.admin[id].token == "" || id in GatewayIds(w0.gw)
    requires forall i :: i in GatewayIds(w0.gw) ==> i in GatewayIds(w.gw)
    ensures AdminMoved(w0, done + [id], w)
  {
    forall i | i in w.admin && w.admin[i].token != ""
      ensures i in GatewayIds(w.gw) || (i in w0.admin && i !in done + [id])
    {
    }
  }

  /** An id that is fresh now was not in the snapshot, unless it was taken over by the Gateway. */
  lemma FreshIsNew(w0: World, done: seq<string>, w: World, newId: string)
    requires AdminMoved(w0, done, w) && newId !in w.admin && newId !in GatewayIds(w.gw)
    requires forall i :: i in GatewayIds(w0.gw) ==> i in GatewayIds(w.gw)
    ensures newId in w0.admin ==> newId in done
  {
  }

  lemma {:induction false} ReconcileRunKeeps(w0: World, order: seq<string>, outs: seq<Outcome>, w': World)
    requires GatewayWellFormed(w0.gw) && WellKeyed(w0.admin)
    requires forall i :: i in order ==> i in w0.admin
    requires forall i, j :: 0 <= i < j < |order| ==> order[i] != order[j]
    requires ReconcileRun(w0, w0.gw, w0.admin, order, outs, w') && NoFailure(outs)
    ensures GatewayGrew(w0, order, w'.gw) && AdminMoved(w0, order, w')
    ensures forall i :: i in order && w0.admin[i].token != "" && i !in GatewayIds(w0.gw) ==> w0.admin[i].token in w'.gw
    decreases |order|
  {
    if order != [] {
      var n := |order| - 1;
      var front, id := order[..n], order[n];
      LastApart(order);
      var mid :| ReconcileRun(w0, w0.gw, w0.admin, front, outs[..n], mid)
              && ReconcileStep(mid, w0.gw, id, w0.admin[id], outs[n], w');
      ReconcileRunKeeps(w0, front, outs[..n], mid);
      ReconcileStepKeeps(w0, front, mid, id, outs[n], w');
    }
  }

  /** Admin's entry for Gateway token `t` carries the Gateway's id and settings. */
  ghost predicate Matches(m: Keys, g: GatewayKeys, t: string)
    requires t in g
  {
    && g[t].id in m && m[g[t].id].token == t && m[g[t].id].name == g[t].name
    && m[g[t].id].rpmLimit == g[t].rpmLimit && m[g[t].id].maxConcurrent == g[t].maxConcurrent
  }

  ghost predicate SyncInv(g: GatewayKeys, done: seq<string>, w: World) {
    && w.gw == g && WellKeyed(w.admin)
    && (forall t :: t in done ==> t in g && Matches(w.admin, g, t))
    && (forall i :: i in w.admin && w.admin[i].token != "" ==> i in GatewayIds(g))
  }

  /** A list without repeats, cut before its last element. */
  lemma LastApart(s: seq<string>)
    requires s != [] && forall i, j :: 0 <= i < j < |s| ==> s[i] != s[j]
    ensures s[..|s| - 1] + [s[|s| - 1]] == s && s[|s| - 1] !in s[..|s| - 1] && s[|s| - 1] in s
    ensures forall t :: t in s[..|s| - 1] ==> t in s
  {
  }

  /** What one listing entry changes: the entry under its id, which then matches, and at most a mover. */
  lemma SyncStepEffect(g: GatewayKeys, w: World, t: string, w': World)
    requires t in g && t != "" && WellKeyed(w.admin) && SyncStep(w, SpecOf(g, t), w')
    ensures Matches(w'.admin, g, t) && w'.gw == w.gw && WellKeyed(w'.admin)
    ensures forall i :: i in w'.admin && i != g[t].id ==> i in w.admin && w'.admin[i] == w.admin[i]
    ensures forall i :: i in w.admin && i != g[t].id && w.admin[i].token != t ==> i in w'.admin
  {
    var spec := SpecOf(g, t);
    if spec.id !in w.admin && exists i :: HoldsToken(w.admin, i, t, spec.id) {
      var i :| HoldsToken(w.admin, i, t, spec.id) && Moved(w, i, Applied(w.admin[i].(id := spec.id), spec), w');
      assert w'.admin == (w.admin - {i})[spec.id := Applied(w.admin[i].(id := spec.id), spec)];
    }
  }

  lemma SyncStepKeeps(g: GatewayKeys, done: seq<string>, w: World, t: string, w': World)
    requires GatewayWellFormed(g) && SyncInv(g, done, w) && t in g && t !in done
    requires SyncStep(w, SpecOf(g, t), w')
    ensures SyncInv(g, done + [t], w')
  {
    SyncStepEffect(g, w, t, w');
  }

  lemma {:induction false} SyncRunKeeps(w: World, tokens: seq<string>, w': World)
    requires GatewayWellFormed(w.gw) && SyncInv(w.gw, [], w)
    requires forall t :: t in tokens ==> t in w.gw
    requires forall i, j :: 0 <= i < j < |tokens| ==> tokens[i] != tokens[j]
    requires SyncRun(w, w.gw, tokens, w')
    ensures SyncInv(w.gw, tokens, w')
    decreases |tokens|
  {
    if tokens != [] {
      var n := |tokens| - 1;
      var front := tokens[..n];
      LastApart(tokens);
      var mid :| SyncRun(w, w.gw, front, mid) && SyncStep(mid, SpecOf(w.gw, tokens[n]), w');
      SyncRunKeeps(w, front, mid);
      SyncStepKeeps(w.gw, front, mid, tokens[n], w');
    }
  }

  /** After a sync every Admin entry that holds a token is the Gateway's entry for it. */
  lemma SyncAgrees(w: World, w': World)
    requires GatewayWellFormed(w.gw) && SyncInv(w.gw, [], w) && Synced(w, w')
    ensures InAgreement(w'.admin, w'.gw) && WellKeyed(w'.admin) && w'.gw == w.gw
  {
    var tokens :| Enumerates(tokens, w.gw.Keys) && SyncRun(w, w.gw, tokens, w');
    SyncRunKeeps(w, tokens, w');
    forall i | i in w'.admin && w'.admin[i].token != ""
      ensures w'.admin[i].token in w'.gw && w'.gw[w'.admin[i].token].id == i
    {
      var t :| t in w.gw && w.gw[t].id == i;
      assert t in tokens;
    }
  }

  /** No budget, no usage, no restriction: what a key Admin has never heard of starts with. */
  predicate Unbudgeted(meta: KeyMetadata) {
    && meta.monthlyTokenLimit == 0 && meta.tokensThisMonth == 0 && meta.inputTokens == 0 && meta.outputTokens == 0
    && meta.currentRpm == 0 && meta.expiredAt == None && meta.modelLimits == [] && meta.usageMonth == ""
    && meta.remainQuota == -1 && meta.unlimitedQuota && !meta.dashboardCreated
  }

  ghost predicate Unknown(m: Keys, g: GatewayKeys, t: string)
    requires t in g
  {
    g[t].id !in m && forall i :: i in m ==> m[i].token != t
  }

  /** A Gateway key Admin knows neither by id nor by token is adopted without a budget, and stays so to the end. */
  lemma {:induction false} SyncAdopts(w: World, g: GatewayKeys, tokens: seq<string>, w': World, t: string)
    requires GatewayWellFormed(g) && WellKeyed(w.admin) && t in g && Unknown(w.admin, g, t)
    requires (forall u :: u in tokens ==> u in g) && forall i, j :: 0 <= i < j < |tokens| ==> tokens[i] != tokens[j]
    requires SyncRun(w, g, tokens, w')
    ensures WellKeyed(w'.admin)
    ensures if t in tokens then Matches(w'.admin, g, t) && Unbudgeted(w'.admin[g[t].id]) else Unknown(w'.admin, g, t)
    decreases |tokens|
  {
    if tokens != [] {
      var n := |tokens| - 1;
      LastApart(tokens);
      var mid :| SyncRun(w, g, tokens[..n], mid) && SyncStep(mid, SpecOf(g, tokens[n]), w');
      SyncAdopts(w, g, tokens[..n], mid, t);
      SyncStepEffect(g, mid, tokens[n], w');
      assert t in tokens <==> t in tokens[..n] || t == tokens[n];
    }
  }

  /** Every key the Admin map holds is on the Gateway. */
  ghost predicate AllOnGateway(m: Keys, g: GatewayKeys) {
    forall i :: i in m && m[i].token != "" ==> m[i].token in g
  }

  /** An Admin entry filed under a Gateway id holds a token the Gateway knows. */
  ghost predicate SharedIdsKnown(m: Keys, g: GatewayKeys) {
    forall i :: i in m && m[i].token != "" && i in GatewayIds(g) ==> m[i].token in g
  }

  /** Every key the Gateway lacks has a token it would accept. */
  ghost predicate Pushable(m: Keys, g: GatewayKeys) {
    forall i :: i in m && Missing(m, g, i) ==> Acceptable(m[i].token)
  }

  /** Neither the entry's id nor its token is on the Gateway. */
  predicate Missing(m: Keys, g: GatewayKeys, i: string)
    requires i in m
  {
    m[i].token != "" && i !in GatewayIds(g) && m[i].token !in g
  }

  /** Reconcile alone: which tokens are on the Gateway afterwards, and where Admin's entries sit. */
  lemma ReconcileReaches(w0: World, order: seq<string>, outs: seq<Outcome>, w1: World)
    requires GatewayWellFormed(w0.gw) && WellKeyed(w0.admin) && UniqueTokens(w0.admin)
    requires Reconciled(w0, order, outs, w1) && NoFailure(outs)
    ensures GatewayWellFormed(w1.gw) && SyncInv(w1.gw, [], w1)
    ensures forall t :: t in w0.gw ==> t in w1.gw && w1.gw[t] == w0.gw[t]
    ensures forall t :: t in w1.gw && t !in w0.gw ==> exists i :: PushedAs(w0.admin, w0.gw, i, t, w1.gw[t])
    ensures AllOnGateway(w0.admin, w1.gw) <==> SharedIdsKnown(w0.admin, w0.gw)
    ensures AllOnGateway(w0.admin, w0.gw) ==> RestoredCount(outs) == 0 && w1.gw == w0.gw
  {
    ReconcileRunKeeps(w0, order, outs, w1);
    ReachedExactly(w0, order, w1.gw);
    NothingGained(w0, order, w1.gw);
    if AllOnGateway(w0.admin, w0.gw) {
      RunPushesNothing(w0, w0.gw, w0.admin, order, outs, w1);
    }
  }

  lemma {:induction false} RunPushesNothing(w: World, g0: GatewayKeys, m0: Keys, order: seq<string>,
                                            outs: seq<Outcome>, w': World)
    requires forall i :: i in order ==> i in m0
    requires ReconcileRun(w, g0, m0, order, outs, w') && NoFailure(outs)
    requires forall i :: i in m0 && m0[i].token != "" && i !in GatewayIds(g0) ==> m0[i].token in g0
    ensures RestoredCount(outs) == 0 && w'.gw == w.gw
    decreases |order|
  {
    if order != [] {
      var n := |order| - 1;
      var mid :| ReconcileRun(w, g0, m0, order[..n], outs[..n], mid)
              && ReconcileStep(mid, g0, order[n], m0[order[n]], outs[n], w');
      assert order[n] in order;
      RunPushesNothing(w, g0, m0, order[..n], outs[..n], mid);
    }
  }

  lemma ReachedExactly(w0: World, order: seq<string>, g: GatewayKeys)
    requires UniqueTokens(w0.admin) && GatewayGrew(w0, order, g) && forall i :: i in w0.admin <==> i in order
    requires forall i :: i in order && w0.admin[i].token != "" && i !in GatewayIds(w0.gw) ==> w0.admin[i].token in g
    ensures AllOnGateway(w0.admin, g) <==> SharedIdsKnown(w0.admin, w0.gw)
  {
    if AllOnGateway(w0.admin, g) {
      forall i | i in w0.admin && w0.admin[i].token != "" && i in GatewayIds(w0.gw) ensures w0.admin[i].token in w0.gw {
        assert w0.admin[i].token in g;
      }
    }
  }

  lemma NothingGained(w0: World, order: seq<string>, g: GatewayKeys)
    requires GatewayGrew(w0, order, g)
    ensures AllOnGateway(w0.admin, w0.gw) ==> g == w0.gw
  {
    if AllOnGateway(w0.admin, w0.gw) {
      assert g.Keys == w0.gw.Keys;
    }
  }

  /**
   Reconcile followed by sync, with every Gateway call succeeding, from any Admin map with
   unique tokens: Admin and Gateway end in agreement, the Gateway loses nothing, and all of
   Admin's keys reach it exactly when no entry under a Gateway id holds an unknown token.
   */
  lemma ReconcileThenSyncConverges(w0: World, order: seq<string>, outs: seq<Outcome>, w1: World, w2: World)
    requires GatewayWellFormed(w0.gw) && WellKeyed(w0.admin) && UniqueTokens(w0.admin)
    requires Reconciled(w0, order, outs, w1) && NoFailure(outs) && Synced(w1, w2)
    ensures InAgreement(w2.admin, w2.gw) && WellKeyed(w2.admin) && GatewayWellFormed(w2.gw)
    ensures forall t :: t in w0.gw ==> t in w2.gw && w2.gw[t] == w0.gw[t]
    ensures forall t :: t in w2.gw && t !in w0.gw ==> exists i :: PushedAs(w0.admin, w0.gw, i, t, w2.gw[t])
    ensures AllOnGateway(w0.admin, w2.gw) <==> SharedIdsKnown(w0.admin, w0.gw)
    ensures AllOnGateway(w0.admin, w0.gw) ==> RestoredCount(outs) == 0 && w2.gw == w0.gw
  {
    ReconcileReaches(w0, order, outs, w1);
    SyncAgrees(w1, w2);
  }

  /** Once in agreement, another reconcile and sync is the identity on all three replicas. */
  lemma AgreementIsStable(w: World, order: seq<string>, outs: seq<Outcome>, w1: World, w2: World)
    requires GatewayWellFormed(w.gw) && WellKeyed(w.admin) && InAgreement(w.admin, w.gw)
    requires Reconciled(w, order, outs, w1) && Synced(w1, w2)
    ensures w2 == w && RestoredCount(outs) == 0
  {
    ReconcileQuiet(w, order, outs, w1);
    var tokens :| Enumerates(tokens, w1.gw.Keys) && SyncRun(w1, w1.gw, tokens, w2);
    SyncQuiet(w1, tokens, w2);
  }

  lemma {:induction false} ReconcileQuiet(w: World, order: seq<string>, outs: seq<Outcome>, w': World)
    requires InAgreement(w.admin, w.gw) && forall i :: i in order ==> i in w.admin
    requires ReconcileRun(w, w.gw, w.admin, order, outs, w')
    ensures w' == w && RestoredCount(outs) == 0
    decreases |order|
  {
    if order != [] {
      var n := |order| - 1;
      var mid :| ReconcileRun(w, w.gw, w.admin, order[..n], outs[..n], mid)
              && ReconcileStep(mid, w.gw, order[n], w.admin[order[n]], outs[n], w');
      ReconcileQuiet(w, order[..n], outs[..n], mid);
      var t := w.admin[order[n]].token;
      assert t != "" ==> w.gw[t].id in GatewayIds(w.gw);
    }
  }

  lemma {:induction false} SyncQuiet(w: World, tokens: seq<string>, w': World)
    requires InAgreement(w.admin, w.gw) && forall t :: t in tokens ==> t in w.gw
    requires SyncRun(w, w.gw, tokens, w')
    ensures w' == w
    decreases |tokens|
  {
    if tokens != [] {
      var n := |tokens| - 1;
      var spec := SpecOf(w.gw, tokens[n]);
      var mid :| SyncRun(w, w.gw, tokens[..n], mid) && SyncStep(mid, spec, w');
      SyncQuiet(w, tokens[..n], mid);
      assert tokens[n] in w.gw;
      assert Applied(w.admin[spec.id], spec) == w.admin[spec.id];
      assert w.admin[spec.id := w.admin[spec.id]] == w.admin;
    }
  }
}
