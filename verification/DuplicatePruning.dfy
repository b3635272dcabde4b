/** Revoking the client keys that repeat a name, all but the best of each name. */
module DuplicatePruning {
  import opened Common
  import opened ClientKeys
  import opened KeyRestore
  import opened AdminState
  import StringOrder

  // ---------------------------------------------------------------------------
  // The key list
  // ---------------------------------------------------------------------------

  datatype ApiKey = ApiKey(id: string, name: string, keyFull: Option<string>, budget: nat,
                           manuallyCreated: bool, pendingSync: bool)

  /** A Gateway key with the metadata Admin holds under its id, if any. */
  function FromSpec(admin: Keys, spec: ApiKeySpec): ApiKey {
    if spec.id in admin then
      var m := admin[spec.id];
      ApiKey(spec.id, spec.name, if m.token != "" then Some(m.token) else spec.keyFull, m.monthlyTokenLimit,
             m.dashboardCreated, false)
    else ApiKey(spec.id, spec.name, spec.keyFull, 0, false, false)
  }

  function FromMeta(m: KeyMetadata): ApiKey {
    ApiKey(m.id, m.name, Some(m.token), m.monthlyTokenLimit, m.dashboardCreated, true)
  }

  /** An entry the Gateway knows neither by token nor by id. */
  predicate Pending(w: World, i: string) {
    i in w.admin && w.admin[i].token != "" && w.admin[i].token !in w.gw && w.admin[i].id !in GatewayIds(w.gw)
  }

  /** `k` is listed: a Gateway key, or a pending entry. */
  ghost predicate Listed(w: World, k: ApiKey) {
    || (exists t :: t in w.gw && k == FromSpec(w.admin, SpecOf(w.gw, t)))
    || (exists i :: Pending(w, i) && k == FromMeta(w.admin[i]))
  }

  ghost predicate DistinctKeys(keys: seq<ApiKey>) {
    forall i, j :: 0 <= i < j < |keys| ==> keys[i].id != keys[j].id
  }

  ghost predicate KeyList(w: World, keys: seq<ApiKey>) {
    DistinctKeys(keys) && forall k :: k in keys <==> Listed(w, k)
  }

  /** Every Gateway key is listed under its own id and name, with the budget and origin Admin has for that id. */
  lemma GatewayKeyListed(w: World, keys: seq<ApiKey>, t: string)
    requires KeyList(w, keys) && t in w.gw
    ensures exists k ::
              && k in keys && k.id == w.gw[t].id && k.name == w.gw[t].name && !k.pendingSync
              && (if k.id in w.admin then k.budget == w.admin[k.id].monthlyTokenLimit
                                          && k.manuallyCreated == w.admin[k.id].dashboardCreated
                  else k.budget == 0 && !k.manuallyCreated)
  {
    assert Listed(w, FromSpec(w.admin, SpecOf(w.gw, t)));
  }

  /** Every key Admin holds and the Gateway knows neither by id nor by token is listed as pending, with all it has. */
  lemma PendingKeyListed(w: World, keys: seq<ApiKey>, i: string)
    requires KeyList(w, keys) && WellKeyed(w.admin) && i in w.admin
    requires w.admin[i].token != "" && w.admin[i].token !in w.gw && i !in GatewayIds(w.gw)
    ensures exists k ::
              && k in keys && k.id == i && k.name == w.admin[i].name && k.keyFull == Some(w.admin[i].token)
              && k.budget == w.admin[i].monthlyTokenLimit && k.manuallyCreated == w.admin[i].dashboardCreated
              && k.pendingSync
  {
    assert Pending(w, i) && Listed(w, FromMeta(w.admin[i]));
  }

  method BuildApiKeys(s: AppState) returns (keys: seq<ApiKey>)
    requires GatewayWellFormed(s.gatewayKeys) && WellKeyed(s.keysMeta)
    ensures KeyList(s.Replicas(), keys)
  {
    var onGateway := ListGatewayKeys(s);
    keys := AddPending(s, onGateway);
    forall k ensures k in keys <==> Listed(s.Replicas(), k) {
    }
  }

  method ListGatewayKeys(s: AppState) returns (keys: seq<ApiKey>)
    requires GatewayWellFormed(s.gatewayKeys)
    ensures DistinctKeys(keys)
    ensures forall k :: k in keys <==> OnGateway(s.Replicas(), {}, k)
  {
    keys := [];
    var tokens := s.gatewayKeys.Keys;
    while tokens != {}
      invariant tokens <= s.gatewayKeys.Keys && DistinctKeys(keys)
      invariant forall k :: k in keys <==> OnGateway(s.Replicas(), tokens, k)
    {
      var t :| t in tokens;
      var k := FromSpec(s.keysMeta, SpecOf(s.gatewayKeys, t));
      GatewayKeysListed(s.Replicas(), keys, k, t, tokens);
      tokens, keys := tokens - {t}, keys + [k];
    }
  }

  method AddPending(s: AppState, onGateway: seq<ApiKey>) returns (keys: seq<ApiKey>)
    requires WellKeyed(s.keysMeta) && DistinctKeys(onGateway)
    requires forall k :: k in onGateway <==> OnGateway(s.Replicas(), {}, k)
    ensures DistinctKeys(keys)
    ensures forall k :: k in keys <==> k in onGateway || PendingOnly(s.Replicas(), {}, k)
  {
    keys := onGateway;
    var ids := s.keysMeta.Keys;
    while ids != {}
      invariant ids <= s.keysMeta.Keys && DistinctKeys(keys)
      invariant forall k :: k in keys <==> k in onGateway || PendingOnly(s.Replicas(), ids, k)
    {
      var i :| i in ids;
      var m := s.keysMeta[i];
      PendingStep(s.Replicas(), onGateway, keys, ids, i);
      if m.token != "" && m.id !in GatewayIds(s.gatewayKeys) && m.token !in s.gatewayKeys {
        keys := keys + [FromMeta(m)];
      }
      ids := ids - {i};
    }
  }

  /** A Gateway key whose token is not in `left`. */
  ghost predicate OnGateway(w: World, left: set<string>, k: ApiKey) {
    exists t :: t in w.gw && t !in left && k == FromSpec(w.admin, SpecOf(w.gw, t))
  }

  /** A pending entry whose id is not in `left`. */
  ghost predicate PendingOnly(w: World, left: set<string>, k: ApiKey) {
    exists i :: Pending(w, i) && i !in left && k == FromMeta(w.admin[i])
  }

  lemma GatewayKeysListed(w: World, keys: seq<ApiKey>, k: ApiKey, t: string, left: set<string>)
    requires GatewayWellFormed(w.gw) && t in left && t in w.gw && k == FromSpec(w.admin, SpecOf(w.gw, t))
    requires forall o :: o in keys <==> OnGateway(w, left, o)
    ensures forall o :: o in keys ==> o.id != k.id
    ensures forall o :: o in keys + [k] <==> OnGateway(w, left - {t}, o)
  {
    forall o | o in keys ensures o.id != k.id && OnGateway(w, left - {t}, o) {
      var u :| u in w.gw && u !in left && o == FromSpec(w.admin, SpecOf(w.gw, u));
      assert u !in left - {t};
    }
    assert t !in left - {t};
    forall o | OnGateway(w, left - {t}, o) ensures o in keys + [k] {
      var u :| u in w.gw && u !in left - {t} && o == FromSpec(w.admin, SpecOf(w.gw, u));
      assert u != t ==> OnGateway(w, left, o);
    }
  }

  lemma PendingStep(w: World, onGateway: seq<ApiKey>, keys: seq<ApiKey>, left: set<string>, i: string)
    requires WellKeyed(w.admin) && i in left && i in w.admin
    requires forall k :: k in onGateway <==> OnGateway(w, {}, k)
    requires forall k :: k in keys <==> k in onGateway || PendingOnly(w, left, k)
    ensures Pending(w, i) ==> forall o :: o in keys ==> o.id != w.admin[i].id
    ensures forall k :: PendingOnly(w, left - {i}, k) <==> PendingOnly(w, left, k) || (Pending(w, i) && k == FromMeta(w.admin[i]))
  {
    forall k ensures PendingOnly(w, left - {i}, k) <==> PendingOnly(w, left, k) || (Pending(w, i) && k == FromMeta(w.admin[i])) {
    }
    forall o | Pending(w, i) && o in keys ensures o.id != i {
      if o in onGateway {
        var t :| t in w.gw && o == FromSpec(w.admin, SpecOf(w.gw, t));
        assert o.id in GatewayIds(w.gw);
      }
    }
  }

  // ---------------------------------------------------------------------------
  // Keeping the best of each name
  // ---------------------------------------------------------------------------

  /** `u64 as i64`. */
  function AsI64(n: nat): int {
    var m := n % 0x1_0000_0000_0000_0000;
    if m < 0x8000_0000_0000_0000 then m else m - 0x1_0000_0000_0000_0000
  }

  function KeeperScore(k: ApiKey, audited: set<string>): int {
    (if k.manuallyCreated then 1_000_000 else 0) + (if k.id in audited then 500_000 else 0)
    + (if k.keyFull.Some? then 10_000 else 0) + (if k.budget > 0 then AsI64(k.budget) else 0)
  }

  /** `a` is kept rather than `b`: the higher score, then the smaller id. */
  predicate Before(a: ApiKey, b: ApiKey, audited: set<string>) {
    var x, y := KeeperScore(a, audited), KeeperScore(b, audited);
    x > y || (x == y && StringOrder.Less(a.id, b.id))
  }

  lemma BeforeTransitive(a: ApiKey, b: ApiKey, c: ApiKey, audited: set<string>)
    requires Before(a, b, audited) && Before(b, c, audited)
    ensures Before(a, c, audited)
  {
    if KeeperScore(a, audited) == KeeperScore(c, audited) {
      StringOrder.Transitive(a.id, b.id, c.id);
    }
  }

  lemma BeforeTotal(a: ApiKey, b: ApiKey, audited: set<string>)
    requires a.id != b.id
    ensures Before(a, b, audited) || Before(b, a, audited)
  {
    StringOrder.Total(a.id, b.id);
  }

  lemma BeforeIrreflexive(a: ApiKey, audited: set<string>)
    ensures !Before(a, a, audited)
  {
    StringOrder.Irreflexive(a.id);
  }

  ghost predicate Sorted(g: seq<ApiKey>, audited: set<string>) {
    forall i, j :: 0 <= i < j < |g| ==> Before(g[i], g[j], audited)
  }

  /** Insert `k` at its place in a sorted group. */
  method InsertSorted(g: seq<ApiKey>, k: ApiKey, audited: set<string>) returns (r: seq<ApiKey>)
    requires Sorted(g, audited) && forall o :: o in g ==> o.id != k.id
    ensures Sorted(r, audited) && multiset(r) == multiset(g) + multiset{k}
  {
    var i := 0;
    while i < |g| && Before(g[i], k, audited)
      invariant 0 <= i <= |g|
      invariant forall j :: 0 <= j < i ==> Before(g[j], k, audited)
    {
      i := i + 1;
    }
    RestComesAfter(g, k, i, audited);
    r := g[..i] + [k] + g[i..];
    InsertedSorted(g, k, i, audited);
  }

  lemma InsertedSorted(g: seq<ApiKey>, k: ApiKey, i: nat, audited: set<string>)
    requires Sorted(g, audited) && i <= |g|
    requires forall j :: 0 <= j < i ==> Before(g[j], k, audited)
    requires forall j :: i <= j < |g| ==> Before(k, g[j], audited)
    ensures var r := g[..i] + [k] + g[i..];
            Sorted(r, audited) && multiset(r) == multiset(g) + multiset{k}
  {
    assert g == g[..i] + g[i..];
  }

  lemma RestComesAfter(g: seq<ApiKey>, k: ApiKey, i: nat, audited: set<string>)
    requires Sorted(g, audited) && (forall o :: o in g ==> o.id != k.id)
    requires i < |g| ==> !Before(g[i], k, audited)
    ensures forall j :: i <= j < |g| ==> Before(k, g[j], audited)
  {
    forall j | i <= j < |g| ensures Before(k, g[j], audited) {
      assert g[i] in g;
      BeforeTotal(g[i], k, audited);
      if j > i { BeforeTransitive(k, g[i], g[j], audited); }
    }
  }

  method SortGroup(group: seq<ApiKey>, audited: set<string>) returns (r: seq<ApiKey>)
    requires DistinctKeys(group)
    ensures Sorted(r, audited) && multiset(r) == multiset(group)
  {
    r := [];
    for n := 0 to |group|
      invariant Sorted(r, audited) && multiset(r) == multiset(group[..n])
    {
      forall o | o in r ensures o.id != group[n].id {
        assert o in multiset(group[..n]);
      }
      r := InsertSorted(r, group[n], audited);
      assert group[..n + 1] == group[..n] + [group[n]];
    }
    assert group[..|group|] == group;
  }

  function Named(keys: seq<ApiKey>, name: string): seq<ApiKey> {
    if keys == [] then []
    else
      var front, k := Named(keys[..|keys| - 1], name), keys[|keys| - 1];
      if k.name == name then front + [k] else front
  }

  lemma {:induction false} NamedOnly(keys: seq<ApiKey>, name: string)
    ensures forall k :: k in Named(keys, name) <==> k in keys && k.name == name
    ensures DistinctKeys(keys) ==> DistinctKeys(Named(keys, name))
  {
    if keys != [] {
      NamedOnly(keys[..|keys| - 1], name);
      assert keys == keys[..|keys| - 1] + [keys[|keys| - 1]];
    }
  }

  ghost predicate GroupsOf(groups: map<string, seq<ApiKey>>, keys: seq<ApiKey>) {
    && (forall n :: n in groups ==> groups[n] == Named(keys, n))
    && (forall n :: Named(keys, n) != [] ==> n in groups)
  }

  method GroupByName(keys: seq<ApiKey>) returns (groups: map<string, seq<ApiKey>>)
    ensures GroupsOf(groups, keys)
  {
    groups := map[];
    for n := 0 to |keys|
      invariant GroupsOf(groups, keys[..n])
    {
      var k := keys[n];
      assert keys[..n + 1][..n] == keys[..n];
      groups := groups[k.name := (if k.name in groups then groups[k.name] else []) + [k]];
    }
    assert keys[..|keys|] == keys;
  }

  /** No key of the same name is kept rather than `k`. */
  ghost predicate Best(keys: seq<ApiKey>, k: ApiKey, audited: set<string>) {
    forall o :: o in keys && o.name == k.name ==> !Before(o, k, audited)
  }

  ghost predicate Repeated(keys: seq<ApiKey>, k: ApiKey) {
    exists o :: o in keys && o.name == k.name && o.id != k.id
  }

  /** Of every repeated name the best key is kept and every other is revoked, each once. */
  ghost predicate Decided(keys: seq<ApiKey>, audited: set<string>, kept: seq<ApiKey>, revoked: seq<ApiKey>) {
    && (forall k :: k in kept <==> k in keys && Repeated(keys, k) && Best(keys, k, audited))
    && (forall k :: k in revoked <==> k in keys && !Best(keys, k, audited))
    && DistinctKeys(kept) && DistinctKeys(revoked)
  }

  /** The same, for the names in `done` only. */
  ghost predicate DecidedFor(keys: seq<ApiKey>, audited: set<string>, done: set<string>,
                             kept: seq<ApiKey>, revoked: seq<ApiKey>) {
    && (forall k :: k in kept <==> k in keys && k.name in done && Repeated(keys, k) && Best(keys, k, audited))
    && (forall k :: k in revoked <==> k in keys && k.name in done && !Best(keys, k, audited))
    && DistinctKeys(kept) && DistinctKeys(revoked)
  }

  method Decide(keys: seq<ApiKey>, audited: set<string>) returns (kept: seq<ApiKey>, revoked: seq<ApiKey>)
    requires DistinctKeys(keys)
    ensures Decided(keys, audited, kept, revoked)
  {
    var groups := GroupByName(keys);
    kept, revoked := [], [];
    var names := groups.Keys;
    ghost var done: set<string> := {};
    while names != {}
      invariant names <= groups.Keys && done == groups.Keys - names
      invariant DecidedFor(keys, audited, done, kept, revoked)
    {
      var n :| n in names;
      names := names - {n};
      ghost var d, k0, r0 := done, kept, revoked;
      done := done + {n};
      NamedOnly(keys, n);
      if |groups[n]| <= 1 {
        SingleDecides(keys, audited, d, n, kept, revoked);
        continue;
      }
      var group := SortGroup(groups[n], audited);
      assert |group| == |multiset(group)| == |groups[n]|;
      SortedSplits(keys, audited, n, group);
      kept, revoked := kept + [group[0]], revoked + group[1..];
      GroupDecides(keys, audited, d, n, k0, r0, group);
    }
    forall k | k in keys ensures k.name in done {
      NamedOnly(keys, k.name);
      assert k in Named(keys, k.name);
    }
  }

  lemma SingleDecides(keys: seq<ApiKey>, audited: set<string>, done: set<string>, n: string,
                      kept: seq<ApiKey>, revoked: seq<ApiKey>)
    requires DistinctKeys(keys) && DecidedFor(keys, audited, done, kept, revoked)
    requires |Named(keys, n)| <= 1
    ensures DecidedFor(keys, audited, done + {n}, kept, revoked)
  {
    forall k | k in keys && k.name == n ensures !Repeated(keys, k) && Best(keys, k, audited) {
      AloneIsBest(keys, audited, k);
    }
  }

  lemma AloneIsBest(keys: seq<ApiKey>, audited: set<string>, k: ApiKey)
    requires k in keys && |Named(keys, k.name)| <= 1
    ensures !Repeated(keys, k) && Best(keys, k, audited)
  {
    NamedOnly(keys, k.name);
    var g := Named(keys, k.name);
    assert k in g;
    assert forall o :: o in keys && o.name == k.name ==> o in g && o == g[0] == k;
    BeforeIrreflexive(k, audited);
  }

  /** The first of the sorted group is its best, and it alone. */
  lemma SortedSplits(keys: seq<ApiKey>, audited: set<string>, n: string, group: seq<ApiKey>)
    requires DistinctKeys(keys) && |group| > 1 && Sorted(group, audited) && multiset(group) == multiset(Named(keys, n))
    ensures forall k :: k in group <==> k in keys && k.name == n
    ensures Best(keys, group[0], audited) && Repeated(keys, group[0])
    ensures forall k :: k in group[1..] <==> k in keys && k.name == n && !Best(keys, k, audited)
    ensures DistinctKeys(group)
  {
    NamedOnly(keys, n);
    forall k ensures k in group <==> k in Named(keys, n) {
      assert k in group <==> k in multiset(group);
    }
    forall i, j | 0 <= i < j < |group| ensures group[i].id != group[j].id {
      if group[i].id == group[j].id {
        assert group[i] in keys && group[j] in keys;
        BeforeIrreflexive(group[i], audited);
      }
    }
    var top := group[0];
    forall k | k in group ensures !Before(k, top, audited) {
      var j :| 0 <= j < |group| && group[j] == k;
      BeforeIrreflexive(top, audited);
      if j > 0 && Before(k, top, audited) { BeforeTransitive(top, k, top, audited); }
    }
    assert top in group && group[1] in group;
    forall k | k in group[1..] ensures !Best(keys, k, audited) {
      var j :| 1 <= j < |group| && group[j] == k;
      assert Before(top, k, audited);
    }
  }

  lemma GroupDecides(keys: seq<ApiKey>, audited: set<string>, done: set<string>, n: string,
                     kept: seq<ApiKey>, revoked: seq<ApiKey>, group: seq<ApiKey>)
    requires DecidedFor(keys, audited, done, kept, revoked) && n !in done && |group| > 1
    requires forall k :: k in group <==> k in keys && k.name == n
    requires Best(keys, group[0], audited) && Repeated(keys, group[0]) && DistinctKeys(group)
    requires forall k :: k in group[1..] <==> k in keys && k.name == n && !Best(keys, k, audited)
    requires DistinctKeys(keys)
    ensures DecidedFor(keys, audited, done + {n}, kept + [group[0]], revoked + group[1..])
  {
    assert forall k :: k in group <==> k == group[0] || k in group[1..];
    assert group[0] in group;
    DistinctAppend(kept, [group[0]]);
    DistinctAppend(revoked, group[1..]);
  }

  lemma DistinctAppend(a: seq<ApiKey>, b: seq<ApiKey>)
    requires DistinctKeys(a) && DistinctKeys(b) && forall x, y :: x in a && y in b ==> x.id != y.id
    ensures DistinctKeys(a + b)
  {
    var c := a + b;
    forall i, j | 0 <= i < j < |c| ensures c[i].id != c[j].id {
      assert i < |a| ==> c[i] == a[i] && a[i] in a;
      assert j >= |a| ==> c[j] == b[j - |a|] && b[j - |a|] in b;
      assert i >= |a| ==> c[i] == b[i - |a|];
    }
  }

  // ---------------------------------------------------------------------------
  // What pruning leaves
  // ---------------------------------------------------------------------------

  function Ids(keys: seq<ApiKey>): set<string> {
    set k | k in keys :: k.id
  }

  function GatewayWithout(g: GatewayKeys, ids: set<string>): GatewayKeys {
    map t | t in g && g[t].id !in ids :: g[t]
  }

  function Pruned(w: World, ids: set<string>): World {
    World(w.admin - ids, w.pg - ids, GatewayWithout(w.gw, ids), w.pgFaults)
  }

  /** A token Admin holds and the Gateway knows is filed under the Gateway's id. */
  ghost predicate SingleHome(w: World) {
    forall i :: i in w.admin && w.admin[i].token != "" && w.admin[i].token in w.gw ==> w.gw[w.admin[i].token].id == i
  }

  lemma AgreementIsSingleHome(w: World)
    requires InAgreement(w.admin, w.gw)
    ensures SingleHome(w)
  {
  }

  /** Pruning brings no key to light: what is listed afterwards was listed before, unrevoked. */
  lemma ListedAfterPrune(w: World, ids: set<string>, k: ApiKey)
    requires WellKeyed(w.admin) && SingleHome(w) && Listed(Pruned(w, ids), k)
    ensures Listed(w, k) && k.id !in ids
  {
    var w' := Pruned(w, ids);
    if t :| t in w'.gw && k == FromSpec(w'.admin, SpecOf(w'.gw, t)) {
      assert k == FromSpec(w.admin, SpecOf(w.gw, t));
    } else {
      var i :| Pending(w', i) && k == FromMeta(w'.admin[i]);
      PendingBefore(w, ids, i);
    }
  }

  lemma PendingBefore(w: World, ids: set<string>, i: string)
    requires WellKeyed(w.admin) && SingleHome(w) && Pending(Pruned(w, ids), i)
    ensures Pending(w, i) && w.admin[i] == Pruned(w, ids).admin[i] && i !in ids
  {
    var w' := Pruned(w, ids);
    forall t | t in w.gw && w.gw[t].id == i ensures t in w'.gw {
    }
    assert i in GatewayIds(w.gw) ==> i in GatewayIds(w'.gw);
  }

  ghost predicate NoNameRepeats(keys: seq<ApiKey>) {
    forall k :: k in keys ==> !Repeated(keys, k)
  }

  /** After the revocations no name is listed twice. */
  lemma PruneEndsRepeats(w: World, keys: seq<ApiKey>, audited: set<string>, kept: seq<ApiKey>, revoked: seq<ApiKey>,
                         keys': seq<ApiKey>)
    requires WellKeyed(w.admin) && SingleHome(w)
    requires KeyList(w, keys) && Decided(keys, audited, kept, revoked)
    requires KeyList(Pruned(w, Ids(revoked)), keys')
    ensures NoNameRepeats(keys')
    ensures forall k :: k in keys' ==> k in keys && k !in revoked
  {
    forall k | k in keys' ensures k in keys && k !in revoked && Best(keys, k, audited) {
      ListedAfterPrune(w, Ids(revoked), k);
    }
    forall a, b | a in keys' && b in keys' && a.name == b.name ensures a.id == b.id {
      if a.id != b.id { BeforeTotal(a, b, audited); }
    }
  }

  /** Where no name repeats there is nothing to decide, whatever the audit log says by then. */
  lemma NothingLeftToPrune(keys: seq<ApiKey>, audited: set<string>, kept: seq<ApiKey>, revoked: seq<ApiKey>)
    requires DistinctKeys(keys) && NoNameRepeats(keys) && Decided(keys, audited, kept, revoked)
    ensures kept == [] && revoked == []
  {
    forall k | k in keys ensures k !in kept && k !in revoked {
      forall o | o in keys && o.name == k.name ensures o == k {
        assert o.id != k.id ==> Repeated(keys, k);
      }
      BeforeIrreflexive(k, audited);
    }
    assert forall k :: k !in kept && k !in revoked;
    EmptyIfNone(kept);
    EmptyIfNone(revoked);
  }

  lemma EmptyIfNone(keys: seq<ApiKey>)
    ensures (forall k :: k !in keys) ==> keys == []
  {
    if keys != [] { assert keys[0] in keys; }
  }

  /** Pruning right after pruning revokes nothing. */
  lemma SecondPruneIsIdle(w: World, keys: seq<ApiKey>, audited: set<string>, kept: seq<ApiKey>, revoked: seq<ApiKey>,
                          keys': seq<ApiKey>, audited': set<string>, kept': seq<ApiKey>, revoked': seq<ApiKey>)
    requires WellKeyed(w.admin) && SingleHome(w)
    requires KeyList(w, keys) && Decided(keys, audited, kept, revoked)
    requires KeyList(Pruned(w, Ids(revoked)), keys') && Decided(keys', audited', kept', revoked')
    ensures kept' == [] && revoked' == []
  {
    PruneEndsRepeats(w, keys, audited, kept, revoked, keys');
    NothingLeftToPrune(keys', audited', kept', revoked');
  }

  /** Every key of a repeated name is either kept or revoked, and exactly one of the name is kept. */
  lemma KeptAndRevokedPartition(keys: seq<ApiKey>, audited: set<string>, kept: seq<ApiKey>, revoked: seq<ApiKey>)
    requires DistinctKeys(keys) && Decided(keys, audited, kept, revoked)
    ensures forall k :: k in keys && Repeated(keys, k) ==> (k in kept <==> k !in revoked) && KeptOf(kept, k.name)
    ensures forall a, b :: a in kept && b in kept && a.name == b.name ==> a == b
  {
    forall k | k in keys && Repeated(keys, k) ensures KeptOf(kept, k.name) {
      BestExists(keys, k, audited);
      var b :| b in keys && b.name == k.name && Best(keys, b, audited);
    }
    forall a, b | a in kept && b in kept && a.name == b.name ensures a == b {
      if a.id != b.id { BeforeTotal(a, b, audited); }
    }
  }

  ghost predicate KeptOf(kept: seq<ApiKey>, name: string) {
    exists b :: b in kept && b.name == name
  }

  lemma {:induction false} BestExists(keys: seq<ApiKey>, k: ApiKey, audited: set<string>)
    requires k in keys
    ensures exists b :: b in keys && b.name == k.name && Best(keys, b, audited)
  {
    var n := |keys| - 1;
    var front, last := keys[..n], keys[n];
    assert keys == front + [last];
    if last.name != k.name {
      assert k in front;
      BestExists(front, k, audited);
      var b :| b in front && b.name == k.name && Best(front, b, audited);
      assert Best(keys, b, audited);
    } else if exists o :: o in front && o.name == k.name {
      var o :| o in front && o.name == k.name;
      BestExists(front, o, audited);
      var b :| b in front && b.name == k.name && Best(front, b, audited);
      BetterOfTwo(front, b, last, audited);
    } else {
      BeforeIrreflexive(last, audited);
      assert Best(keys, last, audited);
    }
  }

  lemma BetterOfTwo(front: seq<ApiKey>, b: ApiKey, last: ApiKey, audited: set<string>)
    requires b in front && b.name == last.name && Best(front, b, audited)
    ensures var r := if Before(last, b, audited) then last else b;
            r in front + [last] && r.name == last.name && Best(front + [last], r, audited)
  {
    BeforeIrreflexive(last, audited);
    if Before(last, b, audited) {
      forall o | o in front && o.name == last.name ensures !Before(o, last, audited) {
        if Before(o, last, audited) { BeforeTransitive(o, last, b, audited); }
      }
    }
  }

  // ---------------------------------------------------------------------------
  // Dashboard-created keys
  // ---------------------------------------------------------------------------

  /** Every listed key carries its token. */
  lemma ListedHasToken(w: World, k: ApiKey)
    requires Listed(w, k)
    ensures k.keyFull.Some?
  {
  }

  /** What audit and budget add to a key's score. */
  function Bid(k: ApiKey, audited: set<string>): int {
    (if k.id in audited then 500_000 else 0) + AsI64(k.budget)
  }

  /** `o` outbids dashboard-created `k` by more than the 1,000,000 the flag is worth, or ties with the smaller id. */
  predicate Outbids(o: ApiKey, k: ApiKey, audited: set<string>) {
    || Bid(o, audited) > Bid(k, audited) + 1_000_000
    || (Bid(o, audited) == Bid(k, audited) + 1_000_000 && StringOrder.Less(o.id, k.id))
  }

  lemma OutbidsExactly(o: ApiKey, k: ApiKey, audited: set<string>)
    requires k.manuallyCreated && !o.manuallyCreated && k.keyFull.Some? && o.keyFull.Some?
    ensures Before(o, k, audited) <==> Outbids(o, k, audited)
  {
    assert AsI64(0) == 0;
  }

  ghost predicate Rival(keys: seq<ApiKey>, k: ApiKey, o: ApiKey) {
    o in keys && o.name == k.name && o.id != k.id
  }

  /** A dashboard-created key is revoked exactly when a rival without the flag outbids it. */
  lemma DashboardKeyRevokedExactly(w: World, keys: seq<ApiKey>, audited: set<string>,
                                   kept: seq<ApiKey>, revoked: seq<ApiKey>, k: ApiKey)
    requires KeyList(w, keys) && Decided(keys, audited, kept, revoked)
    requires k in keys && k.manuallyCreated
    requires forall o :: Rival(keys, k, o) ==> !o.manuallyCreated
    ensures k in revoked <==> exists o :: Rival(keys, k, o) && Outbids(o, k, audited)
    ensures k !in revoked && Repeated(keys, k) ==> k in kept
  {
    BeforeIrreflexive(k, audited);
    ListedHasToken(w, k);
    forall o | Rival(keys, k, o) ensures Before(o, k, audited) <==> Outbids(o, k, audited) {
      ListedHasToken(w, o);
      OutbidsExactly(o, k, audited);
    }
    forall o | o in keys && o.name == k.name && Before(o, k, audited) ensures Rival(keys, k, o) {
    }
  }

  /**
   So budgets below 500,000 never cost a dashboard-created key its place, nor does 500,000 itself
   unless the rival is audited, the key is not and has no budget, and the rival's id is smaller.
   */
  lemma DashboardKeyKept(w: World, keys: seq<ApiKey>, audited: set<string>,
                         kept: seq<ApiKey>, revoked: seq<ApiKey>, k: ApiKey)
    requires KeyList(w, keys) && Decided(keys, audited, kept, revoked)
    requires k in keys && k.manuallyCreated && k.budget < 0x8000_0000_0000_0000
    requires forall o :: Rival(keys, k, o) ==> !o.manuallyCreated && o.budget <= 500_000
    requires forall o :: Rival(keys, k, o) && o.budget == 500_000 ==>
               o.id !in audited || k.id in audited || k.budget > 0 || StringOrder.Less(k.id, o.id)
    ensures k !in revoked && (Repeated(keys, k) ==> k in kept)
  {
    DashboardKeyRevokedExactly(w, keys, audited, kept, revoked, k);
    forall o | Rival(keys, k, o) ensures !Outbids(o, k, audited) {
      BelowTheFlag(o, k, audited);
    }
  }

  lemma BelowTheFlag(o: ApiKey, k: ApiKey, audited: set<string>)
    requires k.budget < 0x8000_0000_0000_0000 && o.budget <= 500_000
    requires o.budget == 500_000 ==>
               o.id !in audited || k.id in audited || k.budget > 0 || StringOrder.Less(k.id, o.id)
    ensures !Outbids(o, k, audited)
  {
    assert AsI64(k.budget) == k.budget && AsI64(o.budget) == o.budget;
    if StringOrder.Less(k.id, o.id) && StringOrder.Less(o.id, k.id) {
      StringOrder.Transitive(k.id, o.id, k.id);
      StringOrder.Irreflexive(k.id);
    }
  }

  /** A dashboard-created key `b` and an audited rival `a` of the same name, in agreement on both sides. */
  function TwoOfAName(a: string, b: string, budget: nat): World {
    var plain := KeyMetadata("", "n", "", 0, 0, 0, 0, 0, 0, None, [], -1, true, 0, "", false);
    var k := plain.(id := b, token := "k", dashboardCreated := true);
    var o := plain.(id := a, token := "o", monthlyTokenLimit := budget);
    World(map[a := o, b := k], map[], map["o" := StoredKey(a, "n", 0, 0), "k" := StoredKey(b, "n", 0, 0)], 0)
  }

  function Rivals(a: string, b: string, budget: nat): seq<ApiKey> {
    [ApiKey(a, "n", Some("o"), budget, false, false), ApiKey(b, "n", Some("k"), 0, true, false)]
  }

  lemma TwoListed(a: string, b: string, budget: nat)
    requires a != b
    ensures KeyList(TwoOfAName(a, b, budget), Rivals(a, b, budget))
  {
    var w, keys := TwoOfAName(a, b, budget), Rivals(a, b, budget);
    assert keys[0] == FromSpec(w.admin, SpecOf(w.gw, "o"));
    assert keys[1] == FromSpec(w.admin, SpecOf(w.gw, "k"));
    forall i ensures !Pending(w, i) {
      assert "o" in w.gw && "k" in w.gw;
    }
    forall k ensures k in keys <==> Listed(w, k) {
      assert k in keys <==> k == keys[0] || k == keys[1];
    }
  }

  lemma FirstWins(o: ApiKey, k: ApiKey, audited: set<string>)
    requires Before(o, k, audited) && o.name == k.name && o.id != k.id
    ensures Decided([o, k], audited, [o], [k])
  {
    var keys := [o, k];
    assert keys[0] == o && keys[1] == k;
    BeforeIrreflexive(o, audited);
    if Before(k, o, audited) { BeforeTransitive(o, k, o, audited); }
    assert Best(keys, o, audited) && !Best(keys, k, audited);
    assert Repeated(keys, o);
  }

  /** From 500,000 on every budget does outrank some dashboard-created key the code really lists. */
  lemma LargerBudgetOutranks(a: string, b: string, budget: nat)
    requires 500_000 <= budget < 0x8000_0000_0000_0000 && StringOrder.Less(a, b)
    ensures var w, keys := TwoOfAName(a, b, budget), Rivals(a, b, budget);
            && GatewayWellFormed(w.gw) && WellKeyed(w.admin) && InAgreement(w.admin, w.gw)
            && KeyList(w, keys) && keys[1].manuallyCreated
            && Decided(keys, {a}, keys[..1], keys[1..])
  {
    StringOrder.Irreflexive(a);
    var keys := Rivals(a, b, budget);
    TwoListed(a, b, budget);
    assert AsI64(budget) == budget && AsI64(0) == 0;
    FirstWins(keys[0], keys[1], {a});
    assert keys[..1] == [keys[0]] && keys[1..] == [keys[1]] && keys == [keys[0], keys[1]];
  }

  // ---------------------------------------------------------------------------
  // The operation
  // ---------------------------------------------------------------------------

  /** The keys whose call is not answered. */
  function Unanswered(ids: set<string>, up: string -> bool): set<string> {
    set i | i in ids && !up(i)
  }

  /** Revoke on the Gateway, then drop from memory and PostgreSQL; the calls for some keys may fail. */
  method RevokeAll(s: AppState, revoked: seq<ApiKey>, gatewayUp: string -> bool, pgUp: string -> bool)
    requires DistinctKeys(revoked)
    modifies s
    ensures s.keysMeta == old(s.keysMeta) - Ids(revoked)
    ensures s.gatewayKeys == GatewayWithout(old(s.gatewayKeys), Ids(revoked) - Unanswered(Ids(revoked), gatewayUp))
    ensures s.pgKeys == old(s.pgKeys) - (Ids(revoked) - Unanswered(Ids(revoked), pgUp))
    ensures s.pgFaults >= old(s.pgFaults)
    ensures s.pgFaults == old(s.pgFaults) <==> Unanswered(Ids(revoked), pgUp) == {}
  {
    RevokeOnGateway(s, revoked, gatewayUp);
    for n := 0 to |revoked|
      invariant s.gatewayKeys == GatewayWithout(old(s.gatewayKeys), Ids(revoked) - Unanswered(Ids(revoked), gatewayUp))
      invariant s.keysMeta == old(s.keysMeta) - Ids(revoked[..n])
      invariant s.pgKeys == old(s.pgKeys) - (Ids(revoked[..n]) - Unanswered(Ids(revoked[..n]), pgUp))
      invariant s.pgFaults >= old(s.pgFaults)
      invariant s.pgFaults == old(s.pgFaults) <==> Unanswered(Ids(revoked[..n]), pgUp) == {}
    {
      var id := revoked[n].id;
      OneMoreId(revoked, n, pgUp);
      s.keysMeta := s.keysMeta - {id};
      if pgUp(id) {
        s.pgKeys := s.pgKeys - {id};
      } else {
        s.pgFaults := s.pgFaults + 1;
      }
    }
    assert revoked[..|revoked|] == revoked;
  }

  method RevokeOnGateway(s: AppState, revoked: seq<ApiKey>, up: string -> bool)
    requires DistinctKeys(revoked)
    modifies s`gatewayKeys
    ensures s.gatewayKeys == GatewayWithout(old(s.gatewayKeys), Ids(revoked) - Unanswered(Ids(revoked), up))
  {
    for n := 0 to |revoked|
      invariant s.gatewayKeys == GatewayWithout(old(s.gatewayKeys), Ids(revoked[..n]) - Unanswered(Ids(revoked[..n]), up))
    {
      OneMoreId(revoked, n, up);
      if up(revoked[n].id) {
        s.gatewayKeys := GatewayWithout(s.gatewayKeys, {revoked[n].id});
      }
    }
    assert revoked[..|revoked|] == revoked;
  }

  lemma OneMoreId(revoked: seq<ApiKey>, n: nat, up: string -> bool)
    requires DistinctKeys(revoked) && n < |revoked|
    ensures var id, ids := revoked[n].id, Ids(revoked[..n]);
            && id !in ids && Ids(revoked[..n + 1]) == ids + {id}
            && Unanswered(ids + {id}, up) == Unanswered(ids, up) + (if up(id) then {} else {id})
            && ids + {id} - Unanswered(ids + {id}, up) == ids - Unanswered(ids, up) + (if up(id) then {id} else {})
  {
    assert revoked[..n + 1] == revoked[..n] + [revoked[n]];
  }

  /** Refusing ids the Gateway does not hold makes no difference to it. */
  lemma RefusedUnknown(g: GatewayKeys, ids: set<string>, refused: set<string>)
    requires refused !! GatewayIds(g)
    ensures GatewayWithout(g, ids - refused) == GatewayWithout(g, ids)
  {
    forall t | t in g ensures g[t].id in GatewayIds(g) {
    }
  }

  method PruneDuplicateKeys(s: AppState, dryRun: bool, audited: set<string>, gatewayUp: string -> bool, pgUp: string -> bool)
    returns (kept: seq<ApiKey>, revoked: seq<ApiKey>, ghost keys: seq<ApiKey>)
    requires GatewayWellFormed(s.gatewayKeys) && WellKeyed(s.keysMeta)
    modifies s
    ensures KeyList(old(s.Replicas()), keys) && Decided(keys, audited, kept, revoked)
    ensures dryRun ==> s.Replicas() == old(s.Replicas())
    ensures !dryRun ==> s.keysMeta == old(s.keysMeta) - Ids(revoked)
    ensures !dryRun && (forall i :: i in Ids(revoked) && i in GatewayIds(old(s.gatewayKeys)) ==> gatewayUp(i))
            && (forall i :: i in Ids(revoked) ==> pgUp(i)) ==>
              s.Replicas() == Pruned(old(s.Replicas()), Ids(revoked))
  {
    var listed := BuildApiKeys(s);
    keys := listed;
    kept, revoked := Decide(listed, audited);
    if !dryRun {
      RevokeAll(s, revoked, gatewayUp, pgUp);
      ghost var refused := Unanswered(Ids(revoked), gatewayUp);
      if refused !! GatewayIds(old(s.gatewayKeys)) {
        RefusedUnknown(old(s.gatewayKeys), Ids(revoked), refused);
      }
    }
  }
}
