/** Client-key metadata: merging the records of a token, rebuilding the map from rows. */
module ClientKeys {
  import opened Common

  datatype KeyMetadata = KeyMetadata(
    id: string,
    name: string,
    token: string,
    rpmLimit: nat,
    monthlyTokenLimit: nat,
    currentRpm: nat,
    tokensThisMonth: nat,
    inputTokens: nat,
    outputTokens: nat,
    expiredAt: Option<nat>,
    modelLimits: seq<string>,
    remainQuota: int,
    unlimitedQuota: bool,
    maxConcurrent: nat,
    usageMonth: string,
    dashboardCreated: bool)

  type Keys = map<string, KeyMetadata>

  /** Every entry is filed under its own id. */
  ghost predicate WellKeyed(m: Keys) {
    forall i :: i in m ==> m[i].id == i
  }

  /** No two entries hold the same non-empty token. */
  ghost predicate UniqueTokens(m: Keys) {
    forall i, j :: i in m && j in m && m[i].token != "" && m[i].token == m[j].token ==> i == j
  }

  ghost predicate DistinctIds(rows: seq<KeyMetadata>) {
    forall i, j :: 0 <= i < j < |rows| ==> rows[i].id != rows[j].id
  }

  // ---------------------------------------------------------------------------
  // Merging
  // ---------------------------------------------------------------------------

  function Merge(existing: KeyMetadata, incoming: KeyMetadata): KeyMetadata {
    KeyMetadata(
      incoming.id,
      if incoming.name == "" then existing.name else incoming.name,
      if incoming.token == "" then existing.token else incoming.token,
      if incoming.rpmLimit == 0 then existing.rpmLimit else incoming.rpmLimit,
      Max(incoming.monthlyTokenLimit, existing.monthlyTokenLimit),
      Max(existing.currentRpm, incoming.currentRpm),
      Max(existing.tokensThisMonth, incoming.tokensThisMonth),
      Max(existing.inputTokens, incoming.inputTokens),
      Max(existing.outputTokens, incoming.outputTokens),
      if incoming.expiredAt.Some? then incoming.expiredAt else existing.expiredAt,
      if incoming.modelLimits == [] then existing.modelLimits else incoming.modelLimits,
      if existing.remainQuota >= 0 then existing.remainQuota else incoming.remainQuota,
      existing.unlimitedQuota || incoming.unlimitedQuota,
      if incoming.maxConcurrent == 0 then existing.maxConcurrent else incoming.maxConcurrent,
      if incoming.usageMonth == "" then existing.usageMonth else incoming.usageMonth,
      existing.dashboardCreated || incoming.dashboardCreated)
  }

  lemma MergeAssociative(a: KeyMetadata, b: KeyMetadata, c: KeyMetadata)
    ensures Merge(Merge(a, b), c) == Merge(a, Merge(b, c))
  {
  }

  lemma MergeIdempotent(a: KeyMetadata)
    ensures Merge(a, a) == a
  {
  }

  /** The rows of one token merged oldest-id first. */
  function MergeAll(rows: seq<KeyMetadata>): KeyMetadata
    requires rows != []
  {
    if |rows| == 1 then rows[0]
    else Merge(MergeAll(rows[..|rows| - 1]), rows[|rows| - 1])
  }

  /** A group may be cut anywhere and its halves merged separately. */
  lemma {:induction false} MergeAllSplits(g: seq<KeyMetadata>, h: seq<KeyMetadata>)
    requires g != [] && h != []
    ensures MergeAll(g + h) == Merge(MergeAll(g), MergeAll(h))
    decreases |h|
  {
    assert (g + h)[..|g + h| - 1] == g + h[..|h| - 1];
    if |h| == 1 {
      assert g + h[..|h| - 1] == g;
    } else {
      MergeAllSplits(g, h[..|h| - 1]);
      MergeAssociative(MergeAll(g), MergeAll(h[..|h| - 1]), h[|h| - 1]);
    }
  }

  /** `v` is the largest value of `f` over `rows`. */
  ghost predicate IsMaxOver(v: nat, rows: seq<KeyMetadata>, f: KeyMetadata -> nat) {
    && (forall k :: 0 <= k < |rows| ==> f(rows[k]) <= v)
    && (exists k :: 0 <= k < |rows| && f(rows[k]) == v)
  }

  /** `v` is the last value of `f` over `rows` that is not `unset`. */
  ghost predicate IsLastSet<T>(v: T, rows: seq<KeyMetadata>, f: KeyMetadata -> T, unset: T) {
    v == LastSet(seq(|rows|, k requires 0 <= k < |rows| => f(rows[k])), unset)
  }

  /** The first non-negative quota of the group; the last quota when all are negative. */
  function FirstQuota(rows: seq<KeyMetadata>): int
    requires rows != []
  {
    if |rows| == 1 || rows[0].remainQuota >= 0 then rows[0].remainQuota
    else FirstQuota(rows[1..])
  }

  lemma {:induction false} MaxStep(rows: seq<KeyMetadata>, v: nat, f: KeyMetadata -> nat)
    requires |rows| > 1
    requires IsMaxOver(v, rows[..|rows| - 1], f)
    ensures IsMaxOver(Max(v, f(rows[|rows| - 1])), rows, f)
  {
    var front := rows[..|rows| - 1];
    var k :| 0 <= k < |front| && f(front[k]) == v;
    assert f(rows[k]) == v;
    assert forall j :: 0 <= j < |front| ==> f(front[j]) == f(rows[j]);
  }

  lemma {:induction false} LastSetStep<T>(rows: seq<KeyMetadata>, v: T, f: KeyMetadata -> T, unset: T)
    requires |rows| > 0
    requires IsLastSet(v, rows[..|rows| - 1], f, unset)
    ensures IsLastSet(if f(rows[|rows| - 1]) == unset then v else f(rows[|rows| - 1]), rows, f, unset)
  {
    var front := rows[..|rows| - 1];
    var all := seq(|rows|, k requires 0 <= k < |rows| => f(rows[k]));
    assert all[..|all| - 1] == seq(|front|, k requires 0 <= k < |front| => f(front[k]));
  }

  lemma {:induction false} FirstQuotaStep(rows: seq<KeyMetadata>)
    requires |rows| > 1
    ensures FirstQuota(rows) ==
            var q := FirstQuota(rows[..|rows| - 1]);
            if q >= 0 then q else rows[|rows| - 1].remainQuota
  {
    if |rows| > 2 && rows[0].remainQuota < 0 {
      FirstQuotaStep(rows[1..]);
      assert rows[1..][..|rows| - 2] == rows[..|rows| - 1][1..];
    }
  }

  /** Counters of a merged group: the largest of each over the group. */
  ghost predicate MergedCounters(rows: seq<KeyMetadata>, r: KeyMetadata) {
    && IsMaxOver(r.monthlyTokenLimit, rows, (k: KeyMetadata) => k.monthlyTokenLimit)
    && IsMaxOver(r.tokensThisMonth, rows, (k: KeyMetadata) => k.tokensThisMonth)
    && IsMaxOver(r.inputTokens, rows, (k: KeyMetadata) => k.inputTokens)
    && IsMaxOver(r.outputTokens, rows, (k: KeyMetadata) => k.outputTokens)
    && IsMaxOver(r.currentRpm, rows, (k: KeyMetadata) => k.currentRpm)
  }

  /** Settings of a merged group: the last row that sets one decides it. */
  ghost predicate MergedSettings(rows: seq<KeyMetadata>, r: KeyMetadata) {
    && IsLastSet(r.name, rows, (k: KeyMetadata) => k.name, "")
    && IsLastSet(r.token, rows, (k: KeyMetadata) => k.token, "")
    && IsLastSet(r.rpmLimit, rows, (k: KeyMetadata) => k.rpmLimit, 0)
    && IsLastSet(r.expiredAt, rows, (k: KeyMetadata) => k.expiredAt, None)
    && IsLastSet(r.modelLimits, rows, (k: KeyMetadata) => k.modelLimits, [])
    && IsLastSet(r.maxConcurrent, rows, (k: KeyMetadata) => k.maxConcurrent, 0)
    && IsLastSet(r.usageMonth, rows, (k: KeyMetadata) => k.usageMonth, "")
  }

  /** The rest of a merged group: last id, first non-negative quota, flags set by any row. */
  ghost predicate MergedRest(rows: seq<KeyMetadata>, r: KeyMetadata)
    requires rows != []
  {
    && r.id == rows[|rows| - 1].id
    && r.remainQuota == FirstQuota(rows)
    && (r.unlimitedQuota <==> exists k :: 0 <= k < |rows| && rows[k].unlimitedQuota)
    && (r.dashboardCreated <==> exists k :: 0 <= k < |rows| && rows[k].dashboardCreated)
  }

  lemma {:induction false} MergeAllCounters(rows: seq<KeyMetadata>)
    requires rows != []
    ensures MergedCounters(rows, MergeAll(rows))
  {
    if |rows| > 1 {
      MergeAllCounters(rows[..|rows| - 1]);
      var m := MergeAll(rows[..|rows| - 1]);
      MaxStep(rows, m.monthlyTokenLimit, (k: KeyMetadata) => k.monthlyTokenLimit);
      MaxStep(rows, m.tokensThisMonth, (k: KeyMetadata) => k.tokensThisMonth);
      MaxStep(rows, m.inputTokens, (k: KeyMetadata) => k.inputTokens);
      MaxStep(rows, m.outputTokens, (k: KeyMetadata) => k.outputTokens);
      MaxStep(rows, m.currentRpm, (k: KeyMetadata) => k.currentRpm);
    }
  }

  lemma {:induction false} MergeAllSettings(rows: seq<KeyMetadata>)
    requires rows != []
    ensures MergedSettings(rows, MergeAll(rows))
  {
    if |rows| == 1 {
      SettingsStep(rows, rows[0].(name := "", token := "", rpmLimit := 0, expiredAt := None,
                                  modelLimits := [], maxConcurrent := 0, usageMonth := ""));
    } else {
      MergeAllSettings(rows[..|rows| - 1]);
      SettingsStep(rows, MergeAll(rows[..|rows| - 1]));
    }
  }

  lemma {:induction false} SettingsStep(rows: seq<KeyMetadata>, m: KeyMetadata)
    requires rows != [] && MergedSettings(rows[..|rows| - 1], m)
    ensures MergedSettings(rows, Merge(m, rows[|rows| - 1]))
  {
    LastSetStep(rows, m.name, (k: KeyMetadata) => k.name, "");
    LastSetStep(rows, m.token, (k: KeyMetadata) => k.token, "");
    LastSetStep(rows, m.rpmLimit, (k: KeyMetadata) => k.rpmLimit, 0);
    LastSetStep(rows, m.expiredAt, (k: KeyMetadata) => k.expiredAt, None);
    LastSetStep(rows, m.modelLimits, (k: KeyMetadata) => k.modelLimits, []);
    LastSetStep(rows, m.maxConcurrent, (k: KeyMetadata) => k.maxConcurrent, 0);
    LastSetStep(rows, m.usageMonth, (k: KeyMetadata) => k.usageMonth, "");
  }

  lemma {:induction false} MergeAllRest(rows: seq<KeyMetadata>)
    requires rows != []
    ensures MergedRest(rows, MergeAll(rows))
  {
    if |rows| > 1 {
      var front := rows[..|rows| - 1];
      MergeAllRest(front);
      FirstQuotaStep(rows);
      assert forall k :: 0 <= k < |front| ==> rows[k] == front[k];
    }
  }

  // ---------------------------------------------------------------------------
  // Hydration: rebuilding the map from rows in id order
  // ---------------------------------------------------------------------------

  /** Entry `i` holds `token` under an id other than `exceptId`. */
  ghost predicate HoldsToken(m: Keys, i: string, token: string, exceptId: string) {
    i in m && i != exceptId && m[i].token == token
  }

  /** Insert one row; an entry that already holds its token is taken out and merged. */
  ghost function InsertDeduped(m: Keys, meta: KeyMetadata): Keys {
    if meta.token != "" && exists i :: HoldsToken(m, i, meta.token, meta.id) then
      var i :| HoldsToken(m, i, meta.token, meta.id);
      (m - {i})[meta.id := Merge(m[i], meta)]
    else
      m[meta.id := meta]
  }

  ghost function Hydrated(rows: seq<KeyMetadata>): Keys {
    if rows == [] then map[]
    else InsertDeduped(Hydrated(rows[..|rows| - 1]), rows[|rows| - 1])
  }

  /** The rows that hold token `t`, in order. */
  function Group(rows: seq<KeyMetadata>, t: string): seq<KeyMetadata> {
    if rows == [] then []
    else
      var front := Group(rows[..|rows| - 1], t);
      if rows[|rows| - 1].token == t then front + [rows[|rows| - 1]] else front
  }

  /** Row `r` is accounted for in `m`: as itself, or inside the merge of its token's group. */
  ghost predicate RowPlaced(rows: seq<KeyMetadata>, m: Keys, r: KeyMetadata) {
    if r.token == "" then r.id in m && m[r.id] == r
    else
      var g := Group(rows, r.token);
      g != [] && MergeAll(g).id in m && m[MergeAll(g).id] == MergeAll(g)
  }

  /** Entry `i` of `m` comes from the rows, and is filed where it belongs. */
  ghost predicate EntryExplained(rows: seq<KeyMetadata>, m: Keys, i: string)
    requires i in m
  {
    if m[i].token == "" then m[i] in rows && m[i].id == i
    else
      var g := Group(rows, m[i].token);
      g != [] && i == MergeAll(g).id
  }

  /** What hydration means: one entry per non-empty token, filed under the group's last id
      and holding the merge of the group; rows without a token stand for themselves. */
  ghost predicate IsHydration(rows: seq<KeyMetadata>, m: Keys) {
    && (forall r :: r in rows ==> RowPlaced(rows, m, r))
    && (forall i :: i in m ==> EntryExplained(rows, m, i))
  }

  lemma {:induction false} GroupMembers(rows: seq<KeyMetadata>, t: string)
    ensures forall r :: r in Group(rows, t) <==> r in rows && r.token == t
  {
    if rows != [] {
      GroupMembers(rows[..|rows| - 1], t);
      assert rows == rows[..|rows| - 1] + [rows[|rows| - 1]];
    }
  }

  lemma {:induction false} GroupMerged(rows: seq<KeyMetadata>, t: string)
    requires Group(rows, t) != []
    ensures var r := MergeAll(Group(rows, t));
            r.token == t && exists k :: 0 <= k < |rows| && rows[k].id == r.id && rows[k].token == t
  {
    var g := Group(rows, t);
    GroupMembers(rows, t);
    MergeAllRest(g);
    assert g[|g| - 1] in rows;
    MergedToken(g, t);
  }

  lemma {:induction false} MergedToken(g: seq<KeyMetadata>, t: string)
    requires g != [] && forall r :: r in g ==> r.token == t
    ensures MergeAll(g).token == t
  {
    assert g[|g| - 1] in g;
    if |g| > 1 {
      assert forall r :: r in g[..|g| - 1] ==> r in g;
      MergedToken(g[..|g| - 1], t);
    }
  }

  /** Every entry has a row with its id and its token, and is what the rows say it is. */
  lemma HydrationEntry(rows: seq<KeyMetadata>, m: Keys, i: string)
    requires IsHydration(rows, m) && i in m
    ensures m[i].id == i
    ensures exists r :: r in rows && r.id == i && r.token == m[i].token
    ensures m[i].token != "" ==> Group(rows, m[i].token) != [] && m[i] == MergeAll(Group(rows, m[i].token))
  {
    assert EntryExplained(rows, m, i);
    var t := m[i].token;
    if t != "" {
      GroupMerged(rows, t);
      var k :| 0 <= k < |rows| && rows[k].id == i && rows[k].token == t;
      assert rows[k] in rows;
      assert RowPlaced(rows, m, rows[k]);
    }
  }

  /** The specification leaves no freedom: it fixes the whole map. */
  lemma HydrationDetermined(rows: seq<KeyMetadata>, m1: Keys, m2: Keys)
    requires IsHydration(rows, m1) && IsHydration(rows, m2)
    ensures m1 == m2
  {
    forall i | i in m1 ensures i in m2 && m2[i] == m1[i] {
      HydrationAgrees(rows, m1, m2, i);
    }
    forall i | i in m2 ensures i in m1 {
      HydrationAgrees(rows, m2, m1, i);
    }
  }

  lemma HydrationAgrees(rows: seq<KeyMetadata>, m1: Keys, m2: Keys, i: string)
    requires IsHydration(rows, m1) && IsHydration(rows, m2) && i in m1
    ensures i in m2 && m2[i] == m1[i]
  {
    HydrationEntry(rows, m1, i);
    assert EntryExplained(rows, m1, i);
    var r :| r in rows && r.id == i && r.token == m1[i].token;
    assert RowPlaced(rows, m2, if r.token == "" then m1[i] else r);
  }

  lemma HydrationWellFormed(rows: seq<KeyMetadata>, m: Keys)
    requires IsHydration(rows, m)
    ensures WellKeyed(m) && UniqueTokens(m)
    ensures forall i :: i in m ==> exists r :: r in rows && r.id == i && r.token == m[i].token
    ensures forall r :: r in rows && r.token != "" ==> exists i :: i in m && m[i].token == r.token
  {
    forall i | i in m
      ensures m[i].id == i && exists r :: r in rows && r.id == i && r.token == m[i].token
    {
      HydrationEntry(rows, m, i);
    }
    forall i, j | i in m && j in m && m[i].token != "" && m[i].token == m[j].token ensures i == j {
      assert EntryExplained(rows, m, i) && EntryExplained(rows, m, j);
    }
    forall r | r in rows && r.token != "" ensures exists i :: i in m && m[i].token == r.token {
      assert RowPlaced(rows, m, r);
      GroupMerged(rows, r.token);
    }
  }

  lemma InsertFound(m: Keys, meta: KeyMetadata, i: string)
    requires UniqueTokens(m) && meta.token != "" && HoldsToken(m, i, meta.token, meta.id)
    ensures InsertDeduped(m, meta) == (m - {i})[meta.id := Merge(m[i], meta)]
  {
  }

  /** One more row, inserted into a correct map, gives the correct map for the longer list. */
  lemma HydrationStep(rows: seq<KeyMetadata>, m: Keys)
    requires rows != [] && DistinctIds(rows)
    requires IsHydration(rows[..|rows| - 1], m)
    ensures IsHydration(rows, InsertDeduped(m, rows[|rows| - 1]))
  {
    var front, last := rows[..|rows| - 1], rows[|rows| - 1];
    var g := Group(front, last.token);
    HydrationWellFormed(front, m);
    GroupMembers(front, last.token);
    if last.token == "" || g == [] {
      forall i | i in m ensures last.token == "" || m[i].token != last.token {
        var r :| r in front && r.id == i && r.token == m[i].token;
        assert r.token == last.token ==> r in g;
      }
      InsertKeeps(rows, m, InsertDeduped(m, last));
    } else {
      GroupMerged(front, last.token);
      assert g[0] in front;
      assert RowPlaced(front, m, g[0]);
      InsertFound(m, last, MergeAll(g).id);
      InsertKeeps(rows, m, InsertDeduped(m, last));
    }
  }

  /** Placing the new row and its group, and leaving every other entry alone, is enough. */
  lemma InsertKeeps(rows: seq<KeyMetadata>, m: Keys, m': Keys)
    requires rows != [] && IsHydration(rows[..|rows| - 1], m) && rows[|rows| - 1].id !in m
    requires var front, last := rows[..|rows| - 1], rows[|rows| - 1];
             var g := Group(front, last.token);
             m' == if last.token == "" || g == [] then m[last.id := last]
                   else (m - {MergeAll(g).id})[last.id := Merge(MergeAll(g), last)]
    ensures IsHydration(rows, m')
  {
    var front, last := rows[..|rows| - 1], rows[|rows| - 1];
    forall r | r in rows ensures RowPlaced(rows, m', r) {
      if r.token == "" || r.token != last.token {
        KeptRow(rows, m, m', r);
      }
    }
    forall i | i in m' ensures EntryExplained(rows, m', i) {
      if i == last.id {
        assert last in rows;
        if last.token != "" { GroupMerged(rows, last.token); }
      } else {
        assert EntryExplained(front, m, i);
      }
    }
  }

  lemma KeptRow(rows: seq<KeyMetadata>, m: Keys, m': Keys, r: KeyMetadata)
    requires rows != [] && IsHydration(rows[..|rows| - 1], m) && rows[|rows| - 1].id !in m
    requires r in rows
    requires var front, last := rows[..|rows| - 1], rows[|rows| - 1];
             var g := Group(front, last.token);
             && (r.token == "" || r.token != last.token)
             && m' == if last.token == "" || g == [] then m[last.id := last]
                      else (m - {MergeAll(g).id})[last.id := Merge(MergeAll(g), last)]
    ensures RowPlaced(rows, m', r)
  {
    var front, last := rows[..|rows| - 1], rows[|rows| - 1];
    if r != last {
      assert r in front;
      assert RowPlaced(front, m, r);
      if last.token != "" && Group(front, last.token) != [] {
        GroupMerged(front, last.token);
        GroupMembers(front, last.token);
        assert RowPlaced(front, m, Group(front, last.token)[0]);
      }
      if r.token != "" { GroupMerged(front, r.token); }
    }
  }

  lemma {:induction false} HydratedCorrect(rows: seq<KeyMetadata>)
    requires DistinctIds(rows)
    ensures IsHydration(rows, Hydrated(rows))
  {
    if rows != [] {
      HydratedCorrect(rows[..|rows| - 1]);
      HydrationStep(rows, Hydrated(rows[..|rows| - 1]));
    }
  }
}
