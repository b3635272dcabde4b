/** Budgets through whole restore passes: what PostgreSQL stores, what Admin loads back. */
module StoredBudgets {
  import opened Common
  import opened ClientKeys
  import opened KeyRestore
  import opened KeyBudgets
  import opened RestorePass
  import DriftCheck

  // ---------------------------------------------------------------------------
  // What a pass makes of a token's rows
  // ---------------------------------------------------------------------------

  lemma PushKeeps(h: World, order: seq<string>, outs: seq<Outcome>, r: World, w': World)
    requires Consistent(h) && Reconciled(h, order, outs, r) && Synced(r, w')
    ensures Kept(h, w')
  {
    ReconcileRunKeepsAll(h, order, outs, r);
    EventKeeps(r, Sync, w');
    KeptTransitive(h, r, w');
  }

  /** Admin holds token `t` with the budget of its rows, merged; audited keys are flagged. */
  ghost predicate HoldsMerged(m: Keys, rows: seq<KeyMetadata>, targets: set<string>, t: string) {
    && Group(rows, t) != []
    && var merged := MergeAll(Group(rows, t));
       exists j :: j in m && m[j].token == t && SameBudget(merged, m[j])
                   && (m[j].dashboardCreated <==> merged.dashboardCreated || merged.id in targets)
  }

  /** Whatever fails on the way, after a pass Admin holds every stored token with the merged budget of its rows. */
  lemma PassLoadsBudgets(w: World, rows: seq<KeyMetadata>, targets: set<string>, h: World,
                         order: seq<string>, outs: seq<Outcome>, w': World, t: string)
    requires GatewayWellFormed(w.gw) && Compatible(w.pg, w.gw) && Passed(w, rows, targets, h, order, outs, w')
    requires t in TokensOf(w.pg)
    ensures HoldsMerged(w'.admin, rows, targets, t)
  {
    HydrateEffect(w, rows, targets, h);
    DriftCheck.CompatibleRows(w, rows, targets, h);
    var r :| Reconciled(h, order, outs, r) && Synced(r, w');
    PushKeeps(h, order, outs, r, w');
    assert t in TokensOf(h.admin);
    var i :| i in h.admin && h.admin[i].token != "" && h.admin[i].token == t;
    HydratedEntry(w, rows, targets, h, i);
    assert HasBudget(w'.admin, t, Budget(h.admin[i]));
    var j :| j in w'.admin && w'.admin[j].token == t && Budget(w'.admin[j]) == Budget(h.admin[i]);
    BudgetIsBudget(w'.admin[j], h.admin[i]);
  }

  // ---------------------------------------------------------------------------
  // Passes without faults
  // ---------------------------------------------------------------------------

  /** Nothing failed. */
  ghost predicate CleanlyPassed(w: World, targets: set<string>, w': World) {
    exists rows, h, order, outs ::
      Passed(w, rows, targets, h, order, outs, w') && NoFailure(outs) && w'.pgFaults == w.pgFaults
  }

  /** Row `j` after is row `i` before, whatever id it has now. */
  ghost predicate Carried(pg: Keys, i: string, pg': Keys, j: string) {
    && i in pg && j in pg' && pg[i].token == pg'[j].token && SameBudget(pg[i], pg'[j])
    && (pg[i].dashboardCreated ==> pg'[j].dashboardCreated)
  }

  /** Every stored token is still stored, with the budget of one of its rows. */
  ghost predicate CarriesAll(pg: Keys, pg': Keys) {
    forall t :: t in TokensOf(pg) ==> CarriesToken(pg, pg', t)
  }

  ghost predicate CarriesToken(pg: Keys, pg': Keys, t: string) {
    exists i, j :: Carried(pg, i, pg', j) && pg[i].token == t
  }

  /** Where passes may start. */
  ghost predicate Ready(w: World) {
    WellKeyed(w.pg) && GatewayWellFormed(w.gw) && Compatible(w.pg, w.gw)
  }

  lemma HydrateCarries(w: World, rows: seq<KeyMetadata>, targets: set<string>, h: World)
    requires WellKeyed(w.pg) && HydratedFrom(w, rows, targets, h) && h.pgFaults == w.pgFaults
    ensures WellKeyed(h.pg) && Mirrored(h) && CarriesAll(w.pg, h.pg)
    ensures forall i :: i in h.pg && h.pg[i].token != "" ==>
              Carried(w.pg, i, h.pg, i) && (h.pg[i].dashboardCreated <==> w.pg[i].dashboardCreated || i in targets)
  {
    var mid, deduped, written :| Loaded(w, deduped, rows, mid) && Backfilled(mid, targets, written, h);
    assert deduped && WellKeyed(mid.pg);
    DriftCheck.HydrateOfUniqueRows(mid.pg, rows);
    DriftCheck.BackfillMirrors(mid, targets, written, h);
    BackfillCarries(mid, targets, written, h);
    forall i | i in h.pg && h.pg[i].token != ""
      ensures Carried(w.pg, i, h.pg, i) && (h.pg[i].dashboardCreated <==> w.pg[i].dashboardCreated || i in targets)
    {
      assert i in mid.pg && mid.pg[i] == w.pg[i];
    }
    forall t | t in TokensOf(w.pg) ensures CarriesToken(w.pg, h.pg, t) {
      var i :| i in w.pg && w.pg[i].token != "" && w.pg[i].token == t;
      assert HasToken(mid.pg, t);
      var j :| j in mid.pg && mid.pg[j].token == t;
      assert Carried(w.pg, j, h.pg, j) && w.pg[j].token == t;
    }
  }

  lemma BackfillCarries(w: World, targets: set<string>, written: set<string>, w': World)
    requires w.admin == w.pg && WellKeyed(w.pg) && Backfilled(w, targets, written, w') && w'.pgFaults == w.pgFaults
    ensures w'.pg.Keys == w.pg.Keys && WellKeyed(w'.pg)
    ensures forall i :: i in w'.pg ==>
              && w'.pg[i].token == w.pg[i].token && SameBudget(w.pg[i], w'.pg[i])
              && (w'.pg[i].dashboardCreated <==> w.pg[i].dashboardCreated || i in targets)
  {
  }

  lemma CarriesThenKeeps(pg: Keys, mid: Keys, pg': Keys)
    requires CarriesAll(pg, mid) && KeepsRows(mid, pg')
    ensures CarriesAll(pg, pg')
  {
    forall t | t in TokensOf(pg) && mid != pg' ensures CarriesToken(pg, pg', t) {
      assert CarriesToken(pg, mid, t);
      var i, k :| Carried(pg, i, mid, k) && pg[i].token == t;
      var s :| s in pg && pg[s].token != "" && pg[s].token == t;
      assert HasRow(pg', mid[k]);
      var j :| j in pg' && SameKey(mid[k], pg'[j]);
      assert Carried(pg, i, pg', j);
    }
  }

  /**
   A pass in which nothing fails, from rows with compatible ids: every token is stored with the budget of one of its
   rows, Admin holds just that, and the next pass may start.
   */
  lemma CleanPassStores(w: World, targets: set<string>, w': World)
    requires Ready(w) && CleanlyPassed(w, targets, w')
    ensures CarriesAll(w.pg, w'.pg) && Mirrored(w')
    ensures Ready(w') && UniqueTokens(w'.pg)
  {
    var rows, h, order, outs :|
      Passed(w, rows, targets, h, order, outs, w') && NoFailure(outs) && w'.pgFaults == w.pgFaults;
    DriftCheck.PassHolds(w, rows, targets, h, order, outs, w');
    HydrateCarries(w, rows, targets, h);
    HydrateEffect(w, rows, targets, h);
    DriftCheck.CompatibleRows(w, rows, targets, h);
    var r :| Reconciled(h, order, outs, r) && Synced(r, w');
    PushKeeps(h, order, outs, r, w');
    CarriesThenKeeps(w.pg, h.pg, w'.pg);
    PassConverges(w, rows, targets, h, order, outs, w');
    MirrorIsReady(w');
  }

  lemma MirrorIsReady(w: World)
    requires Mirrored(w) && Consistent(w) && InAgreement(w.admin, w.gw)
    ensures UniqueTokens(w.pg) && Compatible(w.pg, w.gw)
  {
    forall t | t in w.gw && w.gw[t].id in w.pg
      ensures w.pg[w.gw[t].id].token == t || (w.pg[w.gw[t].id].token == "" && forall k :: k in w.pg ==> w.pg[k].token != t)
    {
      assert Matches(w.admin, w.gw, t);
    }
  }

  // ---------------------------------------------------------------------------
  // Any number of passes
  // ---------------------------------------------------------------------------

  datatype Event = CleanPass(targets: set<string>) | GatewayLoss(lost: set<string>)

  ghost predicate Happens(w: World, e: Event, w': World) {
    match e
    case CleanPass(targets) => CleanlyPassed(w, targets, w')
    case GatewayLoss(lost) => w' == w.(gw := w.gw - lost)
  }

  ghost predicate Run(w: World, events: seq<Event>, w': World)
    decreases |events|
  {
    if events == [] then w' == w
    else
      var n := |events| - 1;
      exists mid :: Run(w, events[..n], mid) && Happens(mid, events[n], w')
  }

  lemma CarriesTransitive(pg: Keys, mid: Keys, pg': Keys)
    requires CarriesAll(pg, mid) && CarriesAll(mid, pg') && UniqueTokens(mid)
    ensures CarriesAll(pg, pg')
  {
    forall t | t in TokensOf(pg) ensures CarriesToken(pg, pg', t) {
      assert CarriesToken(pg, mid, t);
      var i, k :| Carried(pg, i, mid, k) && pg[i].token == t;
      var s :| s in pg && pg[s].token != "" && pg[s].token == t;
      assert mid[k].token in TokensOf(mid);
      assert CarriesToken(mid, pg', t);
      var k', j :| Carried(mid, k', pg', j) && mid[k'].token == t;
      assert Carried(pg, i, pg', j);
    }
  }

  lemma CarriesItself(pg: Keys)
    ensures CarriesAll(pg, pg)
  {
    forall t | t in TokensOf(pg) ensures CarriesToken(pg, pg, t) {
      var i :| i in pg && pg[i].token != "" && pg[i].token == t;
      assert Carried(pg, i, pg, i);
    }
  }

  /**
   Through any number of passes without faults, with the Gateway losing keys in between, hydrates included, no stored
   token and no stored budget is lost.
   */
  lemma {:induction false} PassesKeepBudgets(w: World, events: seq<Event>, w': World)
    requires Ready(w) && Run(w, events, w')
    ensures Ready(w') && CarriesAll(w.pg, w'.pg) && (w'.pg == w.pg || UniqueTokens(w'.pg))
    decreases |events|
  {
    if events == [] {
      CarriesItself(w.pg);
    } else {
      var n := |events| - 1;
      var mid :| Run(w, events[..n], mid) && Happens(mid, events[n], w');
      PassesKeepBudgets(w, events[..n], mid);
      if events[n].CleanPass? {
        CleanPassStores(mid, events[n].targets, w');
        if mid.pg != w.pg {
          CarriesTransitive(w.pg, mid.pg, w'.pg);
        }
      }
    }
  }

  /** For rows without repeated tokens that is each row's own budget. */
  lemma EachBudgetKept(w: World, events: seq<Event>, w': World, i: string)
    requires Ready(w) && UniqueTokens(w.pg) && Run(w, events, w') && i in w.pg && w.pg[i].token != ""
    ensures exists j :: Carried(w.pg, i, w'.pg, j)
  {
    PassesKeepBudgets(w, events, w');
    assert w.pg[i].token in TokensOf(w.pg);
    assert CarriesToken(w.pg, w'.pg, w.pg[i].token);
  }
}
