/** Id migrations as interleaved steps. */
module MigrationRuns {
  import opened Common

  // A migration moves a key in memory, deletes the stale PostgreSQL row and only then writes the
  // new one, with other migrations, dual-write flushes, Gateway losses and Admin crashes in
  // between. The new id is one Admin has heard of, in a listing or in the answer to a create call,
  // and may no longer be on the Gateway. A crashed Admin starts again from its state file. Keys are
  // reduced to ids and non-empty tokens.

  type Table = map<string, string>  // id -> token

  datatype Stage = RowStale | RowDeleted

  datatype Migration = Migration(oldId: string, newId: string, token: string, stage: Stage)

  datatype State = State(
    admin: Table,                  // Admin memory
    file: Table,                   // Admin's state file
    pg: Table,                     // PostgreSQL rows
    gw: map<string, string>,       // Gateway: token -> id
    heard: set<(string, string)>,  // ids and tokens of listings and create answers still in use
    tasks: map<nat, Migration>,    // migrations in flight
    flushes: set<(string, string)>,  // rows of dual-write snapshots not yet written
    bound: Table,                  // every id ever issued, with its token
    stored: set<string>)           // every token PostgreSQL ever held

  datatype Event =
    | CreateKey(token: string, newId: string, answered: bool)  // Gateway accepts a key under a fresh id
    | List                                         // Admin fetches the Gateway's listing
    | Forget(row: (string, string))                // the loop over a listing or answer is past this one
    | Adopt(row: (string, string))                 // sync files a listed key in memory
    | Begin(task: nat, oldId: string, newId: string)  // memory move of a migration
    | DeleteRow(task: nat, ok: bool)               // PostgreSQL delete of the old id
    | WriteRow(task: nat, ok: bool)                // PostgreSQL upsert of the new id
    | TakeSnapshot(saved: bool)                    // a flush saves memory to the file and captures it for PostgreSQL
    | FlushRow(row: (string, string))              // one captured row is written
    | DropFlush(row: (string, string))             // its write fails
    | Dedupe(kept: set<string>)                    // one row per token survives
    | Hydrate(rows: set<string>, saved: bool)      // memory reloaded from one row per token, then flushed
    | GatewayLoses(tokens: set<string>)            // restart or revocation
    | Crash                                        // Admin loses tasks and flushes and reloads its file

  ghost predicate Enabled(s: State, e: Event) {
    match e
    case CreateKey(t, newId, _) => t !in s.gw && newId !in s.bound
    case List => true
    case Forget(r) => r in s.heard
    case Adopt(r) => r in s.heard
    case Begin(k, oldId, newId) =>
      k !in s.tasks && oldId in s.admin && newId != oldId && (newId, s.admin[oldId]) in s.heard
    case DeleteRow(k, _) => k in s.tasks && s.tasks[k].stage == RowStale
    case WriteRow(k, _) => k in s.tasks && s.tasks[k].stage == RowDeleted
    case TakeSnapshot(_) => true
    case FlushRow(r) => r in s.flushes
    case DropFlush(r) => r in s.flushes
    case Dedupe(kept) => Restrict(s.pg, kept).Values == s.pg.Values
    case Hydrate(rows, _) => s.pg != map[] && rows <= s.pg.Keys && Restrict(s.pg, rows).Values == s.pg.Values
    case GatewayLoses(_) => true
    case Crash => true
  }

  function Listing(gw: map<string, string>): set<(string, string)> {
    set t | t in gw :: (gw[t], t)
  }

  /** Memory goes to the file, if it can be written, and to the rows still to be flushed. */
  function Flushing(s: State, saved: bool): State {
    s.(file := if saved then s.admin else s.file, flushes := s.flushes + s.admin.Items)
  }

  ghost function Effect(s: State, e: Event): State
    requires Enabled(s, e)
  {
    match e
    case CreateKey(t, newId, answered) =>
      s.(gw := s.gw[t := newId], bound := s.bound[newId := t],
         heard := if answered then s.heard + {(newId, t)} else s.heard)
    case List => s.(heard := s.heard + Listing(s.gw))
    case Forget(r) => s.(heard := s.heard - {r})
    case Adopt(r) => s.(admin := s.admin[r.0 := r.1])
    case Begin(k, oldId, newId) =>
      var t := s.admin[oldId];
      s.(admin := (s.admin - {oldId})[newId := t],
         tasks := s.tasks[k := Migration(oldId, newId, t, RowStale)])
    case DeleteRow(k, ok) =>
      s.(pg := if ok then s.pg - {s.tasks[k].oldId} else s.pg,
         tasks := s.tasks[k := s.tasks[k].(stage := RowDeleted)])
    case WriteRow(k, ok) =>
      s.(pg := if ok then s.pg[s.tasks[k].newId := s.tasks[k].token] else s.pg, tasks := s.tasks - {k})
    case TakeSnapshot(saved) => Flushing(s, saved)
    case FlushRow(r) => s.(pg := s.pg[r.0 := r.1], flushes := s.flushes - {r})
    case DropFlush(r) => s.(flushes := s.flushes - {r})
    case Dedupe(kept) => s.(pg := Restrict(s.pg, kept))
    case Hydrate(rows, saved) => Flushing(s.(admin := Restrict(s.pg, rows)), saved)
    case GatewayLoses(tokens) => s.(gw := s.gw - tokens)
    case Crash => s.(admin := s.file, heard := {}, tasks := map[], flushes := {})
  }

  /** The step, with the record of what PostgreSQL has held brought up to date. */
  ghost function Next(s: State, e: Event): State
    requires Enabled(s, e)
  {
    var s' := Effect(s, e);
    s'.(stored := s.stored + s'.pg.Values)
  }

  /** An id stands for one token for life, wherever a row with it may be. */
  ghost predicate IdsBound(s: State) {
    && (forall i :: i in s.admin ==> i in s.bound && s.bound[i] == s.admin[i])
    && (forall i :: i in s.file ==> i in s.bound && s.bound[i] == s.file[i])
    && (forall i :: i in s.pg ==> i in s.bound && s.bound[i] == s.pg[i])
    && (forall t :: t in s.gw ==> s.gw[t] in s.bound && s.bound[s.gw[t]] == t)
    && (forall r :: r in s.heard ==> r.0 in s.bound && s.bound[r.0] == r.1)
    && (forall r :: r in s.flushes ==> r.0 in s.bound && s.bound[r.0] == r.1)
    && (forall k :: k in s.tasks ==>
          && s.tasks[k].oldId in s.bound && s.bound[s.tasks[k].oldId] == s.tasks[k].token
          && s.tasks[k].newId in s.bound && s.bound[s.tasks[k].newId] == s.tasks[k].token)
  }

  lemma SnapshotBinds(s: State, saved: bool)
    requires IdsBound(s)
    ensures IdsBound(Flushing(s, saved))
  {
    forall r | r in s.admin.Items ensures r.0 in s.bound && s.bound[r.0] == r.1 {
      assert r.0 in s.admin;
    }
  }

  lemma BeginBinds(s: State, k: nat, oldId: string, newId: string)
    requires IdsBound(s) && Enabled(s, Begin(k, oldId, newId))
    ensures IdsBound(Next(s, Begin(k, oldId, newId)))
  {
  }

  lemma HearingBinds(s: State, e: Event)
    requires IdsBound(s) && Enabled(s, e) && (e.List? || e.Forget? || e.Adopt?)
    ensures IdsBound(Next(s, e))
  {
    forall r | r in Listing(s.gw) ensures r.0 in s.bound && s.bound[r.0] == r.1 {
    }
  }

  lemma RowBinds(s: State, e: Event)
    requires IdsBound(s) && Enabled(s, e) && (e.DeleteRow? || e.WriteRow? || e.FlushRow? || e.DropFlush?)
    ensures IdsBound(Next(s, e))
  {
  }

  lemma CreateBinds(s: State, e: Event)
    requires IdsBound(s) && Enabled(s, e) && e.CreateKey?
    ensures IdsBound(Next(s, e))
  {
  }

  lemma GatewayBinds(s: State, e: Event)
    requires IdsBound(s) && Enabled(s, e) && (e.GatewayLoses? || e.Crash?)
    ensures IdsBound(Next(s, e))
  {
  }

  lemma RestrictBinds(s: State, e: Event)
    requires IdsBound(s) && Enabled(s, e) && (e.Dedupe? || e.Hydrate?)
    ensures IdsBound(Next(s, e))
  {
    if e.Hydrate? {
      SnapshotBinds(s.(admin := Restrict(s.pg, e.rows)), e.saved);
    }
  }

  lemma BindingKept(s: State, e: Event)
    requires IdsBound(s) && Enabled(s, e)
    ensures IdsBound(Next(s, e))
  {
    if e.TakeSnapshot? {
      SnapshotBinds(s, e.saved);
    } else if e.Begin? {
      BeginBinds(s, e.task, e.oldId, e.newId);
    } else if e.List? || e.Forget? || e.Adopt? {
      HearingBinds(s, e);
    } else if e.DeleteRow? || e.WriteRow? || e.FlushRow? || e.DropFlush? {
      RowBinds(s, e);
    } else if e.Dedupe? || e.Hydrate? {
      RestrictBinds(s, e);
    } else if e.CreateKey? {
      CreateBinds(s, e);
    } else {
      GatewayBinds(s, e);
    }
  }

  /** Every token PostgreSQL ever held is in PostgreSQL or on the Gateway. */
  ghost predicate Covered(s: State) {
    forall t :: t in s.stored ==> t in s.pg.Values || t in s.gw
  }

  /** The two kinds of step that can lose a token, judged before the step is taken: the Gateway drops
      one PostgreSQL lacks, or the last row of one the Gateway lacks is deleted. */
  ghost predicate Loses(s: State, e: Event)
    requires Enabled(s, e)
  {
    match e
    case GatewayLoses(tokens) => exists t :: t in tokens && t in s.gw && t in s.stored && t !in s.pg.Values
    case DeleteRow(k, ok) =>
      && ok && s.tasks[k].oldId in s.pg
      && s.tasks[k].token !in s.gw
      && forall i :: i in s.pg && s.pg[i] == s.tasks[k].token ==> i == s.tasks[k].oldId
    case _ => false
  }

  lemma OverwriteKeepsValues(pg: Table, id: string, t: string)
    requires id in pg ==> pg[id] == t
    ensures pg[id := t].Values == pg.Values + {t}
  {
    var pg' := pg[id := t];
    assert id in pg';
    forall v | v in pg.Values ensures v in pg'.Values {
      var i :| i in pg && pg[i] == v;
      assert i in pg' && pg'[i] == v;
    }
  }

  lemma DeleteValues(pg: Table, id: string)
    ensures (pg - {id}).Values <= pg.Values
    ensures id in pg ==> pg.Values <= (pg - {id}).Values + {pg[id]}
    ensures id in pg ==> (pg[id] in (pg - {id}).Values <==> exists i :: i in pg && i != id && pg[i] == pg[id])
  {
    var pg' := pg - {id};
    forall v | v in pg'.Values ensures v in pg.Values && exists i :: i in pg && i != id && pg[i] == v {
      var i :| i in pg' && pg'[i] == v;
      assert i in pg && pg[i] == v;
    }
    forall i | i in pg && i != id ensures pg[i] in pg'.Values {
      assert i in pg' && pg'[i] == pg[i];
    }
    forall v | v in pg.Values ensures (id in pg && v == pg[id]) || v in pg'.Values {
      var i :| i in pg && pg[i] == v;
    }
  }

  /** Exactly the losing steps uncover a token; every other step of every actor is safe. */
  lemma StepCovers(s: State, e: Event)
    requires IdsBound(s) && Enabled(s, e) && Covered(s) && s.pg.Values <= s.stored
    ensures Covered(Next(s, e)) <==> !Loses(s, e)
    ensures Next(s, e).pg.Values <= Next(s, e).stored
  {
    match e
    case DeleteRow(k, ok) =>
      if ok { DeleteCovers(s, k); }
    case WriteRow(k, ok) =>
      OverwriteKeepsValues(s.pg, s.tasks[k].newId, s.tasks[k].token);
    case FlushRow(r) =>
      OverwriteKeepsValues(s.pg, r.0, r.1);
    case _ =>
  }

  lemma DeleteCovers(s: State, k: nat)
    requires IdsBound(s) && Enabled(s, DeleteRow(k, true)) && Covered(s) && s.pg.Values <= s.stored
    ensures Covered(Next(s, DeleteRow(k, true))) <==> !Loses(s, DeleteRow(k, true))
  {
    var s' := Next(s, DeleteRow(k, true));
    var m := s.tasks[k];
    DeleteValues(s.pg, m.oldId);
    if m.oldId in s.pg {
      assert s.pg[m.oldId] == m.token;
      assert m.token in s.pg.Values;
      assert s'.stored == s.stored;
      assert forall t :: t in s.stored && t != m.token ==> (t in s.pg.Values <==> t in s'.pg.Values);
    } else {
      assert s'.pg == s.pg;
    }
  }

  // ---------------------------------------------------------------------------
  // Whole runs
  // ---------------------------------------------------------------------------

  ghost predicate Start(s: State) {
    IdsBound(s) && s.stored == s.pg.Values && s.heard == {} && s.tasks == map[] && s.flushes == {}
  }

  ghost predicate Enacts(s: State, events: seq<Event>)
    decreases |events|
  {
    events == [] || (Enabled(s, events[0]) && Enacts(Next(s, events[0]), events[1..]))
  }

  ghost predicate AlwaysCovered(s: State, events: seq<Event>)
    requires Enacts(s, events)
    decreases |events|
  {
    Covered(s) && (events == [] || AlwaysCovered(Next(s, events[0]), events[1..]))
  }

  ghost predicate NeverLoses(s: State, events: seq<Event>)
    requires Enacts(s, events)
    decreases |events|
  {
    events == [] || (!Loses(s, events[0]) && NeverLoses(Next(s, events[0]), events[1..]))
  }

  /**
   In every interleaving, a token once in PostgreSQL is at all times in PostgreSQL or on the
   Gateway exactly when no Gateway loss hits a token PostgreSQL lacks and no migration deletes
   the last row of a token the Gateway has lost.
   */
  lemma {:induction false} CoveredExactly(s: State, events: seq<Event>)
    requires IdsBound(s) && s.pg.Values <= s.stored && Covered(s) && Enacts(s, events)
    ensures AlwaysCovered(s, events) <==> NeverLoses(s, events)
    decreases |events|
  {
    if events != [] {
      StepCovers(s, events[0]);
      BindingKept(s, events[0]);
      if !Loses(s, events[0]) {
        CoveredExactly(Next(s, events[0]), events[1..]);
      }
    }
  }

  /**
   The Gateway keeps a token from the moment Admin hears of it, through the move, until the old row is
   deleted, and again while PostgreSQL has no row of it.
   */
  ghost predicate Considerate(s: State, e: Event) {
    e.GatewayLoses? ==>
      forall t :: t in e.tokens && t in s.gw ==>
        && (t in s.stored ==> t in s.pg.Values)
        && (forall r :: r in s.heard ==> r.1 != t)
        && (forall k :: k in s.tasks && s.tasks[k].stage == RowStale ==> s.tasks[k].token != t)
  }

  ghost predicate ConsiderateRun(s: State, events: seq<Event>)
    requires Enacts(s, events)
    decreases |events|
  {
    events == [] || (Considerate(s, events[0]) && ConsiderateRun(Next(s, events[0]), events[1..]))
  }

  /** What Admin may still act on is on the Gateway. */
  ghost predicate HeardOnGateway(s: State) {
    && (forall r :: r in s.heard ==> r.1 in s.gw)
    && (forall k :: k in s.tasks && s.tasks[k].stage == RowStale ==> s.tasks[k].token in s.gw)
  }

  lemma HeardStays(s: State, e: Event)
    requires HeardOnGateway(s) && Enabled(s, e) && Considerate(s, e)
    ensures HeardOnGateway(Next(s, e))
  {
    forall r | r in Listing(s.gw) ensures r.1 in s.gw {
    }
  }

  /** With such a Gateway no run loses a token, whenever Admin crashes and whichever calls fail. */
  lemma {:induction false} NoTokenLost(s: State, events: seq<Event>)
    requires IdsBound(s) && s.pg.Values <= s.stored && Covered(s) && HeardOnGateway(s)
    requires Enacts(s, events) && ConsiderateRun(s, events)
    ensures AlwaysCovered(s, events)
    decreases |events|
  {
    if events != [] {
      assert !Loses(s, events[0]);
      StepCovers(s, events[0]);
      BindingKept(s, events[0]);
      HeardStays(s, events[0]);
      NoTokenLost(Next(s, events[0]), events[1..]);
    }
  }

  lemma StartIsCovered(s: State)
    requires Start(s)
    ensures IdsBound(s) && s.pg.Values <= s.stored && Covered(s) && HeardOnGateway(s)
  {
  }

  // ---------------------------------------------------------------------------
  // Tokens lost for good
  // ---------------------------------------------------------------------------

  ghost function After(s: State, events: seq<Event>): State
    requires Enacts(s, events)
    decreases |events|
  {
    if events == [] then s else After(Next(s, events[0]), events[1..])
  }

  /** Nowhere any more: not in PostgreSQL, on the Gateway, in memory, in the file or in anything pending. */
  ghost predicate Gone(s: State, t: string) {
    && t !in s.pg.Values && t !in s.gw && t !in s.admin.Values && t !in s.file.Values
    && (forall r :: r in s.heard + s.flushes ==> r.1 != t)
    && (forall k :: k in s.tasks ==> s.tasks[k].token != t)
  }

  /** Memory forgets a token exactly when a hydrate finds no row of it, or a crash finds it not in the file. */
  lemma ForgetsExactly(s: State, e: Event, t: string)
    requires IdsBound(s) && Enabled(s, e) && t in s.admin.Values
    ensures t !in Next(s, e).admin.Values <==>
            (e.Hydrate? && t !in s.pg.Values) || (e.Crash? && t !in s.file.Values)
  {
    var i :| i in s.admin && s.admin[i] == t;
    match e
    case Begin(_, oldId, newId) =>
      var m := Next(s, e).admin;
      assert if i == oldId then m[newId] == t else i in m && m[i] == t;
    case Adopt(r) =>
      var m := Next(s, e).admin;
      assert i in m && m[i] == t;
    case _ =>
  }

  lemma HydrateForgets(s: State, c: string, u: string, t: string)
    requires s.pg == map[c := u] && u != t && t !in s.gw && s.heard == {} && s.flushes == {} && s.tasks == map[]
    ensures Enabled(s, Hydrate({c}, true)) && Gone(Next(s, Hydrate({c}, true)), t)
  {
    assert Restrict(s.pg, {c}) == s.pg && s.pg[c] == u;
    var s' := Next(s, Hydrate({c}, true));
    assert s'.admin == map[c := u] == s'.file == s'.pg && s'.flushes == s'.admin.Items;
    forall r | r in s'.flushes ensures r.1 == u {
      assert r.0 in s'.admin;
    }
  }

  /** A token without row and Gateway key is gone once Admin has crashed and hydrated from the rows left. */
  lemma CrashThenHydrate(s: State, c: string, u: string, t: string)
    requires s.pg == map[c := u] && u != t && t in s.stored && t !in s.gw
    ensures var events := [Crash, Hydrate({c}, true)];
            Enacts(s, events) && !AlwaysCovered(s, events) && Gone(After(s, events), t)
  {
    var last := Hydrate({c}, true);
    var s1 := Next(s, Crash);
    HydrateForgets(s1, c, u, t);
    assert Enacts(Next(s1, last), []) && !Covered(Next(s1, last));
    Prepend(s1, last, [], t);
    Prepend(s, Crash, [last] + [], t);
    assert [Crash] + ([last] + []) == [Crash, last];
  }

  /** The delete of the stale row leaves the other key's row alone. */
  lemma OtherRowIsLeft(s: State, k: nat, a: string, t: string, c: string, u: string)
    requires s.pg == map[a := t, c := u] && a != c && t in s.stored
    requires k in s.tasks && s.tasks[k].stage == RowStale && s.tasks[k].oldId == a
    ensures var s' := Next(s, DeleteRow(k, true));
            s'.pg == map[c := u] && t in s'.stored && s'.gw == s.gw
  {
    assert s.pg - {a} == map[c := u];
  }

  /** Token `t` in row `a`, on the Gateway under `b`, which a listing has just shown; and another key. */
  function Misfiled(a: string, b: string, t: string, c: string, u: string): State {
    var rows := map[a := t, c := u];
    State(rows, rows, rows, map[t := b, u := c], {(b, t), (c, u)}, map[], {}, rows[b := t], {t, u})
  }

  lemma MisfiledIsReachable(a: string, b: string, t: string, c: string, u: string)
    requires a != b && a != c && b != c && t != u
    ensures var s := Misfiled(a, b, t, c, u).(heard := {});
            Start(s) && Enabled(s, List) && Next(s, List) == Misfiled(a, b, t, c, u)
  {
    var s := Misfiled(a, b, t, c, u).(heard := {});
    assert s.pg[a] == t && s.pg[c] == u;
    assert s.gw[t] == b && s.gw[u] == c;
    assert s.pg.Values == {t, u};
    forall r | r in Listing(s.gw) ensures r == (b, t) || r == (c, u) {
    }
    assert (s.gw[t], t) in Listing(s.gw) && (s.gw[u], u) in Listing(s.gw);
  }

  lemma Prepend(s: State, e: Event, events: seq<Event>, t: string)
    requires Enabled(s, e) && Enacts(Next(s, e), events)
    requires !AlwaysCovered(Next(s, e), events) && Gone(After(Next(s, e), events), t)
    ensures Enacts(s, [e] + events) && !AlwaysCovered(s, [e] + events) && Gone(After(s, [e] + events), t)
  {
    assert ([e] + events)[1..] == events;
  }

  /** A Gateway restart between the delete and the write, then a crash and a hydrate, loses the key for good. */
  lemma RestartInWindowLoses(a: string, b: string, t: string, c: string, u: string)
    requires a != b && a != c && b != c && t != u
    ensures var s := Misfiled(a, b, t, c, u);
            var events := [Begin(0, a, b), DeleteRow(0, true)] + [GatewayLoses({t}), Crash, Hydrate({c}, true)];
            Enacts(s, events) && !AlwaysCovered(s, events) && Gone(After(s, events), t)
  {
    var s := Misfiled(a, b, t, c, u);
    var e1, e2, e3 := Begin(0, a, b), DeleteRow(0, true), GatewayLoses({t});
    var s1 := Next(s, e1);
    OtherRowIsLeft(s1, 0, a, t, c, u);
    var s2 := Next(s1, e2);
    LossThenGone(s2, c, u, t);
    var end := [e3, Crash, Hydrate({c}, true)];
    Prepend(s1, e2, end, t);
    Prepend(s, e1, [e2] + end, t);
    assert [e1] + ([e2] + end) == [e1, e2] + end;
  }

  lemma LossThenGone(s: State, c: string, u: string, t: string)
    requires s.pg == map[c := u] && u != t && t in s.stored
    ensures var events := [GatewayLoses({t}), Crash, Hydrate({c}, true)];
            Enacts(s, events) && !AlwaysCovered(s, events) && Gone(After(s, events), t)
  {
    var e := GatewayLoses({t});
    CrashThenHydrate(Next(s, e), c, u, t);
    Prepend(s, e, [Crash, Hydrate({c}, true)], t);
    assert [e] + [Crash, Hydrate({c}, true)] == [e, Crash, Hydrate({c}, true)];
  }

  /** So does a loss after the listing, with the row still there and no migration begun. */
  lemma StaleListingLoses(a: string, b: string, t: string, c: string, u: string)
    requires a != b && a != c && b != c && t != u
    ensures var s := Misfiled(a, b, t, c, u);
            var events := [GatewayLoses({t}), Begin(0, a, b)] + [DeleteRow(0, true), Crash, Hydrate({c}, true)];
            && t in s.pg.Values && s.tasks == map[]
            && Enacts(s, events) && !AlwaysCovered(s, events) && Gone(After(s, events), t)
  {
    var s := Misfiled(a, b, t, c, u);
    assert s.pg[a] == t;
    var e1, e2, e3 := GatewayLoses({t}), Begin(0, a, b), DeleteRow(0, true);
    var s1 := Next(s, e1);
    var s2 := Next(s1, e2);
    DeleteThenGone(s2, 0, a, t, c, u);
    var end := [e3, Crash, Hydrate({c}, true)];
    Prepend(s1, e2, end, t);
    Prepend(s, e1, [e2] + end, t);
    assert [e1] + ([e2] + end) == [e1, e2] + end;
  }

  lemma DeleteThenGone(s: State, k: nat, a: string, t: string, c: string, u: string)
    requires s.pg == map[a := t, c := u] && a != c && u != t && t in s.stored && t !in s.gw
    requires k in s.tasks && s.tasks[k].stage == RowStale && s.tasks[k].oldId == a
    ensures var events := [DeleteRow(k, true), Crash, Hydrate({c}, true)];
            Enacts(s, events) && !AlwaysCovered(s, events) && Gone(After(s, events), t)
  {
    var e := DeleteRow(k, true);
    OtherRowIsLeft(s, k, a, t, c, u);
    CrashThenHydrate(Next(s, e), c, u, t);
    Prepend(s, e, [Crash, Hydrate({c}, true)], t);
    assert [e] + [Crash, Hydrate({c}, true)] == [e, Crash, Hydrate({c}, true)];
  }
}
