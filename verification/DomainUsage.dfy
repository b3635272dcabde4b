/** Per-domain usage counters: read from the Gateway, persisted, and restored after a restart. */
module DomainUsage {
  import opened Common
  import GatewayUptime

  datatype Usage = Usage(tokens: nat, spend: real)

  type Usages = map<string, Usage>

  /** Month, then domain. */
  type Table = map<string, Usages>

  const ZERO: Usage := Usage(0, 0.0)

  function Rows(pg: Table, month: string): Usages {
    if month in pg then pg[month] else map[]
  }

  function Of(us: Usages, d: string): Usage {
    if d in us then us[d] else ZERO
  }

  function MaxReal(a: real, b: real): real {
    if a < b then b else a
  }

  function MaxUsage(a: Usage, b: Usage): Usage {
    Usage(Max(a.tokens, b.tokens), MaxReal(a.spend, b.spend))
  }

  predicate NoLess(a: Usage, b: Usage) {
    a.tokens >= b.tokens && a.spend >= b.spend
  }

  /** Every domain of `b` is in `a` with counters no smaller. */
  ghost predicate AtLeast(a: Usages, b: Usages) {
    forall d :: d in b ==> d in a && NoLess(a[d], b[d])
  }

  /** A reading not worth a row. */
  predicate Idle(u: Usage) {
    u.tokens == 0 && u.spend <= 0.0
  }

  // ---------------------------------------------------------------------------
  // Traffic, merging, persisting
  // ---------------------------------------------------------------------------

  datatype Request = Request(domain: string, tokens: nat, spend: real)

  function Recorded(gw: Usages, r: Request): Usages {
    if r.tokens == 0 && r.spend <= 0.0 then gw
    else
      var u := Of(gw, r.domain);
      gw[r.domain := Usage(u.tokens + r.tokens, u.spend + r.spend)]
  }

  function RecordedAll(gw: Usages, rs: seq<Request>): Usages {
    if rs == [] then gw else Recorded(RecordedAll(gw, rs[..|rs| - 1]), rs[|rs| - 1])
  }

  predicate Priced(rs: seq<Request>) {
    forall i :: 0 <= i < |rs| ==> rs[i].spend >= 0.0
  }

  /** Gateway counters overlaid with the persisted ones, the larger of each. */
  function Merged(gw: Usages, rows: Usages): Usages {
    map d | d in gw.Keys + rows.Keys :: if d in rows then MaxUsage(Of(gw, d), rows[d]) else gw[d]
  }

  function Worth(reading: Usages): Usages {
    map d | d in reading && !Idle(reading[d]) :: reading[d]
  }

  function Persisted(pg: Table, month: string, reading: Usages): Table {
    if Worth(reading) == map[] then pg else pg[month := Rows(pg, month) + Worth(reading)]
  }

  lemma {:induction false} TrafficGrows(gw: Usages, rs: seq<Request>)
    requires Priced(rs)
    ensures AtLeast(RecordedAll(gw, rs), gw)
  {
    if rs != [] { TrafficGrows(gw, rs[..|rs| - 1]); }
  }

  function TokensFor(rs: seq<Request>, d: string): nat {
    if rs == [] then 0
    else TokensFor(rs[..|rs| - 1], d) + if rs[|rs| - 1].domain == d then rs[|rs| - 1].tokens else 0
  }

  function SpendFor(rs: seq<Request>, d: string): real {
    if rs == [] then 0.0
    else SpendFor(rs[..|rs| - 1], d) + if rs[|rs| - 1].domain == d then rs[|rs| - 1].spend else 0.0
  }

  /** Each domain's counters grow by what its own requests add. */
  lemma {:induction false} TrafficCounted(gw: Usages, rs: seq<Request>, d: string)
    requires Priced(rs)
    ensures Of(RecordedAll(gw, rs), d) == Usage(Of(gw, d).tokens + TokensFor(rs, d), Of(gw, d).spend + SpendFor(rs, d))
  {
    if rs != [] { TrafficCounted(gw, rs[..|rs| - 1], d); }
  }

  /** The restore leaves no counter below what was read on either side, and none above both. */
  lemma RestoreDominates(gw: Usages, rows: Usages)
    ensures AtLeast(Merged(gw, rows), gw) && AtLeast(Merged(gw, rows), rows)
    ensures forall other :: AtLeast(other, gw) && AtLeast(other, rows) && Floored(other)
              ==> AtLeast(other, Merged(gw, rows))
  {
    forall other, d | AtLeast(other, gw) && AtLeast(other, rows) && Floored(other) && d in Merged(gw, rows)
      ensures d in other && NoLess(other[d], Merged(gw, rows)[d])
    {
    }
  }

  /** No counter is negative. */
  ghost predicate Floored(us: Usages) {
    forall d :: d in us ==> us[d].spend >= 0.0
  }

  // ---------------------------------------------------------------------------
  // Ticks and runs
  // ---------------------------------------------------------------------------

  datatype State = State(gw: Usages, pg: Table, prevUptime: Option<nat>)

  /** How a tick's calls go; an upsert loop that stops has written the domains of `done`. */
  datatype Calls = AllSucceed | FirstGetFails | RestoreFails(fault: RestoreFault) | UpsertStops(done: set<string>)

  /** Where a restore fails: loading the rows, reading again, writing, or with the write done and its answer lost. */
  datatype RestoreFault = LoadFails | SecondGetFails | WriteRefused | AnswerLost

  /**
   * One tick: the uptime probed, the month the Gateway reports, the requests recorded between its two
   * readings and those recorded between the second reading and the restoring write.
   */
  datatype Tick = Tick(uptime: Option<nat>, month: string, between: seq<Request>, beforePut: seq<Request>, calls: Calls)

  predicate Restores(s: State, t: Tick) {
    GatewayUptime.RestartDetected(s.prevUptime, t.uptime)
  }

  /** The Gateway after the restoring write: requests recorded since the second reading are overwritten by it. */
  function Overwritten(second: Usages, rows: Usages): Usages {
    if rows == map[] then second else Merged(second, rows)
  }

  function Restored(s: State, t: Tick): Usages {
    Overwritten(RecordedAll(s.gw, t.between), Rows(s.pg, t.month))
  }

  function Faulted(second: Usages, rows: Usages, beforePut: seq<Request>, fault: RestoreFault): Usages {
    match fault
    case LoadFails => second
    case SecondGetFails => second
    case WriteRefused => RecordedAll(second, beforePut)
    case AnswerLost => Overwritten(second, rows)
  }

  /** The part of the first reading that the tick writes to PostgreSQL. */
  function Written(s: State, t: Tick): Usages {
    match t.calls
    case FirstGetFails => map[]
    case RestoreFails(_) => if Restores(s, t) then map[] else s.gw
    case UpsertStops(done) => Restrict(s.gw, done)
    case AllSucceed => s.gw
  }

  function Ticked(s: State, t: Tick): State {
    if t.calls.FirstGetFails? then s
    else if Restores(s, t) && t.calls.RestoreFails? then
      State(Faulted(RecordedAll(s.gw, t.between), Rows(s.pg, t.month), t.beforePut, t.calls.fault), s.pg, s.prevUptime)
    else State(if Restores(s, t) then Restored(s, t) else s.gw, Persisted(s.pg, t.month, Written(s, t)), t.uptime)
  }

  /** The tick wrote its whole reading. */
  predicate Completes(s: State, t: Tick) {
    t.calls.AllSucceed? || (t.calls.RestoreFails? && !Restores(s, t))
  }

  /** The tick saw the restart and wrote the merged counters back. */
  predicate Recovers(s: State, t: Tick) {
    Restores(s, t) && !t.calls.FirstGetFails? && !t.calls.RestoreFails?
  }

  /** The tick read the Gateway and did not break off in a restore. */
  predicate Passes(last: Option<nat>, t: Tick) {
    !t.calls.FirstGetFails? && !(GatewayUptime.RestartDetected(last, t.uptime) && t.calls.RestoreFails?)
  }

  datatype Event = Traffic(requests: seq<Request>) | Sync(tick: Tick) | Restart

  function Next(s: State, e: Event): State {
    match e
    case Traffic(rs) => State(RecordedAll(s.gw, rs), s.pg, s.prevUptime)
    case Sync(t) => Ticked(s, t)
    case Restart => State(map[], s.pg, s.prevUptime)
  }

  /** Traffic and ticks of one month, no Gateway restart. */
  predicate Ordinary(e: Event, month: string) {
    match e
    case Traffic(rs) => Priced(rs)
    case Sync(t) => t.month == month && Priced(t.between) && Priced(t.beforePut)
    case Restart => false
  }

  function Run(s: State, events: seq<Event>): State {
    if events == [] then s else Next(Run(s, events[..|events| - 1]), events[|events| - 1])
  }

  predicate AllOrdinary(events: seq<Event>, month: string) {
    forall i :: 0 <= i < |events| ==> Ordinary(events[i], month)
  }

  /** Some tick of the run got as far as persisting its reading. */
  predicate SomeTickCompletes(s: State, events: seq<Event>) {
    events != [] &&
    var n := |events| - 1;
    || SomeTickCompletes(s, events[..n])
    || (events[n].Sync? && Completes(Run(s, events[..n]), events[n].tick))
  }

  /** On the way back: the Gateway is at least `goal`, and PG is unless the Gateway's counter is worth a row. */
  ghost predicate Recovering(s: State, month: string, goal: Usages) {
    && AtLeast(s.gw, goal)
    && forall d :: d in goal && Idle(s.gw[d]) ==>
                     d in Rows(s.pg, month) && NoLess(Rows(s.pg, month)[d], goal[d])
  }

  /** The tick that detects the restart sets the run on its way back to what PG held. */
  lemma RestoreStartsRecovery(s: State, t: Tick)
    requires Recovers(s, t) && Priced(t.between)
    ensures Recovering(Ticked(s, t), t.month, Rows(s.pg, t.month))
  {
    var goal := Rows(s.pg, t.month);
    var second := RecordedAll(s.gw, t.between);
    TrafficGrows(s.gw, t.between);
    RestoreDominates(second, goal);
    var s' := Ticked(s, t);
    assert goal != map[] ==> s'.gw == Merged(second, goal);
    forall d | d in goal && Idle(s'.gw[d]) ensures d in Rows(s'.pg, t.month) && NoLess(Rows(s'.pg, t.month)[d], goal[d]) {
      assert d in s.gw ==> NoLess(s'.gw[d], second[d]) && NoLess(second[d], s.gw[d]);
    }
  }

  lemma PersistRecovers(pg: Table, month: string, gw: Usages, goal: Usages)
    requires AtLeast(gw, goal)
    requires forall d :: d in goal && Idle(gw[d]) ==> d in Rows(pg, month) && NoLess(Rows(pg, month)[d], goal[d])
    ensures AtLeast(Rows(Persisted(pg, month, gw), month), goal)
  {
    var now := Rows(Persisted(pg, month, gw), month);
    forall d | d in goal ensures d in now && NoLess(now[d], goal[d]) {
      PersistedRow(pg, month, gw, d);
    }
  }

  /** A reading worth a row replaces the row, any other leaves it. */
  lemma PersistedRow(pg: Table, month: string, reading: Usages, d: string)
    ensures var was, now := Rows(pg, month), Rows(Persisted(pg, month, reading), month);
            if d in reading && !Idle(reading[d]) then d in now && now[d] == reading[d]
            else (d in now <==> d in was) && (d in was ==> now[d] == was[d])
  {
    assert d in Worth(reading) <==> d in reading && !Idle(reading[d]);
  }

  /** Restoring or not, failing or not, a tick lowers no Gateway counter below the first reading. */
  lemma TickGrows(s: State, t: Tick)
    requires Priced(t.between) && Priced(t.beforePut)
    ensures AtLeast(Ticked(s, t).gw, s.gw)
  {
    var second := RecordedAll(s.gw, t.between);
    TrafficGrows(s.gw, t.between);
    TrafficGrows(second, t.beforePut);
    RestoreDominates(second, Rows(s.pg, t.month));
  }

  lemma TickKeepsRecovering(s: State, t: Tick, month: string, goal: Usages)
    requires Recovering(s, month, goal) && t.month == month && Priced(t.between) && Priced(t.beforePut)
    ensures Recovering(Ticked(s, t), month, goal)
  {
    var s' := Ticked(s, t);
    TickGrows(s, t);
    forall d | d in goal && Idle(s'.gw[d])
      ensures d in Rows(s'.pg, month) && NoLess(Rows(s'.pg, month)[d], goal[d])
    {
      assert Idle(s.gw[d]);
    }
  }

  lemma StepKeepsRecovering(s: State, e: Event, month: string, goal: Usages)
    requires Recovering(s, month, goal) && Ordinary(e, month)
    ensures Recovering(Next(s, e), month, goal)
  {
    match e
    case Traffic(rs) => TrafficGrows(s.gw, rs);
    case Sync(t) => TickKeepsRecovering(s, t, month, goal);
  }

  /** A tick that completes brings PG back, and every later step keeps it there. */
  lemma StepKeepsRecovered(s: State, e: Event, month: string, goal: Usages)
    requires Recovering(s, month, goal) && Ordinary(e, month)
    requires AtLeast(Rows(s.pg, month), goal) || (e.Sync? && Completes(s, e.tick))
    ensures AtLeast(Rows(Next(s, e).pg, month), goal)
  {
    if e.Sync? {
      if Completes(s, e.tick) {
        PersistRecovers(s.pg, month, s.gw, goal);
      } else {
        forall d | d in goal
          ensures d in Rows(Next(s, e).pg, month) && NoLess(Rows(Next(s, e).pg, month)[d], goal[d])
        {
        }
      }
    }
  }

  lemma {:induction false} RunRecovers(s: State, events: seq<Event>, month: string, goal: Usages)
    requires Recovering(s, month, goal) && AllOrdinary(events, month)
    ensures Recovering(Run(s, events), month, goal)
    ensures SomeTickCompletes(s, events) ==> AtLeast(Rows(Run(s, events).pg, month), goal)
  {
    if events != [] {
      var n := |events| - 1;
      var before := Run(s, events[..n]);
      RunRecovers(s, events[..n], month, goal);
      StepKeepsRecovering(before, events[n], month, goal);
      if SomeTickCompletes(s, events) {
        StepKeepsRecovered(before, events[n], month, goal);
      }
    }
  }

  /**
   * From the tick that detects the restart on, whatever traffic and ticks follow in that month,
   * one completed tick later PG is back at least where it was, and stays there.
   */
  lemma RecoveredAfterOneTick(s: State, t: Tick, events: seq<Event>)
    requires Recovers(s, t) && Priced(t.between)
    requires AllOrdinary(events, t.month) && SomeTickCompletes(Ticked(s, t), events)
    ensures AtLeast(Rows(Run(Ticked(s, t), events).pg, t.month), Rows(s.pg, t.month))
  {
    RestoreStartsRecovery(s, t);
    RunRecovers(Ticked(s, t), events, t.month, Rows(s.pg, t.month));
  }

  // ---------------------------------------------------------------------------
  // Which ticks restore
  // ---------------------------------------------------------------------------

  /** The uptime read by the last tick that got past its restore step, `init` when there is none. */
  function LastProbe(init: Option<nat>, events: seq<Event>): Option<nat> {
    if events == [] then init
    else
      var u, e := LastProbe(init, events[..|events| - 1]), events[|events| - 1];
      if e.Sync? && Passes(u, e.tick) then e.tick.uptime else u
  }

  /** A tick restores exactly when its uptime is below the last one probed. */
  lemma {:induction false} RestoresExactly(s: State, events: seq<Event>, t: Tick)
    ensures Restores(Run(s, events), t) <==> GatewayUptime.RestartDetected(LastProbe(s.prevUptime, events), t.uptime)
    ensures Run(s, events).prevUptime == LastProbe(s.prevUptime, events)
  {
    if events != [] {
      var n := |events| - 1;
      RestoresExactly(s, events[..n], if events[n].Sync? then events[n].tick else t);
    }
  }

  /** Traffic, restarts and ticks that cannot read the Gateway. */
  predicate Unread(events: seq<Event>) {
    forall i :: 0 <= i < |events| && events[i].Sync? ==> events[i].tick.calls.FirstGetFails?
  }

  lemma {:induction false} UnreadProbesNothing(init: Option<nat>, events: seq<Event>)
    requires Unread(events)
    ensures LastProbe(init, events) == init
  {
    if events != [] { UnreadProbesNothing(init, events[..|events| - 1]); }
  }

  /** An uptime below that of the tick before it, among those that read the Gateway, is always seen. */
  lemma DropIsSeen(s: State, u: nat, first: Tick, between: seq<Event>, t: Tick)
    requires first.uptime == Some(u) && Passes(s.prevUptime, first)
    requires Unread(between) && t.uptime.Some? && t.uptime.value < u
    requires !t.calls.FirstGetFails? && !t.calls.RestoreFails?
    ensures Recovers(Run(Ticked(s, first), between), t)
  {
    UnreadProbesNothing(Some(u), between);
    RestoresExactly(Ticked(s, first), between, t);
    assert [Sync(first)][..0] == [];
    assert Run(s, [Sync(first)]) == Ticked(s, first);
    RestoresExactly(s, [Sync(first)], first);
    assert LastProbe(s.prevUptime, [Sync(first)][..0]) == s.prevUptime;
  }

  // ---------------------------------------------------------------------------
  // From the restart on
  // ---------------------------------------------------------------------------

  /** A row to be written lies below the goal. */
  ghost predicate WritesLess(part: Usages, goal: Usages) {
    exists d :: d in goal && d in part && !Idle(part[d]) && !NoLess(part[d], goal[d])
  }

  /** What a tick writes keeps the rows at the goal exactly when none of it is less. */
  lemma TickKeepsExactly(s: State, t: Tick, goal: Usages)
    requires AtLeast(Rows(s.pg, t.month), goal)
    ensures AtLeast(Rows(Ticked(s, t).pg, t.month), goal) <==> !WritesLess(Written(s, t), goal)
  {
    var now := Rows(Persisted(s.pg, t.month, Written(s, t)), t.month);
    assert Rows(Ticked(s, t).pg, t.month) == now;
    forall d | d in goal
      ensures d in now && (NoLess(now[d], goal[d]) <==>
                           !(d in Written(s, t) && !Idle(Written(s, t)[d]) && !NoLess(Written(s, t)[d], goal[d])))
    {
    }
  }

  predicate OfMonth(events: seq<Event>, month: string) {
    forall i :: 0 <= i < |events| && events[i].Sync? ==> events[i].tick.month == month
  }

  /** PG is at the goal after every step of the run. */
  ghost predicate AlwaysAtLeast(s: State, events: seq<Event>, month: string, goal: Usages) {
    && AtLeast(Rows(Run(s, events).pg, month), goal)
    && (events != [] ==> AlwaysAtLeast(s, events[..|events| - 1], month, goal))
  }

  /** No tick of the run writes a reading below the goal. */
  ghost predicate NoneWritesLess(s: State, events: seq<Event>, goal: Usages) {
    events != [] ==>
      var n := |events| - 1;
      && NoneWritesLess(s, events[..n], goal)
      && (events[n].Sync? ==> !WritesLess(Written(Run(s, events[..n]), events[n].tick), goal))
  }

  /** Through any run of one month, Gateway restarts included, PG never drops exactly when no tick writes less. */
  lemma {:induction false} RowsKeptExactly(s: State, events: seq<Event>, month: string, goal: Usages)
    requires AtLeast(Rows(s.pg, month), goal) && OfMonth(events, month)
    ensures AlwaysAtLeast(s, events, month, goal) <==> NoneWritesLess(s, events, goal)
  {
    if events != [] {
      var n := |events| - 1;
      var before := Run(s, events[..n]);
      RowsKeptExactly(s, events[..n], month, goal);
      if AtLeast(Rows(before.pg, month), goal) && events[n].Sync? {
        TickKeepsExactly(before, events[n].tick, goal);
      }
      if AlwaysAtLeast(s, events[..n], month, goal) {
        assert AtLeast(Rows(before.pg, month), goal);
      }
    }
  }

  /**
   The Gateway restarts, traffic and ticks follow, some tick then sees the restart. If no tick before it wrote
   a smaller reading, one completed tick later PG is back at least where it was before the restart, for good.
   */
  lemma RestartRecovered(s: State, before: seq<Event>, t: Tick, after: seq<Event>)
    requires OfMonth(before, t.month) && NoneWritesLess(Next(s, Restart), before, Rows(s.pg, t.month))
    requires var seen := Run(Next(s, Restart), before);
             Recovers(seen, t) && Priced(t.between) && AllOrdinary(after, t.month) && SomeTickCompletes(Ticked(seen, t), after)
    ensures var seen := Run(Next(s, Restart), before);
            AtLeast(Rows(Run(Ticked(seen, t), after).pg, t.month), Rows(s.pg, t.month))
  {
    var seen, goal := Run(Next(s, Restart), before), Rows(s.pg, t.month);
    RowsKeptExactly(Next(s, Restart), before, t.month, goal);
    assert AtLeast(Rows(seen.pg, t.month), goal);
    RecoveredAfterOneTick(seen, t, after);
  }

  /**
   The same from the readings alone, from a sync that has just started: whatever happened before the restart, the
   first tick whose uptime is below the last one probed sets the recovery off.
   */
  lemma RestartSeenRecovers(s0: State, past: seq<Event>, before: seq<Event>, t: Tick, after: seq<Event>)
    requires s0.prevUptime == None
    requires GatewayUptime.RestartDetected(LastProbe(LastProbe(None, past), before), t.uptime)
    requires !t.calls.FirstGetFails? && !t.calls.RestoreFails? && Priced(t.between)
    requires var s := Run(s0, past);
             var seen := Run(Next(s, Restart), before);
             && OfMonth(before, t.month) && NoneWritesLess(Next(s, Restart), before, Rows(s.pg, t.month))
             && AllOrdinary(after, t.month) && SomeTickCompletes(Ticked(seen, t), after)
    ensures var s := Run(s0, past);
            var seen := Run(Next(s, Restart), before);
            AtLeast(Rows(Run(Ticked(seen, t), after).pg, t.month), Rows(s.pg, t.month))
  {
    var s := Run(s0, past);
    RestoresExactly(s0, past, t);
    RestoresExactly(Next(s, Restart), before, t);
    RestartRecovered(s, before, t, after);
  }

  lemma {:induction false} UnreadWritesNothing(s: State, events: seq<Event>, goal: Usages)
    requires Unread(events)
    ensures NoneWritesLess(s, events, goal)
  {
    if events != [] { UnreadWritesNothing(s, events[..|events| - 1], goal); }
  }

  /**
   And if the first tick to read the Gateway after the restart already has the new uptime, nothing is lost: one
   completed tick later PG is back at least where it was.
   */
  lemma PromptProbeRecovers(s0: State, past: seq<Event>, before: seq<Event>, t: Tick, after: seq<Event>)
    requires s0.prevUptime == None && Unread(before) && OfMonth(before, t.month)
    requires GatewayUptime.RestartDetected(LastProbe(None, past), t.uptime)
    requires !t.calls.FirstGetFails? && !t.calls.RestoreFails? && Priced(t.between)
    requires var seen := Run(Next(Run(s0, past), Restart), before);
             AllOrdinary(after, t.month) && SomeTickCompletes(Ticked(seen, t), after)
    ensures var seen := Run(Next(Run(s0, past), Restart), before);
            AtLeast(Rows(Run(Ticked(seen, t), after).pg, t.month), Rows(Run(s0, past).pg, t.month))
  {
    UnreadProbesNothing(LastProbe(None, past), before);
    UnreadWritesNothing(Next(Run(s0, past), Restart), before, Rows(Run(s0, past).pg, t.month));
    RestartSeenRecovers(s0, past, before, t, after);
  }

  /** From `s` on, every tick that recovers and every run after it with a completed tick brings PG to the goal. */
  ghost predicate WillRecover(s: State, month: string, goal: Usages) {
    forall t: Tick, after ::
      Recovers(s, t) && Ordinary(Sync(t), month) && AllOrdinary(after, month) && SomeTickCompletes(Ticked(s, t), after) ==>
        AtLeast(Rows(Run(Ticked(s, t), after).pg, month), goal)
  }

  lemma RestoreReaches(s: State, t: Tick, goal: Usages)
    requires Recovers(s, t) && Priced(t.between) && Floored(Rows(s.pg, t.month)) && goal.Keys <= Rows(s.pg, t.month).Keys
    requires AtLeast(Merged(s.gw, Rows(s.pg, t.month)), goal)
    ensures Recovering(Ticked(s, t), t.month, goal)
  {
    var rows, second, s' := Rows(s.pg, t.month), RecordedAll(s.gw, t.between), Ticked(s, t);
    TrafficGrows(s.gw, t.between);
    forall d | d in goal ensures d in s'.gw && NoLess(s'.gw[d], goal[d]) {
      assert d in rows && NoLess(Merged(second, rows)[d], Merged(s.gw, rows)[d]);
    }
    forall d | d in goal && Idle(s'.gw[d]) ensures d in Rows(s'.pg, t.month) && NoLess(Rows(s'.pg, t.month)[d], goal[d]) {
      assert d in s.gw ==> NoLess(s'.gw[d], s.gw[d]);
    }
  }

  /** The tick that sees the restart, nothing else going on. */
  function QuietTick(uptime: nat, month: string): Tick {
    Tick(Some(uptime), month, [], [], AllSucceed)
  }

  lemma QuietRecovery(s: State, month: string)
    requires s.prevUptime.Some? && s.prevUptime.value > 0 && Rows(s.pg, month) != map[]
    ensures var t, after := QuietTick(0, month), [Sync(QuietTick(0, month))];
            && Recovers(s, t) && Ordinary(Sync(t), month) && AllOrdinary(after, month)
            && SomeTickCompletes(Ticked(s, t), after)
            && Run(Ticked(s, t), after).pg ==
               Persisted(Persisted(s.pg, month, s.gw), month, Merged(s.gw, Rows(s.pg, month)))
  {
    var t := QuietTick(0, month);
    var after := [Sync(t)];
    assert after[..0] == [] && after[0] == Sync(t);
    assert Run(Ticked(s, t), after[..0]) == Ticked(s, t);
  }

  /**
   The exact condition, in what PG and the Gateway hold when the restart is seen: recovery to `goal` is certain,
   whatever follows, if and only if the two merged are at the goal.
   */
  lemma WillRecoverExactly(s: State, month: string, goal: Usages)
    requires s.prevUptime.Some? && s.prevUptime.value > 0
    requires Rows(s.pg, month) != map[] && goal.Keys <= Rows(s.pg, month).Keys
    requires Floored(s.gw) && Floored(Rows(s.pg, month))
    ensures WillRecover(s, month, goal) <==> AtLeast(Merged(s.gw, Rows(s.pg, month)), goal)
  {
    var rows := Rows(s.pg, month);
    var merged := Merged(s.gw, rows);
    if AtLeast(merged, goal) {
      forall t: Tick, after | Recovers(s, t) && Ordinary(Sync(t), month) && AllOrdinary(after, month)
                              && SomeTickCompletes(Ticked(s, t), after)
        ensures AtLeast(Rows(Run(Ticked(s, t), after).pg, month), goal)
      {
        RestoreReaches(s, t, goal);
        RunRecovers(Ticked(s, t), after, month, goal);
      }
    }
    if WillRecover(s, month, goal) {
      QuietRecovery(s, month);
    }
  }

  /** The detecting tick itself keeps PG exactly when the reading taken before the restore was no smaller. */
  lemma RestoringTickKeepsExactly(s: State, t: Tick)
    requires Completes(s, t)
    ensures AtLeast(Rows(Ticked(s, t).pg, t.month), Rows(s.pg, t.month)) <==> !WritesLess(s.gw, Rows(s.pg, t.month))
  {
    TickKeepsExactly(s, t, Rows(s.pg, t.month));
  }

  /** A request served between the Gateway's restart and the detecting tick makes PG drop in that tick. */
  lemma RestoringTickCanDrop()
    ensures var s := State(map["d" := Usage(1, 0.0)], map["2025-05" := map["d" := Usage(100, 0.0)]], Some(500));
            var t := Tick(Some(3), "2025-05", [], [], AllSucceed);
            && Restores(s, t) && Completes(s, t)
            && Ticked(s, t).pg["2025-05"]["d"] == Usage(1, 0.0) && Ticked(s, t).gw["d"] == Usage(100, 0.0)
  {
    var gw: Usages := map["d" := Usage(1, 0.0)];
    assert "d" in Worth(gw);
  }

  /**
   A tick that runs on a stale uptime reading between the restart and the probe that shows it persists the small
   counters; the restore then reads those back, and the old ones are gone however many ticks follow.
   */
  lemma StaleProbeLosesRows(month: string, d: string, high: nat, low: nat, u: nat, v: nat)
    requires 0 < low < high && v < u
    ensures var s := State(map[d := Usage(high, 0.0)], map[month := map[d := Usage(high, 0.0)]], Some(u));
            var events := [Restart, Traffic([Request(d, low, 0.0)]), Sync(QuietTick(u, month)),
                           Sync(QuietTick(v, month)), Sync(QuietTick(v, month))];
            && Recovers(Run(s, events[..3]), QuietTick(v, month))
            && Rows(Run(s, events).pg, month) == map[d := Usage(low, 0.0)]
  {
    var s := State(map[d := Usage(high, 0.0)], map[month := map[d := Usage(high, 0.0)]], Some(u));
    var events := [Restart, Traffic([Request(d, low, 0.0)]), Sync(QuietTick(u, month)),
                   Sync(QuietTick(v, month)), Sync(QuietTick(v, month))];
    var few: Usages := map[d := Usage(low, 0.0)];
    var s2 := State(few, s.pg, Some(u));
    SmallTraffic(s, d, low);
    assert events[..1] == [Restart] && events[..2] == [Restart, events[1]];
    assert events[..2][..1] == [Restart] && [Restart][..0] == [];
    assert Run(s, []) == s && Run(s, [Restart]) == Next(s, Restart);
    assert Run(s, events[..2]) == Next(Next(s, Restart), events[1]);
    var s3 := Ticked(s2, QuietTick(u, month));
    assert s3.gw == few && Rows(s3.pg, month) == few;
    assert events[..3][..2] == events[..2] && Run(s, events[..3]) == s3;
    var s4 := Ticked(s3, QuietTick(v, month));
    SettledTick(s3, QuietTick(v, month), few, d);
    assert events[..4][..3] == events[..3] && Run(s, events[..4]) == s4;
    SettledTick(s4, QuietTick(v, month), few, d);
    assert events[..4] == events[..|events| - 1];
  }

  lemma SmallTraffic(s: State, d: string, low: nat)
    requires low > 0
    ensures Next(Next(s, Restart), Traffic([Request(d, low, 0.0)])) == State(map[d := Usage(low, 0.0)], s.pg, s.prevUptime)
  {
    var rs := [Request(d, low, 0.0)];
    assert rs[..0] == [];
    assert RecordedAll(map[], rs[..0]) == map[];
  }

  /** Where Gateway and PG agree on one counter, a tick changes neither, restoring or not. */
  lemma SettledTick(s: State, t: Tick, few: Usages, d: string)
    requires s.gw == few && Rows(s.pg, t.month) == few && few.Keys == {d} && few[d].spend >= 0.0 && !Idle(few[d])
    requires t.calls == AllSucceed && t.between == []
    ensures Ticked(s, t).gw == few && Rows(Ticked(s, t).pg, t.month) == few
  {
    assert Merged(few, few) == few;
  }

  // ---------------------------------------------------------------------------
  // The sync loop's own steps
  // ---------------------------------------------------------------------------

  /** Whether the first reading is answered, where a restore would fail, and for which domains an upsert fails. */
  datatype Net = Net(answers: bool, fault: Option<RestoreFault>, failing: set<string>)

  /** Without rows to restore, the restore ends before its second reading. */
  predicate Bites(fault: Option<RestoreFault>, rows: Usages) {
    fault.Some? && (fault.value.LoadFails? || rows != map[])
  }

  ghost predicate StopsAt(reading: Usages, failing: set<string>, done: set<string>) {
    && done <= reading.Keys && failing !! Worth(Restrict(reading, done)).Keys
    && exists d :: d in failing && d in Worth(reading) && d !in done
  }

  /** The network decides how the calls of a tick go. */
  ghost predicate Went(net: Net, s: State, t: Tick) {
    var bitten := Restores(s, t) && Bites(net.fault, Rows(s.pg, t.month));
    match t.calls
    case FirstGetFails => !net.answers
    case RestoreFails(fault) => net.answers && bitten && net.fault == Some(fault)
    case UpsertStops(done) => net.answers && !bitten && StopsAt(s.gw, net.failing, done)
    case AllSucceed => net.answers && !bitten && net.failing !! Worth(s.gw).Keys
  }

  class DomainSync {
    var gw: Usages
    var pg: Table
    var prevUptime: Option<nat>

    function Here(): State
      reads this
    {
      State(gw, pg, prevUptime)
    }

    constructor (gateway: Usages, table: Table)
      ensures Here() == State(gateway, table, None)
    {
      gw, pg, prevUptime := gateway, table, None;
    }

    method Record(rs: seq<Request>)
      modifies this`gw
      ensures gw == RecordedAll(old(gw), rs)
    {
      for n := 0 to |rs|
        invariant gw == RecordedAll(old(gw), rs[..n])
      {
        assert rs[..n + 1][..n] == rs[..n];
        gw := Recorded(gw, rs[n]);
      }
      assert rs[..|rs|] == rs;
    }

    /** Overlay the persisted rows on a fresh reading and write the result back, unless a call fails on the way. */
    method RestoreToGateway(month: string, between: seq<Request>, beforePut: seq<Request>, fault: Option<RestoreFault>)
      returns (ok: bool)
      modifies this`gw
      ensures ok <==> !Bites(fault, Rows(pg, month))
      ensures var second := RecordedAll(old(gw), between);
              gw == if ok then Overwritten(second, Rows(pg, month))
                    else Faulted(second, Rows(pg, month), beforePut, fault.value)
    {
      Record(between);
      if fault == Some(LoadFails) {
        return false;
      }
      var rows := Rows(pg, month);
      if rows == map[] {
        return true;
      }
      if fault == Some(SecondGetFails) {
        return false;
      }
      var second := gw;
      Record(beforePut);
      var merged := Overlay(second, rows);
      if fault == Some(WriteRefused) {
        return false;
      }
      gw := merged;
      return fault.None?;
    }

    /** The merged map, updated in place row by row. */
    method Overlay(second: Usages, rows: Usages) returns (merged: Usages)
      ensures merged == Merged(second, rows)
    {
      merged := second;
      var pending := rows.Keys;
      assert rows - pending == map[] && Merged(second, map[]) == second;
      while pending != {}
        invariant pending <= rows.Keys
        invariant merged == Merged(second, rows - pending)
      {
        var d :| d in pending;
        var u := if d in merged then merged[d] else ZERO;
        merged := merged[d := MaxUsage(u, rows[d])];
        pending := pending - {d};
      }
      assert rows - pending == rows;
    }

    /** Upsert each reading worth a row; the first call that fails ends the loop with the domains of `done` written. */
    method Persist(month: string, reading: Usages, failing: set<string>) returns (ok: bool, ghost done: set<string>)
      modifies this`pg
      ensures pg == Persisted(old(pg), month, Restrict(reading, done))
      ensures if ok then failing !! Worth(reading).Keys && done == reading.Keys && pg == Persisted(old(pg), month, reading)
              else StopsAt(reading, failing, done)
    {
      ok, done := true, {};
      var pending := reading.Keys;
      assert Restrict(reading, {}) == map[] && Worth(map[]) == map[];
      while pending != {}
        invariant pending <= reading.Keys && done == reading.Keys - pending
        invariant failing !! Worth(Restrict(reading, done)).Keys
        invariant pg == Persisted(old(pg), month, Restrict(reading, done))
      {
        var d :| d in pending;
        PersistStep(old(pg), month, Restrict(reading, done), d, reading[d]);
        assert Restrict(reading, done + {d}) == Restrict(reading, done)[d := reading[d]];
        if reading[d].tokens > 0 || reading[d].spend > 0.0 {
          if d in failing {
            assert d in Worth(reading) && d !in done;
            return false, done;
          }
          pg := pg[month := Rows(pg, month)[d := reading[d]]];
        }
        pending, done := pending - {d}, done + {d};
      }
      assert Restrict(reading, done) == reading;
    }

    /** One tick over the network as it is; `calls` tells how the remote calls went. */
    method SyncOnce(uptime: Option<nat>, month: string, between: seq<Request>, beforePut: seq<Request>, net: Net)
      returns (ghost calls: Calls)
      modifies this
      ensures var t := Tick(uptime, month, between, beforePut, calls);
              Went(net, old(Here()), t) && Here() == Ticked(old(Here()), t)
    {
      if !net.answers {
        return FirstGetFails;
      }
      var reading := gw;
      if GatewayUptime.RestartDetected(prevUptime, uptime) {
        var restored := RestoreToGateway(month, between, beforePut, net.fault);
        if !restored {
          return RestoreFails(net.fault.value);
        }
      }
      prevUptime := uptime;
      var ok;
      ghost var done;
      ok, done := Persist(month, reading, net.failing);
      calls := if ok then AllSucceed else UpsertStops(done);
    }
  }

  lemma PersistStep(pg: Table, month: string, done: Usages, d: string, u: Usage)
    requires d !in done
    ensures Persisted(pg, month, done[d := u]) ==
            if Idle(u) then Persisted(pg, month, done)
            else Persisted(pg, month, done)[month := Rows(Persisted(pg, month, done), month)[d := u]]
  {
    if Idle(u) {
      assert Worth(done[d := u]) == Worth(done);
    } else {
      assert Worth(done[d := u]) == Worth(done)[d := u];
      assert d in Worth(done[d := u]);
      assert Worth(done) == map[] ==> Rows(pg, month) + Worth(done) == Rows(pg, month);
      assert Rows(pg, month) + Worth(done)[d := u] == (Rows(pg, month) + Worth(done))[d := u];
      var us := (Rows(pg, month) + Worth(done))[d := u];
      assert Persisted(pg, month, done)[month := us] == pg[month := us];
    }
  }
}
