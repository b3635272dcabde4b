/** The double-checked metrics cache: callers, a fetch lock, a lifetime, a stale fallback. */
module FetchCache {
  import opened Common

  type Caller = nat

  datatype Entry = Entry(at: nat, body: string)

  datatype Config = Config(ttl: nat, staleMax: nat)

  /** Where a caller is in the fetch routine. */
  datatype Stage = Outside | Waiting | Holding | Fetching

  datatype How = Fetched | Fresh | Stale

  /** One answer: when, to whom, what, and where the body came from. */
  datatype Answer =
    | Ok(caller: Caller, at: nat, body: string, how: How, store: nat)
    | Err(caller: Caller, at: nat, stores: nat)

  /**
   * The clock, the cached entry, the lock, each caller's stage, and two histories: everything ever
   * stored and every answer given.
   */
  datatype State = State(now: nat, entry: Option<Entry>, lock: Option<Caller>, stages: map<Caller, Stage>,
                         stores: seq<Entry>, answers: seq<Answer>)

  function StageOf(s: State, c: Caller): Stage {
    if c in s.stages then s.stages[c] else Outside
  }

  /** The cached body, when it is younger than `limit`. */
  function Younger(s: State, limit: nat): Option<string> {
    if s.entry.Some? && s.now - s.entry.value.at < limit then Some(s.entry.value.body) else None
  }

  datatype Step =
    | Wait(time: nat)
    | Call(caller: Caller)                    // first look at the cache
    | Lock(caller: Caller)
    | Recheck(caller: Caller)                 // second look, under the lock
    | FetchOk(caller: Caller, body: string)
    | FetchErr(caller: Caller)
    | Cancel(caller: Caller)                  // the caller's future is dropped

  predicate Enabled(s: State, step: Step) {
    match step
    case Wait(_) => true
    case Call(c) => StageOf(s, c) == Outside
    case Lock(c) => StageOf(s, c) == Waiting && s.lock.None?
    case Recheck(c) => StageOf(s, c) == Holding
    case FetchOk(c, _) => StageOf(s, c) == Fetching
    case FetchErr(c) => StageOf(s, c) == Fetching
    case Cancel(c) => true
  }

  function Answered(s: State, a: Answer): State {
    s.(answers := s.answers + [a])
  }

  /** The caller leaves, letting go of the lock if it holds it. */
  function Leave(s: State, c: Caller): State {
    s.(stages := s.stages[c := Outside], lock := if s.lock == Some(c) then None else s.lock)
  }

  function FromCache(s: State, c: Caller, body: string, how: How): State {
    Leave(Answered(s, Ok(c, s.now, body, how, SatSub(|s.stores|, 1))), c)
  }

  function Next(s: State, cfg: Config, step: Step): State {
    match step
    case Wait(t) => s.(now := s.now + t)
    case Call(c) =>
      var body := Younger(s, cfg.ttl);
      if body.Some? then FromCache(s, c, body.value, Fresh) else s.(stages := s.stages[c := Waiting])
    case Lock(c) => s.(lock := Some(c), stages := s.stages[c := Holding])
    case Recheck(c) =>
      var body := Younger(s, cfg.ttl);
      if body.Some? then FromCache(s, c, body.value, Fresh) else s.(stages := s.stages[c := Fetching])
    case FetchOk(c, body) =>
      var e := Entry(s.now, body);
      FromCache(s.(entry := Some(e), stores := s.stores + [e]), c, body, Fetched)
    case FetchErr(c) =>
      var body := Younger(s, cfg.staleMax);
      if body.Some? then FromCache(s, c, body.value, Stale)
      else Leave(Answered(s, Err(c, s.now, |s.stores|)), c)
    case Cancel(c) => Leave(s, c)
  }

  const START: State := State(0, None, None, map[], [], [])

  /** Every interleaving of callers, clock and cancellations. */
  ghost predicate Runs(cfg: Config, steps: seq<Step>, s: State) {
    if steps == [] then s == START
    else
      var n := |steps| - 1;
      exists before :: Runs(cfg, steps[..n], before) && Enabled(before, steps[n]) && s == Next(before, cfg, steps[n])
  }

  // ---------------------------------------------------------------------------
  // What every run keeps
  // ---------------------------------------------------------------------------

  predicate InsideLock(g: Stage) {
    g == Holding || g == Fetching
  }

  /** The lock holder, and nobody else, is past the lock. */
  ghost predicate LockHeld(s: State) {
    forall c: Caller :: InsideLock(StageOf(s, c)) <==> s.lock == Some(c)
  }

  /** The entry is the last one stored, and nothing is from the future. */
  ghost predicate EntryIsLast(s: State) {
    && (s.entry.None? <==> s.stores == [])
    && (s.stores != [] ==> s.entry == Some(s.stores[|s.stores| - 1]))
    && (forall i :: 0 <= i < |s.stores| ==> s.stores[i].at <= s.now)
  }

  /** Nobody fetches while the cached body is still fresh. */
  ghost predicate FetchingOnExpiry(s: State, cfg: Config) {
    forall c: Caller :: StageOf(s, c) == Fetching ==> Younger(s, cfg.ttl).None?
  }

  ghost predicate Spaced(s: State, cfg: Config) {
    forall i :: 0 <= i < |s.stores| - 1 ==> s.stores[i + 1].at - s.stores[i].at >= cfg.ttl
  }

  /** An answer as old as its kind allows, taken from the store it names, the newest at that moment. */
  ghost predicate Honest(a: Answer, stores: seq<Entry>, cfg: Config) {
    match a
    case Ok(c, at, body, how, k) =>
      && k < |stores| && stores[k].body == body && stores[k].at <= at
      && (k + 1 < |stores| ==> at <= stores[k + 1].at)
      && (match how
          case Fetched => stores[k].at == at
          case Fresh => at - stores[k].at < cfg.ttl
          case Stale => cfg.ttl <= at - stores[k].at < cfg.staleMax)
    case Err(c, at, n) =>
      && n <= |stores| && (n < |stores| ==> at <= stores[n].at)
      && (n > 0 ==> at - stores[n - 1].at >= cfg.staleMax && at - stores[n - 1].at >= cfg.ttl)
  }

  ghost predicate AllHonest(s: State, cfg: Config) {
    forall i :: 0 <= i < |s.answers| ==> Honest(s.answers[i], s.stores, cfg) && s.answers[i].at <= s.now
  }

  ghost predicate Inv(s: State, cfg: Config) {
    LockHeld(s) && EntryIsLast(s) && FetchingOnExpiry(s, cfg) && Spaced(s, cfg) && AllHonest(s, cfg)
  }

  lemma LockStep(s: State, cfg: Config, step: Step)
    requires LockHeld(s) && Enabled(s, step)
    ensures LockHeld(Next(s, cfg, step))
  {
    var s' := Next(s, cfg, step);
    forall c: Caller ensures InsideLock(StageOf(s', c)) <==> s'.lock == Some(c) {
      assert InsideLock(StageOf(s, c)) <==> s.lock == Some(c);
    }
  }

  lemma AnswerStep(s: State, cfg: Config, step: Step)
    requires AllHonest(s, cfg) && EntryIsLast(s) && FetchingOnExpiry(s, cfg) && Enabled(s, step)
    ensures AllHonest(Next(s, cfg, step), cfg)
  {
  }

  lemma StepKeeps(s: State, cfg: Config, step: Step)
    requires Inv(s, cfg) && Enabled(s, step)
    ensures Inv(Next(s, cfg, step), cfg)
  {
    LockStep(s, cfg, step);
    AnswerStep(s, cfg, step);
  }

  lemma {:induction false} RunKeeps(cfg: Config, steps: seq<Step>, s: State)
    requires Runs(cfg, steps, s)
    ensures Inv(s, cfg)
    decreases |steps|
  {
    if steps != [] {
      var n := |steps| - 1;
      var before :| Runs(cfg, steps[..n], before) && Enabled(before, steps[n]) && s == Next(before, cfg, steps[n]);
      RunKeeps(cfg, steps[..n], before);
      StepKeeps(before, cfg, steps[n]);
    }
  }

  // ---------------------------------------------------------------------------
  // Main results
  // ---------------------------------------------------------------------------

  /** In every interleaving at most one fetch is in flight, and only once the cached body has expired. */
  lemma OneFetchInFlight(cfg: Config, steps: seq<Step>, s: State, c: Caller, d: Caller)
    requires Runs(cfg, steps, s) && StageOf(s, c) == Fetching && StageOf(s, d) == Fetching
    ensures c == d && Younger(s, cfg.ttl).None?
  {
    RunKeeps(cfg, steps, s);
    assert InsideLock(StageOf(s, c)) && InsideLock(StageOf(s, d));
  }

  lemma {:induction false} SpacedApart(s: State, cfg: Config, i: nat, j: nat)
    requires Spaced(s, cfg) && i <= j < |s.stores|
    ensures s.stores[j].at - s.stores[i].at >= (j - i) * cfg.ttl
    decreases j - i
  {
    if i < j {
      SpacedApart(s, cfg, i, j - 1);
      assert s.stores[(j - 1) + 1].at - s.stores[j - 1].at >= cfg.ttl;
      assert (j - i) * cfg.ttl == (j - 1 - i) * cfg.ttl + cfg.ttl;
    }
  }

  /** Any `k` stores after another are at least `k` lifetimes apart. */
  lemma StoresFarApart(cfg: Config, steps: seq<Step>, s: State, i: nat, j: nat)
    requires Runs(cfg, steps, s) && i <= j < |s.stores|
    ensures s.stores[j].at - s.stores[i].at >= (j - i) * cfg.ttl
  {
    RunKeeps(cfg, steps, s);
    SpacedApart(s, cfg, i, j);
  }

  /** Every answer ever given is just fetched, younger than the lifetime, or stale within its limit after a failure. */
  lemma AnswersHonest(cfg: Config, steps: seq<Step>, s: State, i: nat)
    requires Runs(cfg, steps, s) && i < |s.answers|
    ensures Honest(s.answers[i], s.stores, cfg)
  {
    RunKeeps(cfg, steps, s);
  }

  /** A stale answer or an error only ever follows a failed fetch of that very caller. */
  lemma StaleOnlyAfterFailure(s: State, cfg: Config, step: Step)
    requires Enabled(s, step) && |Next(s, cfg, step).answers| > |s.answers|
    ensures var a := Next(s, cfg, step).answers[|s.answers|];
            && a.caller == step.caller
            && ((a.Err? || a.how == Stale) <==> step.FetchErr?)
            && ((a.Ok? && a.how == Fetched) <==> step.FetchOk?)
  {
  }

  /** The lock is never stuck: whoever holds it can always take a step that lets it go. */
  lemma LockIsReleased(cfg: Config, steps: seq<Step>, s: State, c: Caller)
    requires Runs(cfg, steps, s) && s.lock == Some(c)
    ensures StageOf(s, c) == Holding || StageOf(s, c) == Fetching
    ensures StageOf(s, c) == Fetching ==>
              && Enabled(s, FetchErr(c)) && Next(s, cfg, FetchErr(c)).lock.None?
              && forall body :: Enabled(s, FetchOk(c, body)) && Next(s, cfg, FetchOk(c, body)).lock.None?
    ensures StageOf(s, c) == Holding ==>
              var s' := Next(s, cfg, Recheck(c));
              Enabled(s, Recheck(c)) && (s'.lock.None? || StageOf(s', c) == Fetching)
  {
    RunKeeps(cfg, steps, s);
    assert InsideLock(StageOf(s, c));
  }
}
