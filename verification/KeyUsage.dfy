/** Monthly key usage, counted from the trace log by watermark ticks. */
module KeyUsage {
  import opened Common
  import opened Sums
  import opened ClientKeys

  datatype Entry = Entry(ts: nat, consumer: Option<string>, input: nat, output: nat)

  const SCAN_WINDOW: nat := 120_000

  // ---------------------------------------------------------------------------
  // What a key is charged
  // ---------------------------------------------------------------------------

  /** A key answers to its name and to its token. */
  predicate AnswersTo(m: KeyMetadata, consumer: string) {
    m.name == consumer || m.token == consumer
  }

  predicate Charges(m: KeyMetadata, e: Entry) {
    e.consumer.Some? && e.consumer.value != "" && e.input + e.output > 0 && AnswersTo(m, e.consumer.value)
  }

  function Tokens(m: KeyMetadata): Entry -> nat {
    (e: Entry) => if Charges(m, e) then e.input + e.output else 0
  }

  function Input(m: KeyMetadata): Entry -> nat {
    (e: Entry) => if Charges(m, e) then e.input else 0
  }

  function Output(m: KeyMetadata): Entry -> nat {
    (e: Entry) => if Charges(m, e) then e.output else 0
  }

  /** Counters as of `month`: those of another month are forgotten. */
  function Rolled(m: KeyMetadata, month: string): KeyMetadata {
    if m.usageMonth != month
    then m.(tokensThisMonth := 0, inputTokens := 0, outputTokens := 0, usageMonth := month)
    else m
  }

  /** One entry charged to one key. */
  function Charged(m: KeyMetadata, e: Entry, month: string): KeyMetadata {
    var r := Rolled(m, month);
    r.(tokensThisMonth := r.tokensThisMonth + e.input + e.output,
       inputTokens := r.inputTokens + e.input, outputTokens := r.outputTokens + e.output)
  }

  /** The key with so many tokens, of them input and output, added in `month`. */
  function Added(m: KeyMetadata, month: string, tokens: nat, input: nat, output: nat): KeyMetadata {
    if tokens == 0 then m
    else
      var r := Rolled(m, month);
      r.(tokensThisMonth := r.tokensThisMonth + tokens, inputTokens := r.inputTokens + input,
         outputTokens := r.outputTokens + output)
  }

  /** The key after `es` are counted, by plain sums over the entries that charge it. */
  function Counted(m: KeyMetadata, es: seq<Entry>, month: string): KeyMetadata {
    Added(m, month, Sum(es, Tokens(m)), Sum(es, Input(m)), Sum(es, Output(m)))
  }

  function CountedAll(keys: Keys, es: seq<Entry>, month: string): Keys {
    map id | id in keys :: Counted(keys[id], es, month)
  }

  /** The entries newer than `cutoff`, in order. */
  function Above(es: seq<Entry>, cutoff: nat): seq<Entry> {
    if es == [] then []
    else
      var front, e := Above(es[..|es| - 1], cutoff), es[|es| - 1];
      if e.ts > cutoff then front + [e] else front
  }

  function Newest(last: nat, es: seq<Entry>): nat {
    if es == [] then last else Max(Newest(last, es[..|es| - 1]), es[|es| - 1].ts)
  }

  /** A tick that never advanced looks back two minutes. */
  function Cutoff(last: nat, now: nat): nat {
    if last > 0 then last else SatSub(now, SCAN_WINDOW)
  }

  // ---------------------------------------------------------------------------
  // Sums of charges
  // ---------------------------------------------------------------------------

  lemma {:induction false} SumsBalance(m: KeyMetadata, es: seq<Entry>)
    ensures Sum(es, Tokens(m)) == Sum(es, Input(m)) + Sum(es, Output(m))
  {
    if es != [] { SumsBalance(m, es[..|es| - 1]); }
  }

  /**
   What counting `es` in `month` makes of key `m`, field by field: charged, it is of this month with the sums on top
   of what this month had already; otherwise it is as it was.
   */
  ghost predicate Billed(m: KeyMetadata, r: KeyMetadata, es: seq<Entry>, month: string) {
    var same := m.usageMonth == month;
    if SomeCharge(m, es) then
      r == m.(usageMonth := month,
              tokensThisMonth := (if same then m.tokensThisMonth else 0) + Sum(es, Tokens(m)),
              inputTokens := (if same then m.inputTokens else 0) + Sum(es, Input(m)),
              outputTokens := (if same then m.outputTokens else 0) + Sum(es, Output(m)))
    else r == m
  }

  lemma CountedIsBilled(m: KeyMetadata, es: seq<Entry>, month: string)
    ensures Billed(m, Counted(m, es, month), es, month)
  {
    NoCharge(m, es);
  }

  /** Charging entry by entry is counting by sums. */
  lemma CountedStep(m: KeyMetadata, es: seq<Entry>, e: Entry, month: string)
    ensures Counted(m, es + [e], month) ==
            if Charges(m, e) then Charged(Counted(m, es, month), e, month) else Counted(m, es, month)
  {
    SumsBalance(m, es);
  }

  lemma {:induction false} SumsOfSame(m: KeyMetadata, m': KeyMetadata, es: seq<Entry>)
    requires m.name == m'.name && m.token == m'.token
    ensures Sum(es, Tokens(m')) == Sum(es, Tokens(m)) && Sum(es, Input(m')) == Sum(es, Input(m))
    ensures Sum(es, Output(m')) == Sum(es, Output(m))
  {
    if es != [] { SumsOfSame(m, m', es[..|es| - 1]); }
  }

  /** Counting in two goes is counting at once. */
  lemma CountedAppend(m: KeyMetadata, a: seq<Entry>, b: seq<Entry>, month: string)
    ensures Counted(Counted(m, a, month), b, month) == Counted(m, a + b, month)
  {
    CountedAgain(m, a, b, month);
    SumsBalance(m, a);
    SumsBalance(m, b);
    AddTwice(m, month, Sum(a, Tokens(m)), Sum(a, Input(m)), Sum(a, Output(m)),
             Sum(b, Tokens(m)), Sum(b, Input(m)), Sum(b, Output(m)));
    SumsAppend(m, a, b);
    CountedFrom(m, a + b, month, Sum(a, Tokens(m)) + Sum(b, Tokens(m)), Sum(a, Input(m)) + Sum(b, Input(m)),
                Sum(a, Output(m)) + Sum(b, Output(m)));
  }

  lemma SumsAppend(m: KeyMetadata, a: seq<Entry>, b: seq<Entry>)
    ensures Sum(a + b, Tokens(m)) == Sum(a, Tokens(m)) + Sum(b, Tokens(m))
    ensures Sum(a + b, Input(m)) == Sum(a, Input(m)) + Sum(b, Input(m))
    ensures Sum(a + b, Output(m)) == Sum(a, Output(m)) + Sum(b, Output(m))
  {
    SumAppend(a, b, Tokens(m));
    SumAppend(a, b, Input(m));
    SumAppend(a, b, Output(m));
  }

  lemma CountedFrom(m: KeyMetadata, es: seq<Entry>, month: string, t: nat, i: nat, o: nat)
    requires Sum(es, Tokens(m)) == t && Sum(es, Input(m)) == i && Sum(es, Output(m)) == o
    ensures Counted(m, es, month) == Added(m, month, t, i, o)
  {
  }

  lemma CountedAgain(m: KeyMetadata, a: seq<Entry>, b: seq<Entry>, month: string)
    ensures Counted(Counted(m, a, month), b, month) ==
            Added(Counted(m, a, month), month, Sum(b, Tokens(m)), Sum(b, Input(m)), Sum(b, Output(m)))
  {
    SumsOfSame(m, Counted(m, a, month), b);
  }

  lemma AddTwice(m: KeyMetadata, month: string, t: nat, i: nat, o: nat, t': nat, i': nat, o': nat)
    requires t == i + o && t' == i' + o'
    ensures Added(Added(m, month, t, i, o), month, t', i', o') == Added(m, month, t + t', i + i', o + o')
  {
  }

  lemma CountedPermutes(m: KeyMetadata, a: seq<Entry>, b: seq<Entry>, month: string)
    requires multiset(a) == multiset(b)
    ensures Counted(m, a, month) == Counted(m, b, month)
  {
    SumPermutes(a, b, Tokens(m));
    SumPermutes(a, b, Input(m));
    SumPermutes(a, b, Output(m));
  }

  // ---------------------------------------------------------------------------
  // Tokens against input and output
  // ---------------------------------------------------------------------------

  predicate Balanced(m: KeyMetadata) {
    m.tokensThisMonth == m.inputTokens + m.outputTokens
  }

  predicate Bounded(m: KeyMetadata) {
    m.tokensThisMonth <= m.inputTokens + m.outputTokens
  }

  lemma CountingKeepsBalance(m: KeyMetadata, es: seq<Entry>, month: string)
    ensures Balanced(m) ==> Balanced(Counted(m, es, month))
    ensures Bounded(m) ==> Bounded(Counted(m, es, month))
  {
    SumsBalance(m, es);
  }

  /** Merging keeps the bound, and the balance exactly when one side is ahead in both counters. */
  lemma MergeWeakensBalance(a: KeyMetadata, b: KeyMetadata)
    ensures Bounded(a) && Bounded(b) ==> Bounded(Merge(a, b))
    ensures Balanced(a) && Balanced(b) ==>
              (Balanced(Merge(a, b)) <==>
                 || (a.inputTokens <= b.inputTokens && a.outputTokens <= b.outputTokens)
                 || (b.inputTokens <= a.inputTokens && b.outputTokens <= a.outputTokens))
  {
  }

  // ---------------------------------------------------------------------------
  // Runs of ticks
  // ---------------------------------------------------------------------------

  /** The keys, the watermark and every entry logged so far. */
  datatype State = State(keys: Keys, last: nat, log: seq<Entry>)

  /** `batch` arrived since the tick before; `load` is what this tick reads, in any order. */
  datatype Tick = Tick(batch: seq<Entry>, load: seq<Entry>, now: nat)

  function Ticked(s: State, t: Tick, month: string): State {
    var es := Above(t.load, Cutoff(s.last, t.now));
    State(CountedAll(s.keys, es, month), Newest(s.last, es), s.log + t.batch)
  }

  /** The load holds everything logged after the cutoff. */
  ghost predicate LoadsNew(s: State, t: Tick) {
    var c := Cutoff(s.last, t.now);
    multiset(Above(t.load, c)) == multiset(Above(s.log + t.batch, c))
  }

  lemma {:induction false} AboveCounts(es: seq<Entry>, cutoff: nat, e: Entry)
    ensures multiset(Above(es, cutoff))[e] == if e.ts > cutoff then multiset(es)[e] else 0
  {
    if es != [] {
      var n := |es| - 1;
      AboveCounts(es[..n], cutoff, e);
      assert es == es[..n] + [es[n]];
    }
  }

  /** A load is complete exactly when nothing it left unread, for age or for its limit, is newer than the cutoff. */
  lemma LoadsNewExactly(s: State, t: Tick, unread: seq<Entry>)
    requires multiset(t.load + unread) == multiset(s.log + t.batch)
    ensures LoadsNew(s, t) <==> forall e :: e in unread ==> e.ts <= Cutoff(s.last, t.now)
  {
    var c, log := Cutoff(s.last, t.now), s.log + t.batch;
    var a, b := multiset(Above(t.load, c)), multiset(Above(log, c));
    forall e: Entry ensures a[e] == (if e.ts > c then multiset(t.load)[e] else 0)
                    ensures b[e] == (if e.ts > c then multiset(t.load)[e] + multiset(unread)[e] else 0)
    {
      AboveCounts(t.load, c, e);
      AboveCounts(log, c, e);
      assert multiset(t.load + unread)[e] == multiset(t.load)[e] + multiset(unread)[e];
    }
    if forall e :: e in unread ==> e.ts <= c {
      forall e: Entry ensures a[e] == b[e] {
        assert e in unread <==> multiset(unread)[e] > 0;
      }
      assert a == b;
    }
    if e :| e in unread && e.ts > c {
      assert multiset(unread)[e] > 0 && a[e] != b[e];
    }
  }

  function Run(s: State, ticks: seq<Tick>, month: string): State {
    if ticks == [] then s
    else Ticked(Run(s, ticks[..|ticks| - 1], month), ticks[|ticks| - 1], month)
  }

  ghost predicate RunOk(s: State, ticks: seq<Tick>, month: string) {
    ticks != [] ==>
      var n := |ticks| - 1;
      && RunOk(s, ticks[..n], month)
      && LoadsNew(Run(s, ticks[..n], month), ticks[n])
      && (n > 0 ==> ticks[n - 1].now <= ticks[n].now)
  }

  function Arrived(ticks: seq<Tick>): seq<Entry> {
    if ticks == [] then [] else Arrived(ticks[..|ticks| - 1]) + ticks[|ticks| - 1].batch
  }

  /** What arrived newer than the cutoff of its own tick. */
  function InTime(s: State, ticks: seq<Tick>, month: string): seq<Entry> {
    if ticks == [] then []
    else
      var n := |ticks| - 1;
      InTime(s, ticks[..n], month) + Above(ticks[n].batch, Cutoff(Run(s, ticks[..n], month).last, ticks[n].now))
  }

  function AtMost(es: seq<Entry>, cutoff: nat): seq<Entry> {
    if es == [] then []
    else
      var front, e := AtMost(es[..|es| - 1], cutoff), es[|es| - 1];
      if e.ts <= cutoff then front + [e] else front
  }

  /** What arrived no newer than the cutoff of its own tick. */
  function Late(s: State, ticks: seq<Tick>, month: string): seq<Entry> {
    if ticks == [] then []
    else
      var n := |ticks| - 1;
      Late(s, ticks[..n], month) + AtMost(ticks[n].batch, Cutoff(Run(s, ticks[..n], month).last, ticks[n].now))
  }

  /** Nothing logged so far is newer than the cutoff a tick at `now` would use. */
  ghost predicate Behind(s: State, now: nat) {
    forall e :: e in s.log ==> e.ts <= Cutoff(s.last, now)
  }

  lemma {:induction false} AboveOnly(es: seq<Entry>, cutoff: nat)
    ensures forall e :: e in Above(es, cutoff) <==> e in es && e.ts > cutoff
  {
    if es != [] {
      AboveOnly(es[..|es| - 1], cutoff);
      assert es == es[..|es| - 1] + [es[|es| - 1]];
    }
  }

  lemma {:induction false} AboveAppend(a: seq<Entry>, b: seq<Entry>, cutoff: nat)
    ensures Above(a + b, cutoff) == Above(a, cutoff) + Above(b, cutoff)
    decreases |b|
  {
    if b == [] {
      assert a + b == a;
    } else {
      assert (a + b)[..|a + b| - 1] == a + b[..|b| - 1];
      AboveAppend(a, b[..|b| - 1], cutoff);
    }
  }

  lemma {:induction false} AboveNone(es: seq<Entry>, cutoff: nat)
    requires forall e :: e in es ==> e.ts <= cutoff
    ensures Above(es, cutoff) == []
  {
    if es != [] {
      assert es[|es| - 1] in es;
      AboveNone(es[..|es| - 1], cutoff);
    }
  }

  lemma {:induction false} NewestBounds(last: nat, es: seq<Entry>)
    ensures Newest(last, es) >= last && forall e :: e in es ==> e.ts <= Newest(last, es)
  {
    if es != [] {
      NewestBounds(last, es[..|es| - 1]);
      assert es == es[..|es| - 1] + [es[|es| - 1]];
    }
  }

  /** After a tick every entry logged is behind the next one, whether it was counted or late. */
  lemma TickLeavesBehind(s: State, t: Tick, month: string, now: nat)
    requires LoadsNew(s, t) && t.now <= now
    ensures Behind(Ticked(s, t, month), now)
  {
    var c := Cutoff(s.last, t.now);
    var es := Above(t.load, c);
    var log := s.log + t.batch;
    AboveOnly(log, c);
    AboveOnly(t.load, c);
    NewestBounds(s.last, es);
    forall e | e in log ensures e.ts <= Cutoff(Newest(s.last, es), now) {
      assert e.ts > c ==> e in multiset(Above(log, c)) && e in es;
    }
  }

  /** A tick counts of all it reads just what is new in its own batch. */
  lemma TickCountsBatch(s: State, t: Tick, month: string, id: string)
    requires LoadsNew(s, t) && Behind(s, t.now) && id in s.keys
    ensures id in Ticked(s, t, month).keys
    ensures Ticked(s, t, month).keys[id] == Counted(s.keys[id], Above(t.batch, Cutoff(s.last, t.now)), month)
  {
    var c := Cutoff(s.last, t.now);
    AboveAppend(s.log, t.batch, c);
    AboveNone(s.log, c);
    assert Above(s.log + t.batch, c) == Above(t.batch, c);
    CountedPermutes(s.keys[id], Above(t.load, c), Above(t.batch, c), month);
  }

  lemma RunLeavesBehind(s: State, ticks: seq<Tick>, month: string, now: nat)
    requires RunOk(s, ticks, month)
    requires ticks == [] ==> Behind(s, now)
    requires ticks != [] ==> ticks[|ticks| - 1].now <= now
    ensures Behind(Run(s, ticks, month), now)
  {
    if ticks != [] {
      var n := |ticks| - 1;
      TickLeavesBehind(Run(s, ticks[..n], month), ticks[n], month, now);
    }
  }

  /**
   * Whatever the schedule, no entry is counted twice: the counters end as one count over
   * the entries that arrived in time.
   */
  lemma {:induction false} TicksCountOnce(s: State, ticks: seq<Tick>, month: string, id: string)
    requires RunOk(s, ticks, month) && id in s.keys
    requires ticks != [] ==> Behind(s, ticks[0].now)
    ensures id in Run(s, ticks, month).keys
    ensures Run(s, ticks, month).keys[id] == Counted(s.keys[id], InTime(s, ticks, month), month)
  {
    if ticks != [] {
      var n := |ticks| - 1;
      var before := Run(s, ticks[..n], month);
      TicksCountOnce(s, ticks[..n], month, id);
      RunLeavesBehind(s, ticks[..n], month, ticks[n].now);
      TickCountsBatch(before, ticks[n], month, id);
      CountedAppend(s.keys[id], InTime(s, ticks[..n], month),
                    Above(ticks[n].batch, Cutoff(before.last, ticks[n].now)), month);
    }
  }

  lemma {:induction false} SplitByCutoff(es: seq<Entry>, cutoff: nat, f: Entry -> nat)
    ensures Sum(es, f) == Sum(Above(es, cutoff), f) + Sum(AtMost(es, cutoff), f)
  {
    if es != [] {
      var n := |es| - 1;
      SplitByCutoff(es[..n], cutoff, f);
    }
  }

  lemma {:induction false} ArrivalsSplit(s: State, ticks: seq<Tick>, month: string, f: Entry -> nat)
    ensures Sum(Arrived(ticks), f) == Sum(InTime(s, ticks, month), f) + Sum(Late(s, ticks, month), f)
  {
    if ticks != [] {
      var n := |ticks| - 1;
      var c := Cutoff(Run(s, ticks[..n], month).last, ticks[n].now);
      ArrivalsSplit(s, ticks[..n], month, f);
      SplitByCutoff(ticks[n].batch, c, f);
      SumAppend(Arrived(ticks[..n]), ticks[n].batch, f);
      SumAppend(InTime(s, ticks[..n], month), Above(ticks[n].batch, c), f);
      SumAppend(Late(s, ticks[..n], month), AtMost(ticks[n].batch, c), f);
    }
  }

  lemma {:induction false} NoCharge(m: KeyMetadata, es: seq<Entry>)
    ensures Sum(es, Tokens(m)) == 0 <==> forall e :: e in es ==> !Charges(m, e)
  {
    if es != [] {
      NoCharge(m, es[..|es| - 1]);
      assert es == es[..|es| - 1] + [es[|es| - 1]];
    }
  }

  lemma SameCountExactly(m: KeyMetadata, all: seq<Entry>, part: seq<Entry>, rest: seq<Entry>, month: string)
    requires Sum(all, Tokens(m)) == Sum(part, Tokens(m)) + Sum(rest, Tokens(m))
    requires Sum(all, Input(m)) == Sum(part, Input(m)) + Sum(rest, Input(m))
    requires Sum(all, Output(m)) == Sum(part, Output(m)) + Sum(rest, Output(m))
    ensures Counted(m, part, month) == Counted(m, all, month) <==> Sum(rest, Tokens(m)) == 0
  {
    SumsBalance(m, rest);
    if Sum(rest, Tokens(m)) != 0 {
      assert Counted(m, all, month).tokensThisMonth == Rolled(m, month).tokensThisMonth + Sum(all, Tokens(m));
      assert Counted(m, all, month).usageMonth == month;
    }
  }

  /** A key's counters equal one count over all arrivals exactly when no late entry charges it. */
  lemma TicksCountAllExactly(s: State, ticks: seq<Tick>, month: string, id: string)
    requires RunOk(s, ticks, month) && id in s.keys
    requires ticks != [] ==> Behind(s, ticks[0].now)
    ensures id in Run(s, ticks, month).keys
    ensures Run(s, ticks, month).keys[id] == Counted(s.keys[id], Arrived(ticks), month)
            <==> forall e :: e in Late(s, ticks, month) ==> !Charges(s.keys[id], e)
  {
    var m := s.keys[id];
    TicksCountOnce(s, ticks, month, id);
    ArrivalsSplit(s, ticks, month, Tokens(m));
    ArrivalsSplit(s, ticks, month, Input(m));
    ArrivalsSplit(s, ticks, month, Output(m));
    NoCharge(m, Late(s, ticks, month));
    SameCountExactly(m, Arrived(ticks), InTime(s, ticks, month), Late(s, ticks, month), month);
  }

  // ---------------------------------------------------------------------------
  // Any loads: cut by age or limit, or failed
  // ---------------------------------------------------------------------------

  /** Every load is some part of what is logged by then, and the clock does not go back. */
  ghost predicate PartialRun(s: State, ticks: seq<Tick>, month: string) {
    ticks != [] ==>
      var n := |ticks| - 1;
      && PartialRun(s, ticks[..n], month)
      && multiset(ticks[n].load) <= multiset(Run(s, ticks[..n], month).log + ticks[n].batch)
      && (n > 0 ==> ticks[n - 1].now <= ticks[n].now)
  }

  /** What the ticks read newer than their cutoffs. */
  function Read(s: State, ticks: seq<Tick>, month: string): seq<Entry> {
    if ticks == [] then []
    else
      var n := |ticks| - 1;
      Read(s, ticks[..n], month) + Above(ticks[n].load, Cutoff(Run(s, ticks[..n], month).last, ticks[n].now))
  }

  lemma {:induction false} ReadIsCounted(s: State, ticks: seq<Tick>, month: string, id: string)
    requires id in s.keys
    ensures id in Run(s, ticks, month).keys
    ensures Run(s, ticks, month).keys[id] == Counted(s.keys[id], Read(s, ticks, month), month)
  {
    if ticks != [] {
      var n := |ticks| - 1;
      ReadIsCounted(s, ticks[..n], month, id);
      CountedAppend(s.keys[id], Read(s, ticks[..n], month),
                    Above(ticks[n].load, Cutoff(Run(s, ticks[..n], month).last, ticks[n].now)), month);
    }
  }

  ghost predicate SomeCharge(m: KeyMetadata, es: seq<Entry>) {
    exists e :: e in es && Charges(m, e)
  }

  /** Over a month's end, whatever the ticks before it counted is forgotten with the first entry charged after it. */
  lemma NewMonthStartsOver(s: State, ticks: seq<Tick>, month: string, ticks': seq<Tick>, later: string, id: string)
    requires id in s.keys && month != later
    requires SomeCharge(s.keys[id], Read(s, ticks, month))
    requires SomeCharge(s.keys[id], Read(Run(s, ticks, month), ticks', later))
    ensures var m, es := s.keys[id], Read(Run(s, ticks, month), ticks', later);
            var end := Run(Run(s, ticks, month), ticks', later).keys;
            && id in end
            && end[id] == m.(usageMonth := later, tokensThisMonth := Sum(es, Tokens(m)),
                             inputTokens := Sum(es, Input(m)), outputTokens := Sum(es, Output(m)))
  {
    var mid := Run(s, ticks, month);
    var m, es := s.keys[id], Read(mid, ticks', later);
    ReadIsCounted(s, ticks, month, id);
    ReadIsCounted(mid, ticks', later, id);
    CountedIsBilled(m, Read(s, ticks, month), month);
    CountedIsBilled(mid.keys[id], es, later);
    SumsOfSame(m, mid.keys[id], es);
    var e :| e in es && Charges(m, e);
    assert Charges(mid.keys[id], e);
  }

  lemma CutoffGrows(last: nat, now: nat, es: seq<Entry>, cutoff: nat, later: nat)
    requires cutoff == Cutoff(last, now) && now <= later
    ensures Cutoff(Newest(last, Above(es, cutoff)), later) >= cutoff
    ensures forall e :: e in Above(es, cutoff) ==> e.ts <= Cutoff(Newest(last, Above(es, cutoff)), later)
  {
    AboveOnly(es, cutoff);
    NewestBounds(last, Above(es, cutoff));
    if Above(es, cutoff) != [] {
      assert Above(es, cutoff)[0] in Above(es, cutoff);
    }
  }

  /** What has been read is behind every later cutoff, and so are the entries that were behind at the start. */
  lemma {:induction false} ReadIsBehind(s: State, ticks: seq<Tick>, month: string, now: nat)
    requires PartialRun(s, ticks, month)
    requires ticks != [] ==> ticks[|ticks| - 1].now <= now && Behind(s, ticks[0].now)
    requires ticks == [] ==> Behind(s, now)
    ensures forall e :: e in Read(s, ticks, month) || e in s.log ==> e.ts <= Cutoff(Run(s, ticks, month).last, now)
  {
    if ticks != [] {
      var n := |ticks| - 1;
      var before := Run(s, ticks[..n], month);
      if n == 0 {
        assert ticks[..n] == [];
      }
      ReadIsBehind(s, ticks[..n], month, ticks[n].now);
      CutoffGrows(before.last, ticks[n].now, ticks[n].load, Cutoff(before.last, ticks[n].now), now);
    }
  }

  lemma {:induction false} RunLog(s: State, ticks: seq<Tick>, month: string)
    ensures Run(s, ticks, month).log == s.log + Arrived(ticks)
  {
    if ticks != [] { RunLog(s, ticks[..|ticks| - 1], month); }
  }

  /** Whatever the loads return, no arrival is read twice and nothing else is read. */
  lemma {:induction false} ReadOnce(s: State, ticks: seq<Tick>, month: string)
    requires PartialRun(s, ticks, month) && (ticks != [] ==> Behind(s, ticks[0].now))
    ensures multiset(Read(s, ticks, month)) <= multiset(Arrived(ticks))
  {
    if ticks != [] {
      var n := |ticks| - 1;
      var before := Run(s, ticks[..n], month);
      var c := Cutoff(before.last, ticks[n].now);
      if n == 0 {
        assert ticks[..n] == [];
      }
      ReadOnce(s, ticks[..n], month);
      ReadIsBehind(s, ticks[..n], month, ticks[n].now);
      RunLog(s, ticks[..n], month);
      ReadOnceStep(Read(s, ticks[..n], month), s.log, Arrived(ticks[..n]), ticks[n].batch, ticks[n].load, c);
    }
  }

  lemma ReadOnceStep(read: seq<Entry>, initial: seq<Entry>, arrived: seq<Entry>, batch: seq<Entry>, load: seq<Entry>,
                     cutoff: nat)
    requires multiset(read) <= multiset(arrived) && multiset(load) <= multiset(initial + arrived + batch)
    requires forall x :: x in read || x in initial ==> x.ts <= cutoff
    ensures multiset(read + Above(load, cutoff)) <= multiset(arrived + batch)
  {
    forall e: Entry ensures multiset(read + Above(load, cutoff))[e] <= multiset(arrived + batch)[e] {
      AboveCounts(load, cutoff, e);
      assert e in read <==> multiset(read)[e] > 0;
      assert e in initial <==> multiset(initial)[e] > 0;
      assert multiset(initial + arrived + batch)[e] == multiset(initial)[e] + multiset(arrived)[e] + multiset(batch)[e];
    }
  }

  /** With any loads, a key's counters equal one count over all arrivals exactly when no missed one charges it. */
  lemma AnyLoadsCountExactly(s: State, ticks: seq<Tick>, month: string, id: string, missed: seq<Entry>)
    requires id in s.keys && multiset(Read(s, ticks, month) + missed) == multiset(Arrived(ticks))
    ensures id in Run(s, ticks, month).keys
    ensures Run(s, ticks, month).keys[id] == Counted(s.keys[id], Arrived(ticks), month)
            <==> forall e :: e in missed ==> !Charges(s.keys[id], e)
  {
    var m, read := s.keys[id], Read(s, ticks, month);
    ReadIsCounted(s, ticks, month, id);
    SumOfParts(read, missed, Arrived(ticks), Tokens(m));
    SumOfParts(read, missed, Arrived(ticks), Input(m));
    SumOfParts(read, missed, Arrived(ticks), Output(m));
    NoCharge(m, missed);
    SameCountExactly(m, Arrived(ticks), read, missed, month);
  }

  lemma SumOfParts(a: seq<Entry>, b: seq<Entry>, all: seq<Entry>, f: Entry -> nat)
    requires multiset(a + b) == multiset(all)
    ensures Sum(all, f) == Sum(a, f) + Sum(b, f)
  {
    SumPermutes(a + b, all, f);
    SumAppend(a, b, f);
  }

  /** The missed arrivals, as a list, exist for every run. */
  lemma MissedExists(s: State, ticks: seq<Tick>, month: string) returns (missed: seq<Entry>)
    requires PartialRun(s, ticks, month) && (ticks != [] ==> Behind(s, ticks[0].now))
    ensures multiset(Read(s, ticks, month) + missed) == multiset(Arrived(ticks))
  {
    ReadOnce(s, ticks, month);
    missed := Listed(multiset(Arrived(ticks)) - multiset(Read(s, ticks, month)));
  }

  lemma {:induction false} Listed(es: multiset<Entry>) returns (s: seq<Entry>)
    ensures multiset(s) == es
    decreases |es|
  {
    if |es| == 0 {
      s := [];
    } else {
      var e :| e in es;
      s := Listed(es - multiset{e});
      s := s + [e];
    }
  }

  // ---------------------------------------------------------------------------
  // After an Admin restart
  // ---------------------------------------------------------------------------

  /** The watermark lives in memory only. */
  function Restarted(s: State): State {
    s.(last := 0)
  }

  /**
   The first tick after a restart looks back two minutes from its own clock: it counts again what was logged since,
   and of what arrived meanwhile it counts only what is newer than that.
   */
  lemma RestartRecounts(s: State, t: Tick, month: string, id: string)
    requires id in s.keys && LoadsNew(Restarted(s), t)
    ensures var c := SatSub(t.now, SCAN_WINDOW);
            && id in Ticked(Restarted(s), t, month).keys
            && Ticked(Restarted(s), t, month).keys[id] ==
               Counted(s.keys[id], Above(s.log, c) + Above(t.batch, c), month)
  {
    var c := SatSub(t.now, SCAN_WINDOW);
    AboveAppend(s.log, t.batch, c);
    CountedPermutes(s.keys[id], Above(t.load, c), Above(s.log, c) + Above(t.batch, c), month);
  }

  lemma {:induction false} AboveAll(es: seq<Entry>, cutoff: nat)
    requires forall e :: e in es ==> e.ts > cutoff
    ensures Above(es, cutoff) == es
  {
    if es != [] {
      assert es[|es| - 1] in es;
      AboveAll(es[..|es| - 1], cutoff);
    }
  }

  /** When nothing that arrived is older, the key is right exactly when no entry of the last two minutes charges it. */
  lemma RestartCountsExactly(s: State, t: Tick, month: string, id: string)
    requires id in s.keys && LoadsNew(Restarted(s), t)
    requires forall e :: e in t.batch ==> e.ts > SatSub(t.now, SCAN_WINDOW)
    ensures id in Ticked(Restarted(s), t, month).keys
    ensures Ticked(Restarted(s), t, month).keys[id] == Counted(s.keys[id], t.batch, month) <==>
            forall e :: e in s.log && e.ts > SatSub(t.now, SCAN_WINDOW) ==> !Charges(s.keys[id], e)
  {
    var m, c := s.keys[id], SatSub(t.now, SCAN_WINDOW);
    var again := Above(s.log, c);
    RestartRecounts(s, t, month, id);
    AboveAll(t.batch, c);
    AboveOnly(s.log, c);
    NoCharge(m, again);
    SumAppend(again, t.batch, Tokens(m));
    SumAppend(again, t.batch, Input(m));
    SumAppend(again, t.batch, Output(m));
    SameCountExactly(m, again + t.batch, t.batch, again, month);
  }

  // ---------------------------------------------------------------------------
  // One tick, as it runs
  // ---------------------------------------------------------------------------

  type Lookup = map<string, seq<string>>

  function IdsFor(lookup: Lookup, consumer: string): seq<string> {
    if consumer in lookup then lookup[consumer] else []
  }

  function Pushed(lookup: Lookup, consumer: string, id: string): Lookup {
    lookup[consumer := IdsFor(lookup, consumer) + [id]]
  }

  ghost predicate Distinct(ids: seq<string>) {
    forall i, j :: 0 <= i < j < |ids| ==> ids[i] != ids[j]
  }

  /** For a non-empty consumer, the lookup lists each of the `done` keys answering to it once. */
  ghost predicate Indexes(lookup: Lookup, keys: Keys, done: set<string>)
    requires done <= keys.Keys
  {
    && (forall c :: c != "" ==> Distinct(IdsFor(lookup, c)))
    && (forall c, id :: c != "" ==> (id in IdsFor(lookup, c) <==> id in done && AnswersTo(keys[id], c)))
  }

  /** The lookup with one more key filed under its name and under a token that differs from it. */
  function Filed(lookup: Lookup, m: KeyMetadata, id: string): Lookup {
    var named := if m.name != "" then Pushed(lookup, m.name, id) else lookup;
    if m.token != "" && m.token != m.name then Pushed(named, m.token, id) else named
  }

  lemma FiledFor(lookup: Lookup, m: KeyMetadata, id: string, c: string)
    requires c != ""
    ensures IdsFor(Filed(lookup, m, id), c) ==
            if AnswersTo(m, c) then IdsFor(lookup, c) + [id] else IdsFor(lookup, c)
  {
  }

  lemma IndexesStep(lookup: Lookup, keys: Keys, done: set<string>, id: string)
    requires done <= keys.Keys && id in keys && id !in done && Indexes(lookup, keys, done)
    ensures Indexes(Filed(lookup, keys[id], id), keys, done + {id})
  {
    forall c: string | c != ""
      ensures Distinct(IdsFor(Filed(lookup, keys[id], id), c))
      ensures forall i :: i in IdsFor(Filed(lookup, keys[id], id), c) <==> i in done + {id} && AnswersTo(keys[i], c)
    {
      FiledFor(lookup, keys[id], id, c);
      var ids := IdsFor(lookup, c);
      assert forall i :: i in ids + [id] <==> i in ids || i == id;
    }
  }

  class UsageSync {
    var keysMeta: Keys
    var lastSynced: nat

    constructor (keys: Keys)
      ensures keysMeta == keys && lastSynced == 0
    {
      keysMeta, lastSynced := keys, 0;
    }

    method BuildLookup() returns (lookup: Lookup)
      ensures Indexes(lookup, keysMeta, keysMeta.Keys)
    {
      lookup := map[];
      var pending := keysMeta.Keys;
      ghost var done := {};
      while pending != {}
        invariant pending <= keysMeta.Keys && done == keysMeta.Keys - pending
        invariant Indexes(lookup, keysMeta, done)
      {
        var id :| id in pending;
        var m := keysMeta[id];
        IndexesStep(lookup, keysMeta, done, id);
        if m.name != "" {
          lookup := Pushed(lookup, m.name, id);
        }
        if m.token != "" && m.token != m.name {
          lookup := Pushed(lookup, m.token, id);
        }
        pending, done := pending - {id}, done + {id};
      }
      assert done == keysMeta.Keys;
    }

    /** Charge one entry to each of the keys listed. */
    method Charge(ids: seq<string>, e: Entry, month: string)
      requires Distinct(ids)
      modifies this`keysMeta
      ensures keysMeta == ChargedIn(old(keysMeta), ids, e, month)
    {
      for i := 0 to |ids|
        invariant keysMeta == ChargedIn(old(keysMeta), ids[..i], e, month)
      {
        var id := ids[i];
        if id in keysMeta {
          keysMeta := keysMeta[id := Charged(keysMeta[id], e, month)];
        }
        assert ids[..i + 1] == ids[..i] + [id];
      }
      assert ids[..|ids|] == ids;
    }

    /** Charge an entry to every key that answers to its consumer. */
    method CountEntry(lookup: Lookup, ghost keys: Keys, ghost seen: seq<Entry>, e: Entry, month: string)
      requires Indexes(lookup, keys, keys.Keys)
      requires keysMeta == CountedAll(keys, seen, month)
      modifies this`keysMeta
      ensures keysMeta == CountedAll(keys, seen + [e], month)
    {
      if e.consumer.None? || e.consumer.value == "" || e.input + e.output == 0 {
        AllStep(keys, seen, [], e, month);
        assert ChargedIn(keysMeta, [], e, month) == keysMeta;
        return;
      }
      var ids := IdsFor(lookup, e.consumer.value);
      AllStep(keys, seen, ids, e, month);
      Charge(ids, e, month);
    }

    /** One tick: every key is billed for the entries past the cutoff, the watermark is the newest timestamp seen. */
    method SyncOnce(entries: seq<Entry>, now: nat, month: string)
      modifies this
      ensures keysMeta.Keys == old(keysMeta).Keys
      ensures forall id :: id in keysMeta ==>
                Billed(old(keysMeta)[id], keysMeta[id], Above(entries, Cutoff(old(lastSynced), now)), month)
      ensures keysMeta == CountedAll(old(keysMeta), Above(entries, Cutoff(old(lastSynced), now)), month)
      ensures lastSynced == Newest(old(lastSynced), Above(entries, Cutoff(old(lastSynced), now)))
    {
      var cutoff := Cutoff(lastSynced, now);
      var lookup := BuildLookup();
      var latest := lastSynced;
      ghost var keys := keysMeta;
      for n := 0 to |entries|
        invariant lastSynced == old(lastSynced)
        invariant keysMeta == CountedAll(keys, Above(entries[..n], cutoff), month)
        invariant latest == Newest(lastSynced, Above(entries[..n], cutoff))
      {
        var e := entries[n];
        ghost var seen := Above(entries[..n], cutoff);
        assert entries[..n + 1][..n] == entries[..n];
        if e.ts <= cutoff { continue; }
        if e.ts > latest { latest := e.ts; }
        assert (seen + [e])[..|seen|] == seen;
        CountEntry(lookup, keys, seen, e, month);
      }
      assert entries[..|entries|] == entries;
      if latest > lastSynced { lastSynced := latest; }
      NewestBounds(old(lastSynced), Above(entries, cutoff));
      forall id | id in keys ensures Billed(keys[id], keysMeta[id], Above(entries, cutoff), month) {
        CountedIsBilled(keys[id], Above(entries, cutoff), month);
      }
    }
  }

  function ChargedIn(keys: Keys, ids: seq<string>, e: Entry, month: string): Keys {
    map id | id in keys :: if id in ids then Charged(keys[id], e, month) else keys[id]
  }

  lemma AllStep(keys: Keys, es: seq<Entry>, ids: seq<string>, e: Entry, month: string)
    requires forall id :: id in keys ==> (id in ids <==> Charges(keys[id], e))
    ensures CountedAll(keys, es + [e], month) == ChargedIn(CountedAll(keys, es, month), ids, e, month)
  {
    forall id | id in keys
      ensures CountedAll(keys, es + [e], month)[id] == ChargedIn(CountedAll(keys, es, month), ids, e, month)[id]
    {
      CountedStep(keys[id], es, e, month);
    }
  }
}
