/**
 The connection-level circuit breaker (app/circuit_breaker.py, `CircuitBreaker`): its three
 states per connection and model, the dimmed accounts, and the selection pool it leaves.
 */
module Breaker {
  import opened Prelude

  type Time = real

  datatype Key = Key(provider: string, model: string, index: int)

  datatype Account = Account(provider: string, index: int)

  function AccountOf(k: Key): Account { Account(k.provider, k.index) }

  datatype Outcome =
    | Success | NonPenalizing | ClientError | RateLimit | Auth
    | ServerError | TimedOut | Network | UnknownError

  /** The reset time found in an error message: seconds to wait, or a point in time. */
  datatype Hint = NoHint | Seconds(s: real) | At(ts: Time)

  datatype Mode = Closed | Open | HalfOpen

  datatype Entry = Entry(mode: Mode, consecutive: int, lastFailure: Time, openedAt: Time, openUntil: Time,
                         lastSuccess: Time, failures: int, successes: int, lastError: Option<Outcome>)

  const FRESH := Entry(Closed, 0, 0.0, 0.0, 0.0, 0.0, 0, 0, None)

  const LONGEST: real := 18000.0

  datatype Settings = Settings(threshold: int, recovery: int)

  function Min(a: real, b: real): real { if a <= b then a else b }

  function Max(a: real, b: real): real { if a <= b then b else a }

  predicate Neutral(o: Outcome) { o.NonPenalizing? || o.ClientError? }

  /** An account-level failure, which opens at once and dims the account. */
  predicate Dead(o: Outcome) { o.RateLimit? || o.Auth? }

  function Cooldown(cfg: Settings, o: Outcome, hint: Hint, now: Time): real {
    var base := cfg.recovery as real;
    if o.RateLimit? && hint.Seconds? && hint.s > base then Min(hint.s, LONGEST)
    else if o.RateLimit? && hint.At? && hint.ts - now > base then Min(hint.ts - now, LONGEST)
    else base
  }

  function AfterOutcome(cfg: Settings, e: Entry, o: Outcome, hint: Hint, now: Time): Entry {
    if Neutral(o) then e
    else if o.Success? then
      e.(mode := Closed, consecutive := 0, lastSuccess := now, successes := e.successes + 1)
    else
      var f := e.(consecutive := e.consecutive + 1, failures := e.failures + 1,
                  lastFailure := now, lastError := Some(o));
      if Dead(o) then
        f.(mode := Open, openedAt := now, openUntil := now + Cooldown(cfg, o, hint, now))
      else if f.mode.HalfOpen? || (f.mode.Closed? && f.consecutive >= cfg.threshold) then
        f.(mode := Open, openedAt := now, openUntil := now + cfg.recovery as real)
      else f
  }

  /** What looking at an entry changes, and whether the connection is to be skipped. */
  function AfterLook(e: Entry, now: Time): Entry {
    if e.mode.Open? && now >= e.openUntil then e.(mode := HalfOpen) else e
  }

  predicate Skipped(e: Entry, now: Time) {
    e.mode.Open? && now < e.openUntil
  }

  function AfterReset(e: Entry): Entry {
    e.(mode := Closed, consecutive := 0, openUntil := 0.0)
  }

  // ---- A stable sort -------------------------------------------------------

  datatype Conn = Conn(index: int, conn: string)

  function Insert(c: Conn, cs: seq<Conn>, age: Conn -> Time): seq<Conn> {
    if cs == [] || age(c) <= age(cs[0]) then [c] + cs
    else [cs[0]] + Insert(c, cs[1..], age)
  }

  /** Python's `sorted` with a key. */
  function StableSort(cs: seq<Conn>, age: Conn -> Time): seq<Conn> {
    if cs == [] then [] else Insert(cs[0], StableSort(cs[1..], age), age)
  }

  /** The elements of one age, in order. */
  function OfAge(cs: seq<Conn>, age: Conn -> Time, t: Time): seq<Conn> {
    if cs == [] then []
    else (if age(cs[0]) == t then [cs[0]] else []) + OfAge(cs[1..], age, t)
  }

  predicate Ascending(cs: seq<Conn>, age: Conn -> Time) {
    forall i, j | 0 <= i < j < |cs| :: age(cs[i]) <= age(cs[j])
  }

  lemma {:induction false} InsertAscends(c: Conn, cs: seq<Conn>, age: Conn -> Time)
    requires Ascending(cs, age)
    ensures Ascending(Insert(c, cs, age), age)
    ensures Insert(c, cs, age) != []
    ensures age(Insert(c, cs, age)[0]) == if cs == [] then age(c) else Min(age(c), age(cs[0]))
    decreases |cs|
  {
    if cs != [] && age(c) > age(cs[0]) {
      InsertAscends(c, cs[1..], age);
      AscendingCons(cs[0], Insert(c, cs[1..], age), age);
    }
  }

  lemma OfAgeCons(c: Conn, cs: seq<Conn>, age: Conn -> Time, t: Time)
    ensures OfAge([c] + cs, age, t) == (if age(c) == t then [c] else []) + OfAge(cs, age, t)
  {
    assert ([c] + cs)[1..] == cs;
  }

  lemma {:induction false} InsertKeepsAges(c: Conn, cs: seq<Conn>, age: Conn -> Time, t: Time)
    ensures OfAge(Insert(c, cs, age), age, t) == (if age(c) == t then [c] else []) + OfAge(cs, age, t)
    decreases |cs|
  {
    hide OfAge;
    if cs == [] || age(c) <= age(cs[0]) {
      OfAgeCons(c, cs, age, t);
    } else {
      InsertKeepsAges(c, cs[1..], age, t);
      OfAgeCons(cs[0], Insert(c, cs[1..], age), age, t);
      OfAgeCons(cs[0], cs[1..], age, t);
      assert cs == [cs[0]] + cs[1..];
      hide Insert;
      var head, here := if age(cs[0]) == t then [cs[0]] else [], if age(c) == t then [c] else [];
      assert head == [] || here == [];
      Assoc(head, here, OfAge(cs[1..], age, t));
      Assoc(here, head, OfAge(cs[1..], age, t));
      assert head + here == here + head;
    }
  }

  lemma {:induction false} InsertKeepsAll(c: Conn, cs: seq<Conn>, age: Conn -> Time)
    ensures multiset(Insert(c, cs, age)) == multiset{c} + multiset(cs)
    decreases |cs|
  {
    if !(cs == [] || age(c) <= age(cs[0])) {
      InsertKeepsAll(c, cs[1..], age);
      assert cs == [cs[0]] + cs[1..];
    }
  }

  lemma AscendingCons(c: Conn, rest: seq<Conn>, age: Conn -> Time)
    requires Ascending(rest, age) && (rest != [] ==> age(c) <= age(rest[0]))
    ensures Ascending([c] + rest, age)
  {}

  /** The sort orders by age, loses and invents nothing, and keeps the order within an age. */
  lemma {:induction false} SortIsStable(cs: seq<Conn>, age: Conn -> Time, t: Time)
    ensures var sorted := StableSort(cs, age);
            && Ascending(sorted, age)
            && multiset(sorted) == multiset(cs)
            && OfAge(sorted, age, t) == OfAge(cs, age, t)
  {
    if cs != [] {
      hide Ascending;
      SortIsStable(cs[1..], age, t);
      InsertAscends(cs[0], StableSort(cs[1..], age), age);
      InsertKeepsAges(cs[0], StableSort(cs[1..], age), age, t);
      InsertKeepsAll(cs[0], StableSort(cs[1..], age), age);
      assert cs == [cs[0]] + cs[1..];
    }
  }

  // ---- The breaker ---------------------------------------------------------

  datatype Board = Board(enabled: bool, entries: map<Key, Entry>, dim: map<Account, Time>)

  function Recorded(cfg: Settings, b: Board, k: Key, o: Outcome, hint: Hint, now: Time): Board {
    if !b.enabled || Neutral(o) then b
    else
      var e := if k in b.entries then b.entries[k] else FRESH;
      var dim := if o.Success? then b.dim - {AccountOf(k)}
                 else if Dead(o) && AccountOf(k) !in b.dim then b.dim[AccountOf(k) := now]
                 else b.dim;
      b.(entries := b.entries[k := AfterOutcome(cfg, e, o, hint, now)], dim := dim)
  }

  function Looked(b: Board, k: Key, now: Time): Board {
    if b.enabled && k in b.entries then b.(entries := b.entries[k := AfterLook(b.entries[k], now)]) else b
  }

  predicate SkipsNow(b: Board, k: Key, now: Time) {
    b.enabled && k in b.entries && Skipped(b.entries[k], now)
  }

  /** How long a hint asks to wait. */
  function Wait(hint: Hint, now: Time): Option<real> {
    match hint
    case NoHint => None
    case Seconds(s) => Some(s)
    case At(ts) => Some(ts - now)
  }

  /** A rate limit whose hint asks for more than the recovery time. */
  predicate AsksForMore(cfg: Settings, o: Outcome, hint: Hint, now: Time) {
    o.RateLimit? && Wait(hint, now).Some? && Wait(hint, now).value > cfg.recovery as real
  }

  /** The cooldown lies between the recovery time and five hours. It is the recovery time unless
      a rate limit asks for more; then it is never longer than asked for, shorter than asked
      for exactly when that passes five hours, and shorter even than the recovery time exactly
      when that does. */
  lemma CooldownMeans(cfg: Settings, o: Outcome, hint: Hint, now: Time)
    ensures var base, c := cfg.recovery as real, Cooldown(cfg, o, hint, now);
            && Min(base, 18000.0) <= c <= Max(base, 18000.0)
            && (c != base ==> AsksForMore(cfg, o, hint, now))
            && (AsksForMore(cfg, o, hint, now) ==>
                  c <= Wait(hint, now).value && (c < Wait(hint, now).value <==> Wait(hint, now).value > 18000.0))
            && (c < base <==> AsksForMore(cfg, o, hint, now) && base > 18000.0)
  {}

  method HintedCooldown(cfg: Settings, o: Outcome, hint: Hint, now: Time) returns (cooldown: real)
    ensures cooldown == Cooldown(cfg, o, hint, now)
    ensures Min(cfg.recovery as real, LONGEST) <= cooldown <= Max(cfg.recovery as real, LONGEST)
    ensures cooldown
         == if AsksForMore(cfg, o, hint, now) then Min(Wait(hint, now).value, LONGEST) else cfg.recovery as real
  {
    CooldownMeans(cfg, o, hint, now);
    cooldown := cfg.recovery as real;
    if o.RateLimit? && hint.Seconds? {
      if hint.s > cooldown { cooldown := Min(hint.s, LONGEST); }
    } else if o.RateLimit? && hint.At? {
      if hint.ts - now > cooldown { cooldown := Min(hint.ts - now, LONGEST); }
    }
  }

  /** The assignments of `record_outcome` to the connection's entry. */
  method UpdateEntry(cfg: Settings, e: Entry, o: Outcome, hint: Hint, now: Time) returns (entry: Entry)
    requires !Neutral(o)
    ensures entry == AfterOutcome(cfg, e, o, hint, now)
  {
    hide Cooldown, Min, Max, Wait, AsksForMore;
    entry := e;
    if o.Success? {
      entry := entry.(mode := Closed, consecutive := 0);
      entry := entry.(lastSuccess := now, successes := entry.successes + 1);
      return;
    }
    entry := entry.(consecutive := entry.consecutive + 1, failures := entry.failures + 1);
    entry := entry.(lastFailure := now, lastError := Some(o));
    if o.RateLimit? || o.Auth? {
      var cooldown := HintedCooldown(cfg, o, hint, now);
      entry := entry.(mode := Open, openedAt := now, openUntil := now + cooldown);
    } else if entry.mode.HalfOpen? {
      entry := entry.(mode := Open, openedAt := now, openUntil := now + cfg.recovery as real);
    } else if entry.mode.Closed? && entry.consecutive >= cfg.threshold {
      entry := entry.(mode := Open, openedAt := now, openUntil := now + cfg.recovery as real);
    }
  }

  class Breaker {
    var enabled: bool
    var cfg: Settings
    var entries: map<Key, Entry>
    var dim: map<Account, Time>

    function Contents(): Board
      reads this
    {
      Board(enabled, entries, dim)
    }

    constructor (on: bool, settings: Settings)
      ensures cfg == settings && Contents() == Board(on, map[], map[])
    {
      enabled, cfg, entries, dim := on, settings, map[], map[];
    }

    /** `reconfigure`: accumulated health is kept. */
    method Reconfigure(on: bool, settings: Settings)
      modifies this`enabled, this`cfg
      ensures cfg == settings && Contents() == old(Contents()).(enabled := on)
    {
      enabled, cfg := on, settings;
    }

    method RecordOutcome(provider: string, model: string, index: int, o: Outcome, hint: Hint, now: Time)
      modifies this`entries, this`dim
      ensures Contents() == Recorded(cfg, old(Contents()), Key(provider, model, index), o, hint, now)
    {
      hide AfterOutcome;
      if !enabled { return; }
      if o.NonPenalizing? || o.ClientError? { return; }
      var key := Key(provider, model, index);
      var entry := if key in entries then entries[key] else FRESH;
      entry := UpdateEntry(cfg, entry, o, hint, now);
      entries := entries[key := entry];
      if o.Success? {
        dim := dim - {Account(provider, index)};
      } else if o.RateLimit? || o.Auth? {
        if Account(provider, index) !in dim { dim := dim[Account(provider, index) := now]; }
      }
    }

    method IsOpen(provider: string, model: string, index: int, now: Time) returns (skip: bool, remaining: Option<Time>)
      modifies this`entries
      ensures Contents() == Looked(old(Contents()), Key(provider, model, index), now)
      ensures skip == SkipsNow(old(Contents()), Key(provider, model, index), now)
      ensures remaining == if skip then Some(old(entries)[Key(provider, model, index)].openUntil - now) else None
      ensures skip ==> remaining.value > 0.0
    {
      var key := Key(provider, model, index);
      if !enabled || key !in entries { return false, None; }
      var entry := entries[key];
      if entry.mode.Open? {
        if now >= entry.openUntil {
          entries := entries[key := entry.(mode := HalfOpen)];
          return false, None;
        }
        assert entries == entries[key := entry];
        return true, Some(entry.openUntil - now);
      }
      assert entries == entries[key := entry];
      return false, None;
    }

    /** The pool to select from; `clock` holds the time of each look. */
    method FilterHealthyConnections(provider: string, model: string, connections: seq<Conn>, clock: seq<Time>)
      returns (pool: seq<Conn>)
      requires |clock| == |connections|
      modifies this`entries
      ensures !enabled || connections == [] ==> pool == connections && Contents() == old(Contents())
      ensures enabled ==> Contents() == LookedAll(old(Contents()), provider, model, connections, clock)
      ensures enabled ==> pool == Pool(old(Contents()), provider, model, connections, clock)
      ensures connections != [] ==> pool != []
    {
      hide Looked, SkipsNow, StableSort, LookedAll, Healthy;
      if !enabled || connections == [] {
        NoLooks(Contents(), provider, model, connections, clock);
        return connections;
      }
      var healthy: seq<Conn> := [];
      ghost var was := Contents();
      NoLooks(was, provider, model, connections, clock);
      for i := 0 to |connections|
        invariant Contents() == LookedAll(was, provider, model, connections[..i], clock[..i])
        invariant healthy == Healthy(was, provider, model, connections[..i], clock[..i])
      {
        LookSnoc(was, provider, model, connections, clock, i);
        var skip, remaining := IsOpen(provider, model, connections[i].index, clock[i]);
        if !skip { healthy := healthy + [connections[i]]; }
      }
      assert connections[..|connections|] == connections && clock[..|clock|] == clock;
      if healthy != [] { return healthy; }
      pool := StableSort(connections, LastFailure(entries, provider, model));
      SortIsStable(connections, LastFailure(entries, provider, model), 0.0);
      assert |multiset(connections)| == |connections|;
    }

    method ResetAll()
      modifies this`entries, this`dim
      ensures Contents() == Cleared(old(Contents()))
    {
      ghost var was := entries;
      var todo := entries.Keys;
      while todo != {}
        invariant todo <= entries.Keys == was.Keys
        invariant forall k | k in was :: entries[k] == if k in todo then was[k] else AfterReset(was[k])
        decreases |todo|
      {
        var k :| k in todo;
        todo := todo - {k};
        entries := entries[k := AfterReset(entries[k])];
      }
      dim := map[];
    }

    method ResetConnection(provider: string, index: int)
      modifies this`entries, this`dim
      ensures Contents() == Forgotten(old(Contents()), Account(provider, index))
    {
      ghost var was := entries;
      var doomed := set k | k in entries && k.provider == provider && k.index == index;
      while doomed != {}
        invariant dim == old(dim)
        invariant forall k | k in doomed :: k in entries && AccountOf(k) == Account(provider, index)
        invariant forall k | k in entries :: k in was && entries[k] == was[k]
        invariant forall k | k in was :: k in entries <==> AccountOf(k) != Account(provider, index) || k in doomed
        decreases |doomed|
      {
        var k :| k in doomed;
        doomed := doomed - {k};
        entries := entries - {k};
      }
      assert entries == Forgotten(old(Contents()), Account(provider, index)).entries;
      dim := dim - {Account(provider, index)};
    }
  }

  function LastFailure(entries: map<Key, Entry>, provider: string, model: string): Conn -> Time {
    (c: Conn) =>
      var k := Key(provider, model, c.index);
      if k in entries then entries[k].lastFailure else 0.0
  }

  function Cleared(b: Board): Board {
    b.(entries := map k | k in b.entries :: AfterReset(b.entries[k]), dim := map[])
  }

  function Forgotten(b: Board, a: Account): Board {
    b.(entries := map k | k in b.entries && AccountOf(k) != a :: b.entries[k], dim := b.dim - {a})
  }

  function LookedAll(b: Board, provider: string, model: string, cs: seq<Conn>, clock: seq<Time>): Board
    requires |clock| == |cs|
  {
    if cs == [] then b
    else
      var n := |cs| - 1;
      Looked(LookedAll(b, provider, model, cs[..n], clock[..n]), Key(provider, model, cs[n].index), clock[n])
  }

  /** The connections that are not skipped when looked at, in order. */
  function Healthy(b: Board, provider: string, model: string, cs: seq<Conn>, clock: seq<Time>): seq<Conn>
    requires |clock| == |cs|
  {
    if cs == [] then []
    else
      var n := |cs| - 1;
      var before := LookedAll(b, provider, model, cs[..n], clock[..n]);
      Healthy(b, provider, model, cs[..n], clock[..n])
      + if SkipsNow(before, Key(provider, model, cs[n].index), clock[n]) then [] else [cs[n]]
  }

  function Pool(b: Board, provider: string, model: string, cs: seq<Conn>, clock: seq<Time>): seq<Conn>
    requires |clock| == |cs|
  {
    var healthy := Healthy(b, provider, model, cs, clock);
    if healthy != [] then healthy
    else
      var after := LookedAll(b, provider, model, cs, clock).entries;
      StableSort(cs, LastFailure(after, provider, model))
  }

  lemma NoLooks(b: Board, provider: string, model: string, cs: seq<Conn>, clock: seq<Time>)
    requires |clock| == |cs|
    ensures LookedAll(b, provider, model, cs[..0], clock[..0]) == b
    ensures Healthy(b, provider, model, cs[..0], clock[..0]) == []
    ensures cs == [] ==> LookedAll(b, provider, model, cs, clock) == b && Pool(b, provider, model, cs, clock) == []
  {}

  lemma LookSnoc(b: Board, provider: string, model: string, cs: seq<Conn>, clock: seq<Time>, i: nat)
    requires |clock| == |cs| && i < |cs|
    ensures var before := LookedAll(b, provider, model, cs[..i], clock[..i]);
            var k := Key(provider, model, cs[i].index);
            && LookedAll(b, provider, model, cs[..i + 1], clock[..i + 1]) == Looked(before, k, clock[i])
            && Healthy(b, provider, model, cs[..i + 1], clock[..i + 1])
               == Healthy(b, provider, model, cs[..i], clock[..i])
                  + if SkipsNow(before, k, clock[i]) then [] else [cs[i]]
  {
    hide Looked, SkipsNow;
    assert cs[..i + 1][..i] == cs[..i] && clock[..i + 1][..i] == clock[..i];
  }

  // ---- Runs ----------------------------------------------------------------

  datatype Event =
    | Result(key: Key, outcome: Outcome, hint: Hint)
    | Look(key: Key)
    | Reset
    | Rearm(account: Account)
    | Toggle(on: bool)

  type Run = seq<(Event, Time)>

  function Step(cfg: Settings, b: Board, e: Event, now: Time): Board {
    match e
    case Result(k, o, hint) => Recorded(cfg, b, k, o, hint, now)
    case Look(k) => Looked(b, k, now)
    case Reset => Cleared(b)
    case Rearm(a) => Forgotten(b, a)
    case Toggle(on) => b.(enabled := on)
  }

  function After(cfg: Settings, start: bool, run: Run): Board {
    if run == [] then Board(start, map[], map[])
    else Step(cfg, After(cfg, start, run[..|run| - 1]), run[|run| - 1].0, run[|run| - 1].1)
  }

  /** What holds of every tracked connection. */
  predicate Sane(cfg: Settings, e: Entry) {
    && 0 <= e.consecutive <= e.failures
    && (e.mode.Closed? ==> e.consecutive < cfg.threshold)
    && (e.mode.Open? ==>
          Min(cfg.recovery as real, 18000.0) <= e.openUntil - e.openedAt <= Max(cfg.recovery as real, 18000.0))
  }

  lemma OutcomeKeepsSane(cfg: Settings, e: Entry, o: Outcome, hint: Hint, now: Time)
    requires cfg.threshold >= 1 && Sane(cfg, e)
    ensures Sane(cfg, AfterOutcome(cfg, e, o, hint, now))
  {
    hide Cooldown;
    CooldownMeans(cfg, o, hint, now);
  }

  predicate AllSane(cfg: Settings, b: Board) {
    forall k | k in b.entries :: Sane(cfg, b.entries[k])
  }

  lemma StepKeepsSane(cfg: Settings, b: Board, e: Event, now: Time)
    requires cfg.threshold >= 1 && AllSane(cfg, b)
    ensures AllSane(cfg, Step(cfg, b, e, now))
  {
    hide AfterOutcome;
    if e.Result? {
      var before := if e.key in b.entries then b.entries[e.key] else FRESH;
      OutcomeKeepsSane(cfg, before, e.outcome, e.hint, now);
      hide Sane;
    }
  }

  /** In every run: a CLOSED connection has fewer consecutive failures than the threshold,
      consecutive failures never exceed the total, and an OPEN one was opened for a time
      between the recovery time and five hours. */
  lemma {:induction false} AlwaysSane(cfg: Settings, start: bool, run: Run)
    requires cfg.threshold >= 1
    ensures AllSane(cfg, After(cfg, start, run))
    decreases |run|
  {
    hide Step, Sane;
    if run != [] {
      AlwaysSane(cfg, start, run[..|run| - 1]);
      StepKeepsSane(cfg, After(cfg, start, run[..|run| - 1]), run[|run| - 1].0, run[|run| - 1].1);
    }
  }

  /** A connection becomes HALF_OPEN only from OPEN, when looked at, at or after the end of
      its open time; and OPEN is otherwise left only by a success or a reset. */
  lemma HalfOpenOnlyAfterWaiting(cfg: Settings, b: Board, e: Event, now: Time, k: Key)
    requires k in b.entries
    ensures var b' := Step(cfg, b, e, now);
            && (k in b'.entries && b'.entries[k].mode.HalfOpen? && !b.entries[k].mode.HalfOpen? ==>
                  b.entries[k].mode.Open? && b.entries[k].openUntil <= now && e == Look(k))
            && (b.entries[k].mode.Open? && k in b'.entries && b'.entries[k].mode.Closed? ==>
                  e.Reset? || (e.Result? && e.key == k && e.outcome.Success?))
  {
    hide Cooldown;
  }

  /** The run's `i`-th event, recorded while the breaker is on or off, dims the account. */
  predicate Dims(e: Event, on: bool, a: Account) {
    e.Result? && Account(e.key.provider, e.key.index) == a && on && (e.outcome.RateLimit? || e.outcome.Auth?)
  }

  predicate Undims(e: Event, on: bool, a: Account) {
    match e
    case Result(k, o, _) => Account(k.provider, k.index) == a && on && o.Success?
    case Reset => true
    case Rearm(x) => x == a
    case _ => false
  }

  function On(cfg: Settings, start: bool, run: Run, i: nat): bool
    requires i <= |run|
  {
    After(cfg, start, run[..i]).enabled
  }

  /** The `i`-th event dims the account and nothing after it undims it. */
  predicate DimsForGood(cfg: Settings, start: bool, run: Run, a: Account, i: nat) {
    && i < |run| && Dims(run[i].0, On(cfg, start, run, i), a)
    && forall j | i < j < |run| :: !Undims(run[j].0, On(cfg, start, run, j), a)
  }

  lemma DimsForGoodSnoc(cfg: Settings, start: bool, run: Run, a: Account, i: nat)
    requires run != []
    ensures var n := |run| - 1;
            var (e, on) := (run[n].0, On(cfg, start, run, n));
            && (i < n ==> (DimsForGood(cfg, start, run, a, i) <==>
                             DimsForGood(cfg, start, run[..n], a, i) && !Undims(e, on, a)))
            && (i == n ==> (DimsForGood(cfg, start, run, a, i) <==> Dims(e, on, a)))
  {
    hide After, Dims, Undims;
    var n := |run| - 1;
    forall j | 0 <= j < n ensures On(cfg, start, run[..n], j) == On(cfg, start, run, j) {
      assert run[..n][..j] == run[..j];
    }
  }

  /** The step that one event takes the dim of one account through. */
  lemma DimStep(cfg: Settings, b: Board, e: Event, now: Time, a: Account)
    ensures var b' := Step(cfg, b, e, now);
            && (Undims(e, b.enabled, a) ==> a !in b'.dim)
            && (Dims(e, b.enabled, a) ==> a in b'.dim && b'.dim[a] == if a in b.dim then b.dim[a] else now)
            && (!Undims(e, b.enabled, a) && !Dims(e, b.enabled, a) ==>
                  (a in b'.dim <==> a in b.dim) && (a in b.dim ==> b'.dim[a] == b.dim[a]))
  {
    hide AfterOutcome, AfterLook, AfterReset;
  }

  ghost predicate DimmedBySome(cfg: Settings, start: bool, run: Run, a: Account) {
    exists i: nat :: DimsForGood(cfg, start, run, a, i)
  }

  /** The first of the events that keep the account dim. */
  ghost predicate FirstDims(cfg: Settings, start: bool, run: Run, a: Account, i: nat) {
    DimsForGood(cfg, start, run, a, i) && forall h: nat | h < i :: !DimsForGood(cfg, start, run, a, h)
  }

  lemma DimsNotUndims(e: Event, on: bool, a: Account)
    ensures !(Dims(e, on, a) && Undims(e, on, a))
  {}

  lemma DimmedSnoc(cfg: Settings, start: bool, run: Run, a: Account)
    requires run != []
    ensures var n := |run| - 1;
            var (e, on) := (run[n].0, On(cfg, start, run, n));
            DimmedBySome(cfg, start, run, a)
            <==> Dims(e, on, a) || (!Undims(e, on, a) && DimmedBySome(cfg, start, run[..n], a))
  {
    hide After, On, Dims, Undims;
    var n := |run| - 1;
    var (e, on) := (run[n].0, On(cfg, start, run, n));
    DimsNotUndims(e, on, a);
    forall i: nat { DimsForGoodSnoc(cfg, start, run, a, i); }
    forall i: nat | DimsForGood(cfg, start, run, a, i) ensures i <= n {}
    forall i: nat | DimsForGood(cfg, start, run[..n], a, i) ensures i < n {}
    hide DimsForGood;
    if Dims(e, on, a) { assert DimsForGood(cfg, start, run, a, n); }
    if DimmedBySome(cfg, start, run[..n], a) && !Undims(e, on, a) {
      var i: nat :| DimsForGood(cfg, start, run[..n], a, i);
      assert DimsForGood(cfg, start, run, a, i);
    }
  }

  lemma FirstSnoc(cfg: Settings, start: bool, run: Run, a: Account, i: nat)
    requires run != [] && FirstDims(cfg, start, run, a, i)
    ensures var n := |run| - 1;
            var (e, on) := (run[n].0, On(cfg, start, run, n));
            && i <= n
            && (i < n ==> FirstDims(cfg, start, run[..n], a, i) && !Undims(e, on, a))
            && (i == n ==> Dims(e, on, a) && (!Undims(e, on, a) ==> !DimmedBySome(cfg, start, run[..n], a)))
  {
    hide After, On, Dims, Undims;
    var n := |run| - 1;
    DimsForGoodSnoc(cfg, start, run, a, i);
    forall h: nat | h < i || i == n
      ensures !(DimsForGood(cfg, start, run[..n], a, h) && !Undims(run[n].0, On(cfg, start, run, n), a))
    {
      DimsForGoodSnoc(cfg, start, run, a, h);
    }
  }

  /** In every run an account is dim exactly when a rate-limit or auth outcome on any of its
      models, recorded while the breaker was on, is followed by no recorded success on it, no
      reset and no re-arming. */
  lemma {:induction false} DimExactly(cfg: Settings, start: bool, run: Run, a: Account)
    ensures a in After(cfg, start, run).dim <==> exists i: nat :: DimsForGood(cfg, start, run, a, i)
    decreases |run|
  {
    if run != [] {
      var n := |run| - 1;
      var b := After(cfg, start, run[..n]);
      assert After(cfg, start, run) == Step(cfg, b, run[n].0, run[n].1) && On(cfg, start, run, n) == b.enabled;
      hide After, Step, Dims, Undims, DimsForGood, On;
      DimExactly(cfg, start, run[..n], a);
      DimStep(cfg, b, run[n].0, run[n].1, a);
      DimmedSnoc(cfg, start, run, a);
    }
  }

  /** The time shown for a dim account is that of the first such outcome. */
  lemma {:induction false} DimShowsFirst(cfg: Settings, start: bool, run: Run, a: Account, i: nat)
    requires FirstDims(cfg, start, run, a, i)
    ensures i < |run| && a in After(cfg, start, run).dim && After(cfg, start, run).dim[a] == run[i].1
    decreases |run|
  {
    assert i < |run|;
    var n := |run| - 1;
    var b := After(cfg, start, run[..n]);
    assert After(cfg, start, run) == Step(cfg, b, run[n].0, run[n].1) && On(cfg, start, run, n) == b.enabled;
    hide After, Step, Dims, Undims, DimsForGood, On, FirstDims;
    FirstSnoc(cfg, start, run, a, i);
    DimStep(cfg, b, run[n].0, run[n].1, a);
    DimsNotUndims(run[n].0, b.enabled, a);
    if i < n {
      DimShowsFirst(cfg, start, run[..n], a, i);
    } else {
      DimExactly(cfg, start, run[..n], a);
    }
  }

  /** Events during which an opened connection stays opened: looks, neutral outcomes and
      lesser failures on it, and anything on other connections. */
  predicate LeavesOpen(e: Event, k: Key) {
    match e
    case Result(x, o, _) => x != k || !(o.Success? || o.RateLimit? || o.Auth?)
    case Look(_) => true
    case Reset => false
    case Rearm(a) => a != Account(k.provider, k.index)
    case Toggle(on) => on
  }

  predicate OpenTill(b: Board, k: Key, until: Time) {
    b.enabled && k in b.entries && b.entries[k].mode.Open? && b.entries[k].openUntil == until
  }

  lemma StepLeavesOpen(cfg: Settings, b: Board, e: Event, now: Time, k: Key, until: Time)
    requires OpenTill(b, k, until) && LeavesOpen(e, k) && now < until
    ensures OpenTill(Step(cfg, b, e, now), k, until)
  {
    hide Cooldown;
  }

  lemma AfterSnoc(cfg: Settings, start: bool, run: Run, e: Event, now: Time)
    ensures After(cfg, start, run + [(e, now)]) == Step(cfg, After(cfg, start, run), e, now)
  {
    hide Step;
    assert (run + [(e, now)])[..|run|] == run;
  }

  /** After a rate-limit or auth outcome, through any later looks, lesser failures and traffic
      on other connections, the connection is skipped for its whole cooldown: the time asked
      for by the provider, if longer than the recovery time, but at most five hours. */
  lemma {:induction false} OpenForItsCooldown(cfg: Settings, start: bool, run: Run, k: Key, o: Outcome, hint: Hint,
                                              at: Time, later: Run, now: Time)
    requires After(cfg, start, run).enabled && (o.RateLimit? || o.Auth?)
    requires forall i | 0 <= i < |later| :: LeavesOpen(later[i].0, k) && later[i].1 < at + Cooldown(cfg, o, hint, at)
    ensures var b := After(cfg, start, run + [(Result(k, o, hint), at)] + later);
            && OpenTill(b, k, at + Cooldown(cfg, o, hint, at))
            && (SkipsNow(b, k, now) <==> now < at + Cooldown(cfg, o, hint, at))
    decreases |later|
  {
    hide After, Step, Cooldown, LeavesOpen;
    var first := Result(k, o, hint);
    var until := at + Cooldown(cfg, o, hint, at);
    if later == [] {
      AfterSnoc(cfg, start, run, first, at);
      assert run + [(first, at)] + later == run + [(first, at)];
      DeadOpens(cfg, After(cfg, start, run), k, o, hint, at);
    } else {
      var n := |later| - 1;
      OpenForItsCooldown(cfg, start, run, k, o, hint, at, later[..n], now);
      assert run + [(first, at)] + later == run + [(first, at)] + later[..n] + [later[n]];
      AfterSnoc(cfg, start, run + [(first, at)] + later[..n], later[n].0, later[n].1);
      StepLeavesOpen(cfg, After(cfg, start, run + [(first, at)] + later[..n]), later[n].0, later[n].1, k, until);
    }
  }

  lemma DeadOpens(cfg: Settings, b: Board, k: Key, o: Outcome, hint: Hint, at: Time)
    requires b.enabled && Dead(o)
    ensures OpenTill(Step(cfg, b, Result(k, o, hint), at), k, at + Cooldown(cfg, o, hint, at))
  {
    hide Cooldown;
  }

  /** In every run a HALF_OPEN connection was OPEN until it was looked at, at or after the end of
      that opening. */
  lemma {:induction false} HalfOpenWaited(cfg: Settings, start: bool, run: Run, k: Key) returns (i: nat)
    ensures var b := After(cfg, start, run);
            k in b.entries && b.entries[k].mode.HalfOpen? ==>
              && i < |run| && run[i].0 == Look(k) && run[i].1 >= b.entries[k].openUntil
              && var was := After(cfg, start, run[..i]);
                 k in was.entries && was.entries[k].mode.Open? && was.entries[k].openUntil == b.entries[k].openUntil
    decreases |run|
  {
    i := 0;
    if run != [] {
      var n := |run| - 1;
      var before := After(cfg, start, run[..n]);
      i := HalfOpenWaited(cfg, start, run[..n], k);
      HalfOpenStep(cfg, before, run[n].0, run[n].1, k);
      assert After(cfg, start, run) == Step(cfg, before, run[n].0, run[n].1);
      hide After, Step;
      if k in before.entries && before.entries[k].mode.HalfOpen? {
        assert run[..n][..i] == run[..i];
      } else {
        i := n;
      }
    }
  }

  lemma HalfOpenStep(cfg: Settings, b: Board, e: Event, now: Time, k: Key)
    ensures var b' := Step(cfg, b, e, now);
            k in b'.entries && b'.entries[k].mode.HalfOpen? ==>
              && k in b.entries && b'.entries[k].openUntil == b.entries[k].openUntil
              && (b.entries[k].mode.HalfOpen?
                  || (b.entries[k].mode.Open? && e == Look(k) && b.entries[k].openUntil <= now))
  {
    hide Cooldown;
  }

  // ---- When a lesser failure opens -----------------------------------------

  /** Whether the breaker is on, told from the switches alone. */
  function SwitchedOn(start: bool, run: Run): bool {
    if run == [] then start
    else if run[|run| - 1].0.Toggle? then run[|run| - 1].0.on
    else SwitchedOn(start, run[..|run| - 1])
  }

  /** Failures counted on a connection since its last recorded success, a reset or a re-arming of
      its account, told from the events alone. */
  function Failures(start: bool, run: Run, k: Key): nat {
    if run == [] then 0
    else
      var before := Failures(start, run[..|run| - 1], k);
      var on := SwitchedOn(start, run[..|run| - 1]);
      match run[|run| - 1].0
      case Result(x, o, _) =>
        if x != k || !on || o.NonPenalizing? || o.ClientError? then before
        else if o.Success? then 0
        else before + 1
      case Reset => 0
      case Rearm(a) => if a == Account(k.provider, k.index) then 0 else before
      case _ => before
  }

  function EntryOf(b: Board, k: Key): Entry {
    if k in b.entries then b.entries[k] else FRESH
  }

  lemma CountStep(cfg: Settings, b: Board, e: Event, now: Time, k: Key)
    ensures var was, b' := EntryOf(b, k).consecutive, Step(cfg, b, e, now);
            && b'.enabled == (if e.Toggle? then e.on else b.enabled)
            && EntryOf(b', k).consecutive
               == match e
                  case Result(x, o, _) =>
                    if x != k || !b.enabled || o.NonPenalizing? || o.ClientError? then was
                    else if o.Success? then 0 else was + 1
                  case Reset => 0
                  case Rearm(a) => if a == Account(k.provider, k.index) then 0 else was
                  case _ => was
  {
    hide Cooldown;
  }

  lemma {:induction false} CountsFailures(cfg: Settings, start: bool, run: Run, k: Key)
    ensures After(cfg, start, run).enabled == SwitchedOn(start, run)
    ensures EntryOf(After(cfg, start, run), k).consecutive == Failures(start, run, k)
    decreases |run|
  {
    hide Step;
    if run != [] {
      var n := |run| - 1;
      CountsFailures(cfg, start, run[..n], k);
      CountStep(cfg, After(cfg, start, run[..n]), run[n].0, run[n].1, k);
    }
  }

  /** What the dashboard shows of a connection. */
  datatype Tally = Tally(failures: int, successes: int, lastFailure: Time, lastSuccess: Time,
                         lastError: Option<Outcome>)

  /** The tally of a connection since its account was last re-armed, told from the events alone. */
  function TallyOf(start: bool, run: Run, k: Key): Tally {
    if run == [] then Tally(0, 0, 0.0, 0.0, None)
    else
      var before := TallyOf(start, run[..|run| - 1], k);
      var on := SwitchedOn(start, run[..|run| - 1]);
      var (e, now) := run[|run| - 1];
      match e
      case Result(x, o, _) =>
        if x != k || !on || o.NonPenalizing? || o.ClientError? then before
        else if o.Success? then before.(successes := before.successes + 1, lastSuccess := now)
        else before.(failures := before.failures + 1, lastFailure := now, lastError := Some(o))
      case Rearm(a) => if a == Account(k.provider, k.index) then Tally(0, 0, 0.0, 0.0, None) else before
      case _ => before
  }

  function Shown(e: Entry): Tally {
    Tally(e.failures, e.successes, e.lastFailure, e.lastSuccess, e.lastError)
  }

  lemma TallyStep(cfg: Settings, b: Board, e: Event, now: Time, k: Key)
    ensures var was := Shown(EntryOf(b, k));
            Shown(EntryOf(Step(cfg, b, e, now), k))
            == match e
               case Result(x, o, _) =>
                 if x != k || !b.enabled || o.NonPenalizing? || o.ClientError? then was
                 else if o.Success? then was.(successes := was.successes + 1, lastSuccess := now)
                 else was.(failures := was.failures + 1, lastFailure := now, lastError := Some(o))
               case Rearm(a) => if a == Account(k.provider, k.index) then Tally(0, 0, 0.0, 0.0, None) else was
               case _ => was
  {
    hide Cooldown;
  }

  /** In every run the counters and times kept are those of the events. */
  lemma {:induction false} TalliesAreKept(cfg: Settings, start: bool, run: Run, k: Key)
    ensures Shown(EntryOf(After(cfg, start, run), k)) == TallyOf(start, run, k)
    decreases |run|
  {
    hide Step, Shown, EntryOf;
    if run != [] {
      var n := |run| - 1;
      TalliesAreKept(cfg, start, run[..n], k);
      CountsFailures(cfg, start, run[..n], k);
      TallyStep(cfg, After(cfg, start, run[..n]), run[n].0, run[n].1, k);
    } else {
      NothingTallied(cfg, start, k);
    }
  }

  lemma NothingTallied(cfg: Settings, start: bool, k: Key)
    ensures Shown(EntryOf(After(cfg, start, []), k)) == Tally(0, 0, 0.0, 0.0, None)
  {}

  /** A failure that neither a rate limit nor an auth error is. */
  predicate Lesser(o: Outcome) {
    o.ServerError? || o.TimedOut? || o.Network? || o.UnknownError?
  }

  /** In every run, a lesser failure recorded on a closed connection opens it exactly when it is at
      least the threshold-th failure counted since the last success, reset or re-arming; on a
      half-open one it opens it in any case, both times for the recovery time; an open one stays
      open until the same time. */
  lemma LesserFailureOpensExactly(cfg: Settings, start: bool, run: Run, k: Key, o: Outcome, hint: Hint, now: Time)
    requires SwitchedOn(start, run) && Lesser(o)
    ensures var was := EntryOf(After(cfg, start, run), k);
            var b := After(cfg, start, run + [(Result(k, o, hint), now)]);
            && k in b.entries
            && var e := b.entries[k];
               && (was.mode.Closed? ==>
                     (e.mode.Open? <==> Failures(start, run, k) + 1 >= cfg.threshold)
                     && (e.mode.Open? || e.mode.Closed?))
               && (was.mode.HalfOpen? ==> e.mode.Open?)
               && (!was.mode.Open? && e.mode.Open? ==> e.openUntil == now + cfg.recovery as real)
               && (was.mode.Open? ==> e.mode.Open? && e.openUntil == was.openUntil)
  {
    hide After, Failures, SwitchedOn, Cooldown;
    CountsFailures(cfg, start, run, k);
    AfterSnoc(cfg, start, run, Result(k, o, hint), now);
  }

  /** In every run, an event closes a connection that was not closed exactly when it is a recorded
      success on it, a reset or a re-arming of its account, which also forgets its history; and
      it makes it half-open exactly when it is a look at an open one at or after its end. */
  lemma ModeChangesExactly(cfg: Settings, start: bool, run: Run, k: Key, e: Event, now: Time)
    ensures var was := EntryOf(After(cfg, start, run), k);
            var later := EntryOf(After(cfg, start, run + [(e, now)]), k);
            && (!was.mode.Closed? ==>
                  (later.mode.Closed?
                   <==> (e.Result? && e.key == k && e.outcome.Success? && SwitchedOn(start, run)) || e.Reset?
                        || (e.Rearm? && e.account == Account(k.provider, k.index))))
            && (!was.mode.HalfOpen? ==>
                  (later.mode.HalfOpen?
                   <==> was.mode.Open? && e.Look? && e.key == k && SwitchedOn(start, run) && now >= was.openUntil))
            && (!was.mode.Open? && later.mode.Open? ==>
                  e.Result? && e.key == k && SwitchedOn(start, run)
                  && (Lesser(e.outcome) || e.outcome.RateLimit? || e.outcome.Auth?))
            && (e.Reset? ==> later.openUntil == 0.0)
            && (e.Rearm? && e.account == Account(k.provider, k.index) ==>
                  later == Entry(Closed, 0, 0.0, 0.0, 0.0, 0.0, 0, 0, None))
  {
    hide After, SwitchedOn, Cooldown;
    CountsFailures(cfg, start, run, k);
    AfterSnoc(cfg, start, run, e, now);
  }

  // ---- The selection pool --------------------------------------------------

  /** Looking at one connection does not change whether another is skipped. */
  lemma LookIsLocal(b: Board, k: Key, now: Time, other: Key, at: Time)
    requires now <= at
    ensures SkipsNow(Looked(b, k, now), other, at) == SkipsNow(b, other, at)
  {}

  /** The pool holds exactly the connections that are not skipped when looked at, judged by
      the state before the call, in their order. */
  function NotSkipped(b: Board, provider: string, model: string, cs: seq<Conn>, clock: seq<Time>): seq<Conn>
    requires |clock| == |cs|
  {
    if cs == [] then []
    else
      var n := |cs| - 1;
      NotSkipped(b, provider, model, cs[..n], clock[..n])
      + if SkipsNow(b, Key(provider, model, cs[n].index), clock[n]) then [] else [cs[n]]
  }

  predicate Ticking(clock: seq<Time>) {
    forall i, j | 0 <= i < j < |clock| :: clock[i] <= clock[j]
  }

  lemma {:induction false} LooksAreLocal(b: Board, provider: string, model: string, cs: seq<Conn>, clock: seq<Time>,
                                         k: Key, at: Time)
    requires |clock| == |cs| && forall i | 0 <= i < |clock| :: clock[i] <= at
    ensures SkipsNow(LookedAll(b, provider, model, cs, clock), k, at) == SkipsNow(b, k, at)
    decreases |cs|
  {
    hide Looked, SkipsNow;
    if cs != [] {
      var n := |cs| - 1;
      LooksAreLocal(b, provider, model, cs[..n], clock[..n], k, at);
      LookIsLocal(LookedAll(b, provider, model, cs[..n], clock[..n]), Key(provider, model, cs[n].index),
                  clock[n], k, at);
    }
  }

  lemma {:induction false} HealthyIsNotSkipped(b: Board, provider: string, model: string, cs: seq<Conn>,
                                               clock: seq<Time>)
    requires |clock| == |cs| && Ticking(clock)
    ensures Healthy(b, provider, model, cs, clock) == NotSkipped(b, provider, model, cs, clock)
    decreases |cs|
  {
    hide SkipsNow, LookedAll;
    if cs != [] {
      var n := |cs| - 1;
      HealthyIsNotSkipped(b, provider, model, cs[..n], clock[..n]);
      LooksAreLocal(b, provider, model, cs[..n], clock[..n], Key(provider, model, cs[n].index), clock[n]);
    }
  }

  lemma {:induction false} LooksKeepAge(b: Board, provider: string, model: string, cs: seq<Conn>, clock: seq<Time>,
                                        c: Conn)
    requires |clock| == |cs|
    ensures LastFailure(LookedAll(b, provider, model, cs, clock).entries, provider, model)(c)
         == EntryOf(b, Key(provider, model, c.index)).lastFailure
    decreases |cs|
  {
    if cs != [] { LooksKeepAge(b, provider, model, cs[..|cs| - 1], clock[..|cs| - 1], c); }
  }

  /** The pool: the connections the state before the call does not skip, in their order; if
      there are none, all of them, least recently failed first. */
  lemma PoolExactly(b: Board, provider: string, model: string, cs: seq<Conn>, clock: seq<Time>)
    requires |clock| == |cs| && Ticking(clock) && cs != []
    ensures var pool := Pool(b, provider, model, cs, clock);
            var kept := NotSkipped(b, provider, model, cs, clock);
            && pool != []
            && (kept != [] ==> pool == kept)
            && (kept == [] ==>
                  && multiset(pool) == multiset(cs)
                  && forall i, j | 0 <= i < j < |pool| ::
                       EntryOf(b, Key(provider, model, pool[i].index)).lastFailure
                       <= EntryOf(b, Key(provider, model, pool[j].index)).lastFailure)
  {
    hide Healthy, NotSkipped, LookedAll, StableSort;
    HealthyIsNotSkipped(b, provider, model, cs, clock);
    var age := LastFailure(LookedAll(b, provider, model, cs, clock).entries, provider, model);
    SortIsStable(cs, age, 0.0);
    forall c: Conn { LooksKeepAge(b, provider, model, cs, clock, c); }
    assert |multiset(cs)| == |cs|;
  }
}
