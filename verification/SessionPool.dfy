/**
 Choosing an account for a session (app/oauth_antiban.py, `apply_affinity`): new sessions
 rotate over the healthy accounts, and a session stays on the account it was given.
 */
module SessionPool {
  import opened Prelude
  import opened Affinity

  datatype Candidate = Candidate(index: int, conn: string)

  /** One request; `healthy` holds the indexes the breaker reports as usable, `now` and
      `boundAt` are the clock at the lookup and at the bind. */
  datatype Call = Call(provider: string, session: string, enabled: bool, oauth: bool, roundRobin: bool,
                       eligible: seq<Candidate>, healthy: set<int>, now: Time, boundAt: Time)

  function KeyOf(c: Call): Key { Key(c.session, c.provider) }

  /** The entry a dictionary by index keeps: the last one. */
  function ByIndex(eligible: seq<Candidate>, i: int): (r: Option<Candidate>)
    ensures r.Some? ==> r.value in eligible && r.value.index == i
    ensures r.None? <==> forall e | e in eligible :: e.index != i
  {
    if eligible == [] then None
    else
      var n := |eligible| - 1;
      if eligible[n].index == i then Some(eligible[n]) else ByIndex(eligible[..n], i)
  }

  function HealthyOf(eligible: seq<Candidate>, healthy: set<int>): (r: seq<Candidate>)
    ensures forall e | e in r :: e in eligible && e.index in healthy
  {
    if eligible == [] then []
    else
      var n := |eligible| - 1;
      HealthyOf(eligible[..n], healthy) + if eligible[n].index in healthy then [eligible[n]] else []
  }

  type Cursors = map<string, nat>

  function CursorOf(cursors: Cursors, provider: string): nat {
    if provider in cursors then cursors[provider] else 0
  }

  /** The pool handed on, what happens to the store, and the cursors afterwards. */
  datatype Served = Served(pool: seq<Candidate>, ops: seq<Op>, cursors: Cursors)

  function Serve(lim: Limits, data: Data, cursors: Cursors, c: Call): Served {
    if !c.enabled || !c.oauth || c.eligible == [] then Served(c.eligible, [], cursors)
    else
      var k := KeyOf(c);
      var bound := Answer(lim, data, k, c.now);
      var look := [Lookup(k, c.now)];
      var sticky := if bound.Some? then ByIndex(c.eligible, bound.value) else None;
      var usable := HealthyOf(c.eligible, c.healthy);
      if sticky.Some? && bound.value in c.healthy then Served([sticky.value], look, cursors)
      else
        var released := if sticky.Some? then look + [Release(k)] else look;
        if usable == [] then Served(c.eligible, released, cursors)
        else if bound.None? && c.roundRobin then
          var cur := CursorOf(cursors, c.provider);
          var chosen := usable[cur % |usable|];
          Served([chosen], released + [Bind(k, chosen.index, c.boundAt)], cursors[c.provider := cur + 1])
        else
          Served([usable[0]], released + [Bind(k, usable[0].index, c.boundAt)], cursors)
  }

  function Exec(lim: Limits, data: Data, ops: seq<Op>): Data {
    if ops == [] then data else Affinity.Step(lim, Exec(lim, data, ops[..|ops| - 1]), ops[|ops| - 1])
  }

  lemma ExecSnoc(lim: Limits, data: Data, ops: seq<Op>, op: Op)
    ensures Exec(lim, data, ops + [op]) == Affinity.Step(lim, Exec(lim, data, ops), op)
  {
    hide Affinity.Step;
    assert (ops + [op])[..|ops|] == ops;
  }

  lemma ExecOne(lim: Limits, data: Data, op: Op)
    ensures Exec(lim, data, [op]) == Affinity.Step(lim, data, op)
  {
    hide Affinity.Step;
    assert [op][..0] == [];
  }

  method FilterHealthy(eligible: seq<Candidate>, healthy: set<int>) returns (usable: seq<Candidate>)
    ensures usable == HealthyOf(eligible, healthy)
  {
    usable := [];
    for i := 0 to |eligible|
      invariant usable == HealthyOf(eligible[..i], healthy)
    {
      assert eligible[..i + 1][..i] == eligible[..i];
      if eligible[i].index in healthy { usable := usable + [eligible[i]]; }
    }
    assert eligible[..|eligible|] == eligible;
  }

  /** The loop that takes the first healthy entry. */
  method FirstHealthy(eligible: seq<Candidate>, healthy: set<int>) returns (first: Option<Candidate>)
    ensures var usable := HealthyOf(eligible, healthy);
            first == if usable == [] then None else Some(usable[0])
  {
    for i := 0 to |eligible|
      invariant HealthyOf(eligible[..i], healthy) == []
    {
      assert eligible[..i + 1][..i] == eligible[..i];
      if eligible[i].index in healthy {
        HealthyPrefix(eligible, healthy, i + 1);
        return Some(eligible[i]);
      }
    }
    assert eligible[..|eligible|] == eligible;
    first := None;
  }

  lemma {:induction false} HealthyPrefix(eligible: seq<Candidate>, healthy: set<int>, n: nat)
    requires n <= |eligible|
    ensures HealthyOf(eligible[..n], healthy) <= HealthyOf(eligible, healthy)
    decreases |eligible| - n
  {
    if n < |eligible| {
      assert eligible[..n + 1][..n] == eligible[..n];
      HealthyPrefix(eligible, healthy, n + 1);
    } else {
      assert eligible[..n] == eligible;
    }
  }

  class Selector {
    const store: AffinityStore
    var cursors: Cursors

    constructor (s: AffinityStore)
      ensures store == s && cursors == map[]
    {
      store, cursors := s, map[];
    }

    method ApplyAffinity(c: Call) returns (pool: seq<Candidate>)
      modifies this`cursors, store
      ensures var served := Serve(store.lim, old(store.data), old(cursors), c);
              && pool == served.pool
              && cursors == served.cursors
              && store.data == Exec(store.lim, old(store.data), served.ops)
    {
      hide Affinity.Step, Answer, HealthyOf, ByIndex, Exec;
      ghost var lim, was := store.lim, store.data;
      if !c.enabled || !c.oauth || c.eligible == [] {
        ExecNothing(lim, was);
        return c.eligible;
      }
      var k := KeyOf(c);
      var bound := store.LookupIndex(k, c.now);
      ghost var ops := [Lookup(k, c.now)];
      ExecOne(lim, was, Lookup(k, c.now));
      if bound.Some? {
        var sticky := ByIndex(c.eligible, bound.value);
        if sticky.Some? {
          if bound.value in c.healthy { return [sticky.value]; }
          ExecSnoc(lim, was, ops, Release(k));
          ops := ops + [Release(k)];
          store.ReleaseKey(k);
        }
      }
      if bound.None? && c.roundRobin {
        var usable := FilterHealthy(c.eligible, c.healthy);
        if usable != [] {
          var cur := CursorOf(cursors, c.provider);
          var chosen := usable[cur % |usable|];
          cursors := cursors[c.provider := cur + 1];
          ExecSnoc(lim, was, ops, Bind(k, chosen.index, c.boundAt));
          store.BindTo(k, chosen.index, c.boundAt);
          return [chosen];
        }
      }
      var first := FirstHealthy(c.eligible, c.healthy);
      if first.Some? {
        ExecSnoc(lim, was, ops, Bind(k, first.value.index, c.boundAt));
        store.BindTo(k, first.value.index, c.boundAt);
        return [first.value];
      }
      return c.eligible;
    }
  }

  lemma ExecNothing(lim: Limits, data: Data)
    ensures Exec(lim, data, []) == data
  {}

  // ---- Runs of requests ----------------------------------------------------

  /** The store operations and the cursors after a run of calls. */
  function Ran(lim: Limits, calls: seq<Call>): (seq<Op>, Cursors) {
    if calls == [] then ([], map[])
    else
      var (ops, cursors) := Ran(lim, calls[..|calls| - 1]);
      var served := Serve(lim, After(lim, ops), cursors, calls[|calls| - 1]);
      (ops + served.ops, served.cursors)
  }

  function PoolAfter(lim: Limits, calls: seq<Call>, c: Call): seq<Candidate> {
    Serve(lim, After(lim, Ran(lim, calls).0), Ran(lim, calls).1, c).pool
  }

  lemma RanSnoc(lim: Limits, calls: seq<Call>, c: Call)
    ensures var (ops, cursors) := Ran(lim, calls);
            var served := Serve(lim, After(lim, ops), cursors, c);
            Ran(lim, calls + [c]) == (ops + served.ops, served.cursors)
  {
    hide Serve, After;
    assert (calls + [c])[..|calls|] == calls;
  }

  /** A pool is never emptied, and holds only candidates it was given. */
  lemma PoolIsPartOfEligible(lim: Limits, data: Data, cursors: Cursors, c: Call)
    ensures var pool := Serve(lim, data, cursors, c).pool;
            && (pool == [] <==> c.eligible == [])
            && (forall e | e in pool :: e in c.eligible)
            && (pool != c.eligible ==> |pool| == 1 && pool[0].index in c.healthy)
  {
    hide HealthyOf, ByIndex, Answer;
  }

  // ---- New sessions rotate -------------------------------------------------

  /** Every call for the provider finds the same pool, under round robin. */
  predicate Steady(calls: seq<Call>, provider: string, eligible: seq<Candidate>, healthy: set<int>) {
    forall i | 0 <= i < |calls| && calls[i].provider == provider ::
      calls[i].enabled && calls[i].oauth && calls[i].roundRobin
      && calls[i].eligible == eligible && calls[i].healthy == healthy
  }

  /** The store has no live binding for the call's session. */
  predicate IsNew(lim: Limits, before: seq<Call>, c: Call) {
    Answer(lim, After(lim, Ran(lim, before).0), KeyOf(c), c.now).None?
  }

  /** The pools given to the provider's new sessions in `later`, in order. */
  function NewPools(lim: Limits, calls: seq<Call>, later: seq<Call>, provider: string): seq<seq<Candidate>> {
    if later == [] then []
    else
      var n := |later| - 1;
      NewPools(lim, calls, later[..n], provider)
      + if later[n].provider == provider && IsNew(lim, calls + later[..n], later[n])
        then [PoolAfter(lim, calls + later[..n], later[n])] else []
  }

  /** A call moves its provider's cursor exactly when it serves a new session. */
  lemma CursorMoves(lim: Limits, calls: seq<Call>, c: Call, provider: string, usable: seq<Candidate>)
    requires usable == HealthyOf(c.eligible, c.healthy) && (c.provider == provider ==> usable != [])
    requires c.provider == provider ==> c.enabled && c.oauth && c.roundRobin
    ensures var was := CursorOf(Ran(lim, calls).1, provider);
            var cur := CursorOf(Ran(lim, calls + [c]).1, provider);
            if c.provider == provider && IsNew(lim, calls, c)
            then cur == was + 1 && PoolAfter(lim, calls, c) == [usable[was % |usable|]]
            else cur == was
  {
    hide Ran, After, HealthyOf, ByIndex, Answer, KeyOf;
    RanSnoc(lim, calls, c);
    if c.eligible == [] { assert c.provider == provider ==> usable == [] by { NoneHealthy(c.healthy); } }
  }

  lemma NoneHealthy(healthy: set<int>)
    ensures HealthyOf([], healthy) == []
  {}

  lemma NoCursorYet(lim: Limits, provider: string)
    ensures CursorOf(Ran(lim, []).1, provider) == 0
  {}

  /** The i-th new session of a steady run gets the account i places on from where the cursor
      stood (at first the first one), whatever other calls are interleaved. */
  lemma {:induction false} NewSessionsRotate(lim: Limits, calls: seq<Call>, later: seq<Call>, provider: string,
                                             eligible: seq<Candidate>, healthy: set<int>)
    requires Steady(later, provider, eligible, healthy) && HealthyOf(eligible, healthy) != []
    ensures var usable := HealthyOf(eligible, healthy);
            var start := CursorOf(Ran(lim, calls).1, provider);
            var pools := NewPools(lim, calls, later, provider);
            && (calls == [] ==> start == 0)
            && CursorOf(Ran(lim, calls + later).1, provider) == start + |pools|
            && (forall i | 0 <= i < |pools| :: pools[i] == [usable[(start + i) % |usable|]])
    decreases |later|
  {
    if calls == [] { NoCursorYet(lim, provider); }
    hide Ran, HealthyOf, PoolAfter, IsNew;
    if later == [] {
      assert calls + later == calls;
    } else {
      var n := |later| - 1;
      NewSessionsRotate(lim, calls, later[..n], provider, eligible, healthy);
      assert calls + later == calls + later[..n] + [later[n]];
      CursorMoves(lim, calls + later[..n], later[n], provider, HealthyOf(later[n].eligible, later[n].healthy));
    }
  }

  // ---- Fair shares ---------------------------------------------------------

  /** How often position `p` of `k` is visited by `n` steps from `cur` on. */
  function Visits(cur: nat, n: nat, k: nat, p: nat): nat
    requires p < k
    decreases n
  {
    if n == 0 then 0 else (if cur % k == p then 1 else 0) + Visits(cur + 1, n - 1, k, p)
  }

  lemma OneLess(v: int, k: nat)
    ensures (v - 1) * k == v * k - k
  {}

  /** Steps to the next visit of `p`. */
  function Distance(r: nat, k: nat, p: nat): nat
    requires r < k && p < k
  {
    if p >= r then p - r else p - r + k
  }

  lemma {:induction false} VisitsExactly(cur: nat, n: nat, k: nat, p: nat)
    requires p < k
    ensures var d, v := Distance(cur % k, k, p), Visits(cur, n, k, p);
            if n <= d then v == 0 else (v - 1) * k < n - d <= v * k
    decreases n
  {
    if n > 0 {
      VisitsExactly(cur + 1, n - 1, k, p);
      NextResidue(cur, k);
      VisitsUnfold(cur, n, k, p);
      hide Visits;
      var v := Visits(cur + 1, n - 1, k, p);
      OneLess(v, k);
      OneLess(v + 1, k);
    }
  }

  lemma VisitsUnfold(cur: nat, n: nat, k: nat, p: nat)
    requires p < k && n > 0
    ensures Visits(cur, n, k, p) == (if cur % k == p then 1 else 0) + Visits(cur + 1, n - 1, k, p)
  {}

  /** The quotients next to a number caught between two multiples. */
  lemma Between(n: nat, k: nat, v: int)
    requires k > 0 && (v - 1) * k < n && n < v * k + k
    ensures n / k <= v <= (n + k - 1) / k
  {
    var low, high := n / k, (n + k - 1) / k;
    assert n == low * k + n % k;
    assert n + k - 1 == high * k + (n + k - 1) % k;
    assert (v + 1) * k == v * k + k;
    Cancel(low, v + 1, k);
    assert (v - 1) * k < high * k;
    Cancel(v - 1, high, k);
  }

  /** Any `n` consecutive steps visit each of `k` positions n/k times, rounded down or up. */
  lemma VisitsAreFair(cur: nat, n: nat, k: nat, p: nat)
    requires p < k
    ensures n / k <= Visits(cur, n, k, p) <= (n + k - 1) / k
  {
    hide Visits;
    VisitsExactly(cur, n, k, p);
    Between(n, k, Visits(cur, n, k, p));
  }

  /** How many of these pools are the account alone. */
  function Share(pools: seq<seq<Candidate>>, e: Candidate): nat {
    if pools == [] then 0 else (if pools[0] == [e] then 1 else 0) + Share(pools[1..], e)
  }

  predicate NoRepeats(cs: seq<Candidate>) {
    forall i, j | 0 <= i < j < |cs| :: cs[i] != cs[j]
  }

  lemma {:induction false} ShareIsVisits(pools: seq<seq<Candidate>>, usable: seq<Candidate>, cur: nat, p: nat)
    requires p < |usable| && NoRepeats(usable)
    requires forall i | 0 <= i < |pools| :: pools[i] == [usable[(cur + i) % |usable|]]
    ensures Share(pools, usable[p]) == Visits(cur, |pools|, |usable|, p)
    decreases |pools|
  {
    if pools != [] {
      var k := |usable|;
      forall i | 0 <= i < |pools[1..]| ensures pools[1..][i] == [usable[(cur + 1 + i) % k]] {
        assert pools[1..][i] == pools[i + 1] && cur + (i + 1) == cur + 1 + i;
      }
      ShareIsVisits(pools[1..], usable, cur + 1, p);
      assert pools[0] == [usable[(cur + 0) % k]];
      assert pools[0] == [usable[p]] <==> cur % k == p by { Alone(usable, cur % k, p); }
    }
  }

  lemma Alone(usable: seq<Candidate>, a: nat, b: nat)
    requires a < |usable| && b < |usable| && NoRepeats(usable)
    ensures [usable[a]] == [usable[b]] <==> a == b
  {
    if [usable[a]] == [usable[b]] { assert [usable[a]][0] == [usable[b]][0]; }
  }

  /** With a constant pool of `k` healthy accounts, any `n` consecutive new sessions of a
      provider give each account n/k of them, rounded down or up. */
  lemma SharesAreFair(lim: Limits, calls: seq<Call>, later: seq<Call>, provider: string,
                      eligible: seq<Candidate>, healthy: set<int>, a: nat, n: nat, p: nat)
    requires Steady(later, provider, eligible, healthy) && NoRepeats(HealthyOf(eligible, healthy))
    requires p < |HealthyOf(eligible, healthy)|
    ensures var usable, pools := HealthyOf(eligible, healthy), NewPools(lim, calls, later, provider);
            var k := |usable|;
            a + n <= |pools| ==> n / k <= Share(pools[a..a + n], usable[p]) <= (n + k - 1) / k
  {
    hide Ran, HealthyOf, NewPools, Share, Steady;
    NewSessionsRotate(lim, calls, later, provider, eligible, healthy);
    var usable := HealthyOf(eligible, healthy);
    var start := CursorOf(Ran(lim, calls).1, provider);
    var pools := NewPools(lim, calls, later, provider);
    if a + n <= |pools| {
      var window := pools[a..a + n];
      forall i | 0 <= i < |window| ensures window[i] == [usable[(start + a + i) % |usable|]] {
        assert window[i] == pools[a + i] && start + (a + i) == start + a + i;
      }
      ShareIsVisits(window, usable, start + a, p);
      VisitsAreFair(start + a, n, |usable|, p);
    }
  }

  // ---- A session stays -----------------------------------------------------

  /** The operations of `later`, after `calls`. */
  function OpsAfter(lim: Limits, calls: seq<Call>, later: seq<Call>): seq<Op> {
    if later == [] then []
    else
      var n := |later| - 1;
      var (ops, cursors) := Ran(lim, calls + later[..n]);
      OpsAfter(lim, calls, later[..n]) + Serve(lim, After(lim, ops), cursors, later[n]).ops
  }

  /** The sessions that call in `later`, per provider. */
  function Sessions(later: seq<Call>): set<Key> {
    set c | c in later :: KeyOf(c)
  }

  lemma ServeOpsOwn(lim: Limits, data: Data, cursors: Cursors, c: Call)
    ensures var ops := Serve(lim, data, cursors, c).ops;
            forall i | 0 <= i < |ops| :: ops[i].key == KeyOf(c)
  {
    hide HealthyOf, ByIndex, Answer, KeyOf;
  }

  lemma {:induction false} OpsAreOwn(lim: Limits, calls: seq<Call>, later: seq<Call>)
    ensures Ran(lim, calls + later).0 == Ran(lim, calls).0 + OpsAfter(lim, calls, later)
    ensures forall i | 0 <= i < |OpsAfter(lim, calls, later)| :: OpsAfter(lim, calls, later)[i].key in Sessions(later)
    decreases |later|
  {
    hide Serve, After, KeyOf;
    if later == [] {
      assert calls + later == calls;
      assert Ran(lim, calls).0 + [] == Ran(lim, calls).0;
    } else {
      var n := |later| - 1;
      OpsAreOwn(lim, calls, later[..n]);
      assert calls + later == calls + later[..n] + [later[n]];
      RanSnoc(lim, calls + later[..n], later[n]);
      var (ops, cursors) := Ran(lim, calls + later[..n]);
      ServeOpsOwn(lim, After(lim, ops), cursors, later[n]);
      Assoc(Ran(lim, calls).0, OpsAfter(lim, calls, later[..n]), Serve(lim, After(lim, ops), cursors, later[n]).ops);
      hide Ran;
      SessionsSnoc(later);
    }
  }

  lemma SessionsSnoc(later: seq<Call>)
    requires later != []
    ensures Sessions(later) == Sessions(later[..|later| - 1]) + {KeyOf(later[|later| - 1])}
  {
    var n := |later| - 1;
    assert later == later[..n] + [later[n]];
  }

  lemma {:induction false} TouchedIsOwn(lim: Limits, ops: seq<Op>, later: seq<Op>, keys: set<Key>)
    requires forall i | 0 <= i < |later| :: later[i].key in keys
    ensures TouchedBy(lim, ops, later) <= keys
    decreases |later|
  {
    hide After, Touches;
    if later != [] {
      TouchedIsOwn(lim, ops, later[..|later| - 1], keys);
    }
  }

  /** The binding stands last in the store, as the one touched most recently. */
  predicate EndsIn(lim: Limits, calls: seq<Call>, x: Item) {
    var data := After(lim, Ran(lim, calls).0);
    data != [] && data[|data| - 1] == x
  }

  /** The call is within the TTL of the bind and its account is eligible and healthy. */
  predicate Kept(lim: Limits, c: Call, x: Item) {
    && KeyOf(c) == x.key && c.enabled && c.oauth && c.now - x.ts <= lim.ttl
    && ByIndex(c.eligible, x.index).Some? && x.index in c.healthy
  }

  /** While fewer than `max` other sessions call, a session's binding is kept. */
  lemma BindingStays(lim: Limits, calls: seq<Call>, later: seq<Call>, x: Item)
    requires lim.max >= 1 && EndsIn(lim, calls, x)
    requires x.key !in Sessions(later) && |Sessions(later)| < lim.max
    ensures Find(After(lim, Ran(lim, calls + later).0), x.key) == Some(x)
  {
    hide Ran, After, Find, Sessions, OpsAfter, TouchedBy, KeyOf;
    OpsAreOwn(lim, calls, later);
    var ops, rest := Ran(lim, calls).0, OpsAfter(lim, calls, later);
    TouchedIsOwn(lim, ops, rest, Sessions(later));
    SubsetCount(TouchedBy(lim, ops, rest), Sessions(later));
    NotEvicted(lim, ops, x, rest);
  }

  /** The session's next call is given its account, and leaves its binding last again. */
  lemma SessionStays(lim: Limits, calls: seq<Call>, later: seq<Call>, c: Call, x: Item)
    requires lim.max >= 1 && Kept(lim, c, x)
    requires x.key !in Sessions(later) && |Sessions(later)| < lim.max
    ensures EndsIn(lim, calls, x) ==>
              && ByIndex(c.eligible, x.index).Some?
              && PoolAfter(lim, calls + later, c) == [ByIndex(c.eligible, x.index).value]
              && EndsIn(lim, calls + later + [c], x)
  {
    hide Ran, After, HealthyOf, ByIndex, Find, Sessions, KeyOf;
    if EndsIn(lim, calls, x) {
      BindingStays(lim, calls, later, x);
      var (ops, cursors) := Ran(lim, calls + later);
      assert Serve(lim, After(lim, ops), cursors, c).ops == [Lookup(x.key, c.now)];
      RanSnoc(lim, calls + later, c);
      AfterSnoc(lim, ops, Lookup(x.key, c.now));
      HitLast(lim, After(lim, ops), x.key, c.now);
    }
  }

  /** How many of the calls there are up to the session's last one. */
  function UpToLast(later: seq<Call>, k: Key): nat {
    if later == [] then 0
    else if KeyOf(later[|later| - 1]) == k then |later|
    else UpToLast(later[..|later| - 1], k)
  }

  predicate Away(later: seq<Call>, i: nat, j: nat, k: Key)
    requires i <= j <= |later|
  {
    forall m | i <= m < j :: KeyOf(later[m]) != k
  }

  /** Between two calls of the session fewer than `max` other sessions call. */
  predicate ShortAbsences(lim: Limits, later: seq<Call>, k: Key) {
    forall i, j | 0 <= i <= j <= |later| && Away(later, i, j, k) :: |Sessions(later[i..j])| < lim.max
  }

  lemma {:induction false} AwaySinceLast(later: seq<Call>, k: Key)
    ensures UpToLast(later, k) <= |later| && Away(later, UpToLast(later, k), |later|, k)
    decreases |later|
  {
    hide KeyOf;
    if later != [] && KeyOf(later[|later| - 1]) != k {
      AwaySinceLast(later[..|later| - 1], k);
    }
  }

  lemma AwayIsNotIn(later: seq<Call>, i: nat, j: nat, k: Key)
    requires i <= j <= |later| && Away(later, i, j, k)
    ensures k !in Sessions(later[i..j])
  {
    hide KeyOf;
    forall c | c in later[i..j] ensures KeyOf(c) != k {
      var m :| 0 <= m < |later[i..j]| && later[i..j][m] == c;
      assert later[i + m] == c;
    }
  }

  lemma ShortAbsencesFront(lim: Limits, later: seq<Call>, n: nat, k: Key)
    requires n <= |later| && ShortAbsences(lim, later, k)
    ensures ShortAbsences(lim, later[..n], k)
  {
    hide KeyOf, Sessions;
    forall i, j | 0 <= i <= j <= n && Away(later[..n], i, j, k) ensures |Sessions(later[..n][i..j])| < lim.max {
      assert later[..n][i..j] == later[i..j];
      assert forall m | i <= m < j :: later[..n][m] == later[m];
      assert Away(later, i, j, k);
    }
  }

  predicate AllKept(lim: Limits, later: seq<Call>, x: Item) {
    forall m | 0 <= m < |later| && KeyOf(later[m]) == x.key :: Kept(lim, later[m], x)
  }

  lemma AllKeptFront(lim: Limits, later: seq<Call>, n: nat, x: Item)
    requires n <= |later| && AllKept(lim, later, x)
    ensures AllKept(lim, later[..n], x)
  {
    hide Kept, KeyOf;
  }

  /** After any number of calls, the binding is last as of the session's last one. */
  lemma {:induction false} SessionKeeps(lim: Limits, calls: seq<Call>, later: seq<Call>, x: Item)
    requires lim.max >= 1 && EndsIn(lim, calls, x) && ShortAbsences(lim, later, x.key) && AllKept(lim, later, x)
    ensures UpToLast(later, x.key) <= |later| && EndsIn(lim, calls + later[..UpToLast(later, x.key)], x)
    decreases |later|
  {
    hide EndsIn, Kept, AllKept, PoolAfter, ByIndex, KeyOf, Away, ShortAbsences, Sessions;
    if later == [] {
      assert calls + later[..0] == calls;
    } else {
      var n := |later| - 1;
      ShortAbsencesFront(lim, later, n, x.key);
      AllKeptFront(lim, later, n, x);
      SessionKeeps(lim, calls, later[..n], x);
      var i := UpToLast(later[..n], x.key);
      if KeyOf(later[n]) == x.key {
        KeptAt(lim, later, n, x);
        CallKept(lim, calls, later[..n], later[n], x);
        assert calls + later[..n] + [later[n]] == calls + later && later[..|later|] == later;
      } else {
        assert later[..n][..i] == later[..i];
      }
    }
  }

  /** A call of the session after `front` is given its account, if the binding was last as of
      the call before it, and leaves the binding last. */
  lemma CallKept(lim: Limits, calls: seq<Call>, front: seq<Call>, c: Call, x: Item)
    requires lim.max >= 1 && Kept(lim, c, x) && ShortAbsences(lim, front, x.key)
    requires var i := UpToLast(front, x.key); i <= |front| && EndsIn(lim, calls + front[..i], x)
    ensures ByIndex(c.eligible, x.index).Some?
    ensures PoolAfter(lim, calls + front, c) == [ByIndex(c.eligible, x.index).value]
    ensures EndsIn(lim, calls + front + [c], x)
  {
    hide *;
    var i := UpToLast(front, x.key);
    AwaySinceLast(front, x.key);
    AwayIsNotIn(front, i, |front|, x.key);
    AbsenceIsShort(lim, front, i, |front|, x.key);
    SessionStays(lim, calls + front[..i], front[i..|front|], c, x);
    Rejoin(calls, front, i);
  }

  lemma Rejoin(calls: seq<Call>, front: seq<Call>, i: nat)
    requires i <= |front|
    ensures calls + front[..i] + front[i..|front|] == calls + front
  {}

  lemma KeptAt(lim: Limits, later: seq<Call>, m: nat, x: Item)
    requires m < |later| && KeyOf(later[m]) == x.key && AllKept(lim, later, x)
    ensures Kept(lim, later[m], x)
  {}

  lemma AbsenceIsShort(lim: Limits, later: seq<Call>, i: nat, j: nat, k: Key)
    requires ShortAbsences(lim, later, k) && i <= j <= |later| && Away(later, i, j, k)
    ensures |Sessions(later[i..j])| < lim.max
  {}

  lemma {:induction false} AfterExec(lim: Limits, ops: seq<Op>, more: seq<Op>)
    ensures After(lim, ops + more) == Exec(lim, After(lim, ops), more)
    decreases |more|
  {
    hide Affinity.Step;
    if more == [] {
      assert ops + more == ops;
    } else {
      var n := |more| - 1;
      AfterExec(lim, ops, more[..n]);
      assert ops + more == ops + more[..n] + [more[n]];
      AfterSnoc(lim, ops + more[..n], more[n]);
    }
  }

  lemma BindLast(lim: Limits, data: Data, k: Key, index: int, at: Time)
    requires lim.max >= 1
    ensures var after := Affinity.Step(lim, data, Bind(k, index, at));
            after != [] && after[|after| - 1] == Item(k, index, at)
  {
    hide Without;
  }

  lemma HitLast(lim: Limits, data: Data, k: Key, now: Time)
    requires Answer(lim, data, k, now).Some?
    ensures var after := Affinity.Step(lim, data, Lookup(k, now));
            && after != [] && after[|after| - 1].key == k && Some(after[|after| - 1].index) == Answer(lim, data, k, now)
            && Some(after[|after| - 1]) == Find(data, k)
  {
    hide Without;
  }

  /** What serving leaves last in the store. */
  lemma ServedLast(lim: Limits, data: Data, cursors: Cursors, c: Call)
    requires lim.max >= 1 && c.enabled && c.oauth && HealthyOf(c.eligible, c.healthy) != [] && c.eligible != []
    ensures var served := Serve(lim, data, cursors, c);
            var after := Exec(lim, data, served.ops);
            && served.pool != [] && after != []
            && after[|after| - 1].key == KeyOf(c) && after[|after| - 1].index == served.pool[0].index
  {
    hide Affinity.Step, Answer, HealthyOf, ByIndex, Exec, KeyOf;
    var k := KeyOf(c);
    var served := Serve(lim, data, cursors, c);
    var ops := served.ops;
    var n := |ops| - 1;
    assert ops == ops[..n] + [ops[n]];
    ExecSnoc(lim, data, ops[..n], ops[n]);
    if ops[n].Bind? {
      BindLast(lim, Exec(lim, data, ops[..n]), k, served.pool[0].index, c.boundAt);
    } else {
      assert ops[..n] == [];
      ExecNothing(lim, data);
      HitLast(lim, data, k, c.now);
    }
  }

  /** A call that was given one healthy account leaves the session's binding to it last. */
  lemma GivenIsBound(lim: Limits, calls: seq<Call>, c: Call)
    requires lim.max >= 1 && c.enabled && c.oauth && c.eligible != []
    requires HealthyOf(c.eligible, c.healthy) != []
    ensures var data := After(lim, Ran(lim, calls + [c]).0);
            && data != [] && data[|data| - 1].key == KeyOf(c)
            && PoolAfter(lim, calls, c) != []
            && data[|data| - 1].index == PoolAfter(lim, calls, c)[0].index
  {
    hide Ran, After, HealthyOf, Serve, KeyOf, Exec;
    RanSnoc(lim, calls, c);
    var (ops, cursors) := Ran(lim, calls);
    var served := Serve(lim, After(lim, ops), cursors, c);
    AfterExec(lim, ops, served.ops);
    ServedLast(lim, After(lim, ops), cursors, c);
  }

  /** The time of the bind that a session's entry goes back to. */
  function BoundSince(lim: Limits, calls: seq<Call>, k: Key): Option<Time> {
    var x := Find(After(lim, Ran(lim, calls).0), k);
    if x.Some? then Some(x.value.ts) else None
  }

  /** From the call that gave a session its account on, every call of the session, however many,
      is given that account, as long as fewer than `max` other sessions call between two of
      them, and each is within the TTL of the one bind with the account eligible and healthy. */
  lemma SessionSticks(lim: Limits, calls: seq<Call>, c: Call, later: seq<Call>)
    requires lim.max >= 1 && c.enabled && c.oauth && c.eligible != []
    requires HealthyOf(c.eligible, c.healthy) != []
    requires ShortAbsences(lim, later, KeyOf(c))
    ensures var given := PoolAfter(lim, calls, c);
            var since := BoundSince(lim, calls + [c], KeyOf(c));
            && given != [] && since.Some?
            && var x := Item(KeyOf(c), given[0].index, since.value);
               AllKept(lim, later, x) ==>
                 forall m | 0 <= m < |later| && KeyOf(later[m]) == KeyOf(c) ::
                   ByIndex(later[m].eligible, given[0].index).Some?
                   && PoolAfter(lim, calls + [c] + later[..m], later[m])
                      == [ByIndex(later[m].eligible, given[0].index).value]
  {
    hide Ran, After, HealthyOf, Find, KeyOf, PoolAfter, ByIndex, AllKept, ShortAbsences;
    GivenIsBound(lim, calls, c);
    var ops := Ran(lim, calls + [c]).0;
    var data := After(lim, ops);
    var x := data[|data| - 1];
    NeverOverfull(lim, ops);
    FoundOnce(data, x);
    assert x == Item(KeyOf(c), PoolAfter(lim, calls, c)[0].index, x.ts);
    if AllKept(lim, later, x) {
      forall m | 0 <= m < |later| && KeyOf(later[m]) == x.key
        ensures ByIndex(later[m].eligible, x.index).Some?
        ensures PoolAfter(lim, calls + [c] + later[..m], later[m]) == [ByIndex(later[m].eligible, x.index).value]
      {
        ShortAbsencesFront(lim, later, m, x.key);
        AllKeptFront(lim, later, m, x);
        SessionKeeps(lim, calls + [c], later[..m], x);
        KeptAt(lim, later, m, x);
        CallKept(lim, calls + [c], later[..m], later[m], x);
      }
    }
  }

  // ---- Every other call ----------------------------------------------------

  /** With affinity off, for a provider without OAuth, or with nothing eligible: everything is
      handed on, and neither the store nor a cursor moves. */
  lemma Bypassed(lim: Limits, calls: seq<Call>, c: Call)
    requires !c.enabled || !c.oauth || c.eligible == []
    ensures PoolAfter(lim, calls, c) == c.eligible
    ensures Ran(lim, calls + [c]) == Ran(lim, calls)
  {
    hide Ran, After;
    RanSnoc(lim, calls, c);
    assert Ran(lim, calls).0 + [] == Ran(lim, calls).0;
  }

  /** The healthy candidates keep their order. */
  lemma HealthyAt(eligible: seq<Candidate>, healthy: set<int>, i: nat)
    requires i < |eligible| && eligible[i].index in healthy
    ensures var k := |HealthyOf(eligible[..i], healthy)|;
            k < |HealthyOf(eligible, healthy)| && HealthyOf(eligible, healthy)[k] == eligible[i]
  {
    assert eligible[..i + 1][..i] == eligible[..i];
    HealthyPrefix(eligible, healthy, i + 1);
  }

  lemma {:induction false} NoneAreHealthy(eligible: seq<Candidate>, healthy: set<int>)
    requires forall j | 0 <= j < |eligible| :: eligible[j].index !in healthy
    ensures HealthyOf(eligible, healthy) == []
    decreases |eligible|
  {
    if eligible != [] { NoneAreHealthy(eligible[..|eligible| - 1], healthy); }
  }

  /** The session is bound to an account that is still eligible and healthy. */
  predicate KeepsAccount(lim: Limits, calls: seq<Call>, c: Call) {
    var bound := Answer(lim, After(lim, Ran(lim, calls).0), KeyOf(c), c.now);
    bound.Some? && bound.value in c.healthy && ByIndex(c.eligible, bound.value).Some?
  }

  /** A session without a usable account is given one healthy account, the first one unless it is
      new and accounts rotate, and is bound to it at once. */
  lemma GivenAnother(lim: Limits, calls: seq<Call>, c: Call, i: nat)
    requires lim.max >= 1 && c.enabled && c.oauth && !KeepsAccount(lim, calls, c)
    requires i < |c.eligible| && c.eligible[i].index in c.healthy
    requires forall j | 0 <= j < i :: c.eligible[j].index !in c.healthy
    ensures var pool := PoolAfter(lim, calls, c);
            var data := After(lim, Ran(lim, calls + [c]).0);
            && |pool| == 1 && pool[0] in c.eligible && pool[0].index in c.healthy
            && (Answer(lim, After(lim, Ran(lim, calls).0), KeyOf(c), c.now).Some? || !c.roundRobin ==>
                  pool == [c.eligible[i]])
            && data != [] && data[|data| - 1] == Item(KeyOf(c), pool[0].index, c.boundAt)
  {
    hide Ran, After, ByIndex, HealthyOf, KeyOf, Answer;
    HealthyAt(c.eligible, c.healthy, i);
    NoneAreHealthy(c.eligible[..i], c.healthy);
    RanSnoc(lim, calls, c);
    var (ops, cursors) := Ran(lim, calls);
    var data := After(lim, ops);
    var served := Serve(lim, data, cursors, c);
    AfterExec(lim, ops, served.ops);
    var n := |served.ops| - 1;
    assert served.ops == served.ops[..n] + [served.ops[n]];
    ExecSnoc(lim, data, served.ops[..n], served.ops[n]);
    BindLast(lim, Exec(lim, data, served.ops[..n]), KeyOf(c), served.pool[0].index, c.boundAt);
  }

  /** With no healthy account everything is handed on, and the session loses its binding exactly if
      its account is still eligible. */
  lemma NothingHealthy(lim: Limits, calls: seq<Call>, c: Call)
    requires c.enabled && c.oauth && c.eligible != []
    requires forall j | 0 <= j < |c.eligible| :: c.eligible[j].index !in c.healthy
    ensures var bound := Answer(lim, After(lim, Ran(lim, calls).0), KeyOf(c), c.now);
            && PoolAfter(lim, calls, c) == c.eligible
            && Ran(lim, calls + [c]).1 == Ran(lim, calls).1
            && Ran(lim, calls + [c]).0
               == Ran(lim, calls).0 + [Lookup(KeyOf(c), c.now)]
                  + if bound.Some? && ByIndex(c.eligible, bound.value).Some? then [Release(KeyOf(c))] else []
  {
    hide Ran, After, HealthyOf, KeyOf, Answer;
    NoneAreHealthy(c.eligible, c.healthy);
    RanSnoc(lim, calls, c);
    var ops := Ran(lim, calls).0;
    var look := Lookup(KeyOf(c), c.now);
    assert ops + ([look] + [Release(KeyOf(c))]) == ops + [look] + [Release(KeyOf(c))];
    assert ops + [look] + [] == ops + [look];
  }
}
