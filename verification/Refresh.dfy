/**
 Concurrent token refresh (app/oauth.py, `ensure_fresh_token`, `_pace_refresh` and
 `_provider_refresh_lock`) as a protocol: each step is the code one coroutine runs
 between two of its suspension points.
 */
module Refresh {
  import opened Prelude

  type Token = string
  type Provider = string
  type Caller = nat

  const MIN_INTERVAL: real := 30.0
  const SKEW: int := 60

  /** A connection dictionary; "" stands for a missing or empty token. `access` is None
      when there is no "access_token" key, `expires` when no expiry can be read. */
  datatype Conn = Conn(provider: Provider, apiKey: Token, access: Option<Token>, refresh: Token, expires: Option<int>)
  {
    function Stored(): Token {
      if apiKey != "" then apiKey else if access.Some? then access.value else ""
    }

    predicate Expired(wall: int) {
      expires.None? || wall >= expires.value - SKEW
    }
  }

  /** The local variables of a suspended call. */
  datatype Frame = Frame(conn: nat, stored: Token, refresh: Token, force: bool)

  datatype Phase =
    | Waiting(f: Frame)
    | Sleeping(f: Frame, until: real)
    | Calling(f: Frame)

  datatype Event =
    | Started(provider: Provider, caller: Caller, conn: nat, stored: Token, refresh: Token, at: real)
    | Replaced(conn: nat, was: Token, access: Token, refresh: Token)
    | Returned(caller: Caller, conn: nat, token: Token)
    | Forgotten(provider: Provider)

  /** `last` is `_last_refresh_at`, `holder` the owner of each provider's lock; the log is
      a history of what happened and is read by no step. */
  datatype State = State(now: real, refreshers: set<Provider>, conns: map<nat, Conn>, callers: map<Caller, Phase>,
                         holder: map<Provider, Caller>, last: map<Provider, real>, log: seq<Event>)

  datatype Reply = Failed | Issued(access: Token, refresh: Token, expiresIn: int)

  datatype Action =
    | Tick(elapsed: real)
    | Call(caller: Caller, conn: nat, force: bool, wall: int)
    | Acquire(caller: Caller, wall: int)
    | Wake(caller: Caller)
    | Answer(caller: Caller, reply: Reply, wall: int)
    | Cancel(caller: Caller)
    | Forget(provider: Provider)

  function Return(s: State, caller: Caller, conn: nat, token: Token): State {
    s.(callers := s.callers - {caller}, log := s.log + [Returned(caller, conn, token)])
  }

  function Release(s: State, p: Provider): State {
    s.(holder := s.holder - {p})
  }

  /** Up to the request for the lock. */
  function Enter(s: State, caller: Caller, conn: nat, force: bool, wall: int): State
    requires conn in s.conns
  {
    var c := s.conns[conn];
    if (!force && !c.Expired(wall)) || c.refresh == "" || c.provider !in s.refreshers then
      Return(s, caller, conn, c.Stored())
    else
      s.(callers := s.callers[caller := Waiting(Frame(conn, c.Stored(), c.refresh, force))])
  }

  /** The end of `_pace_refresh` and the call of the provider's refresh function. */
  function Start(s: State, caller: Caller, f: Frame): State
    requires f.conn in s.conns
  {
    var p := s.conns[f.conn].provider;
    s.(callers := s.callers[caller := Calling(f)], holder := s.holder[p := caller], last := s.last[p := s.now],
       log := s.log + [Started(p, caller, f.conn, f.stored, f.refresh, s.now)])
  }

  /** From getting the lock to the next suspension. */
  function Locked(s: State, caller: Caller, f: Frame, wall: int): State
    requires f.conn in s.conns
  {
    var c := s.conns[f.conn];
    if c.apiKey != "" && c.apiKey != f.stored then Return(s, caller, f.conn, c.apiKey)
    else
      var refresh := if c.refresh != "" then c.refresh else f.refresh;
      if !f.force && !c.Expired(wall) then
        Return(s, caller, f.conn, if c.apiKey != "" then c.apiKey else f.stored)
      else
        var f' := f.(refresh := refresh);
        if c.provider in s.last && MIN_INTERVAL - (s.now - s.last[c.provider]) > 0.0 then
          var remaining := MIN_INTERVAL - (s.now - s.last[c.provider]);
          s.(callers := s.callers[caller := Sleeping(f', s.now + remaining)], holder := s.holder[c.provider := caller])
        else
          Start(s, caller, f')
  }

  /** From the answer of the refresh function to the end. */
  function Finish(s: State, caller: Caller, f: Frame, reply: Reply, wall: int): State
    requires f.conn in s.conns
  {
    var c := s.conns[f.conn];
    var s1 := Release(s, c.provider);
    if reply.Failed? || reply.access == "" then Return(s1, caller, f.conn, f.stored)
    else
      var refresh := if reply.refresh != "" then reply.refresh else f.refresh;
      var expires := wall + if reply.expiresIn != 0 then reply.expiresIn else 3600;
      var c' := c.(apiKey := reply.access, access := if c.access.Some? then Some(reply.access) else None,
                   refresh := if refresh != "" then refresh else c.refresh, expires := Some(expires));
      Return(s1.(conns := s.conns[f.conn := c'],
                 log := s.log + [Replaced(f.conn, c.Stored(), reply.access, c'.refresh)]),
             caller, f.conn, reply.access)
  }

  /** A cancelled call leaves the lock, if it holds it, through `async with`. */
  function Abandon(s: State, caller: Caller): State
    requires caller in s.callers && s.callers[caller].f.conn in s.conns
  {
    var s1 := s.(callers := s.callers - {caller});
    if s.callers[caller].Waiting? then s1 else Release(s1, s.conns[s.callers[caller].f.conn].provider)
  }

  predicate Enabled(s: State, a: Action) {
    match a
    case Tick(elapsed) => elapsed >= 0.0
    case Call(caller, conn, _, _) => caller !in s.callers && conn in s.conns
    case Acquire(caller, _) =>
      && caller in s.callers && s.callers[caller].Waiting? && s.callers[caller].f.conn in s.conns
      && s.conns[s.callers[caller].f.conn].provider !in s.holder
    case Wake(caller) =>
      && caller in s.callers && s.callers[caller].Sleeping? && s.callers[caller].f.conn in s.conns
      && s.now >= s.callers[caller].until
    case Answer(caller, _, _) =>
      caller in s.callers && s.callers[caller].Calling? && s.callers[caller].f.conn in s.conns
    case Cancel(caller) => caller in s.callers && s.callers[caller].f.conn in s.conns
    case Forget(_) => true
  }

  function Step(s: State, a: Action): State {
    if !Enabled(s, a) then s
    else
      match a
      case Tick(elapsed) => s.(now := s.now + elapsed)
      case Call(caller, conn, force, wall) => Enter(s, caller, conn, force, wall)
      case Acquire(caller, wall) => Locked(s, caller, s.callers[caller].f, wall)
      case Wake(caller) => Start(s, caller, s.callers[caller].f)
      case Answer(caller, reply, wall) => Finish(s, caller, s.callers[caller].f, reply, wall)
      case Cancel(caller) => Abandon(s, caller)
      case Forget(p) => s.(last := s.last - {p}, log := s.log + [Forgotten(p)])
  }

  function Exec(s: State, actions: seq<Action>): State {
    if actions == [] then s else Step(Exec(s, actions[..|actions| - 1]), actions[|actions| - 1])
  }

  predicate Initial(s: State) {
    s.callers == map[] && s.holder == map[] && s.last == map[] && s.log == []
  }

  /** The same steps as the code takes them, on the dictionaries it shares between calls.
      Each method runs up to the next suspension; `token` is what the call returns, if it
      returns. */
  class TokenRefresher {
    var now: real
    const refreshers: set<Provider>
    var conns: map<nat, Conn>
    var callers: map<Caller, Phase>
    var holder: map<Provider, Caller>
    var last: map<Provider, real>
    ghost var log: seq<Event>

    ghost function Contents(): State
      reads this
    {
      State(now, refreshers, conns, callers, holder, last, log)
    }

    constructor (registered: set<Provider>, connections: map<nat, Conn>)
      ensures Initial(Contents()) && refreshers == registered && conns == connections
    {
      now, refreshers, conns := 0.0, registered, connections;
      callers, holder, last, log := map[], map[], map[], [];
    }

    method Request(caller: Caller, conn: nat, force: bool, wall: int) returns (token: Option<Token>)
      requires conn in conns && caller !in callers
      modifies this
      ensures Contents() == Enter(old(Contents()), caller, conn, force, wall)
      ensures token.Some? <==> caller !in callers
      ensures token.Some? ==> log == old(log) + [Returned(caller, conn, token.value)]
    {
      var c := conns[conn];
      var stored := if c.apiKey != "" then c.apiKey else if c.access.Some? then c.access.value else "";
      if (!force && !c.Expired(wall)) || c.refresh == "" || c.provider !in refreshers {
        assert callers == callers - {caller};
        log := log + [Returned(caller, conn, stored)];
        return Some(stored);
      }
      callers := callers[caller := Waiting(Frame(conn, stored, c.refresh, force))];
      token := None;
    }

    method Begin(caller: Caller, f: Frame)
      requires f.conn in conns
      modifies this
      ensures Contents() == Start(old(Contents()), caller, f)
    {
      var p := conns[f.conn].provider;
      last := last[p := now];
      holder := holder[p := caller];
      callers := callers[caller := Calling(f)];
      log := log + [Started(p, caller, f.conn, f.stored, f.refresh, now)];
    }

    method GotLock(caller: Caller, wall: int) returns (token: Option<Token>)
      requires Enabled(Contents(), Acquire(caller, wall))
      modifies this
      ensures Contents() == Locked(old(Contents()), caller, old(callers)[caller].f, wall)
      ensures token.Some? <==> caller !in callers
      ensures token.Some? ==> log == old(log) + [Returned(caller, old(callers)[caller].f.conn, token.value)]
    {
      var f := callers[caller].f;
      var c := conns[f.conn];
      if c.apiKey != "" && c.apiKey != f.stored {
        callers := callers - {caller};
        log := log + [Returned(caller, f.conn, c.apiKey)];
        return Some(c.apiKey);
      }
      if c.refresh != "" { f := f.(refresh := c.refresh); }
      if !f.force && !c.Expired(wall) {
        var current := if c.apiKey != "" then c.apiKey else f.stored;
        callers := callers - {caller};
        log := log + [Returned(caller, f.conn, current)];
        return Some(current);
      }
      token := None;
      if c.provider in last {
        var remaining := MIN_INTERVAL - (now - last[c.provider]);
        if remaining > 0.0 {
          callers := callers[caller := Sleeping(f, now + remaining)];
          holder := holder[c.provider := caller];
          return;
        }
      }
      Begin(caller, f);
    }

    method Answered(caller: Caller, reply: Reply, wall: int) returns (token: Token)
      requires Enabled(Contents(), Answer(caller, reply, wall))
      modifies this
      ensures Contents() == Finish(old(Contents()), caller, old(callers)[caller].f, reply, wall)
      ensures log != [] && log[|log| - 1] == Returned(caller, old(callers)[caller].f.conn, token)
    {
      var f := callers[caller].f;
      var c := conns[f.conn];
      holder := holder - {c.provider};
      callers := callers - {caller};
      if reply.Failed? || reply.access == "" {
        log := log + [Returned(caller, f.conn, f.stored)];
        return f.stored;
      }
      var refresh := if reply.refresh != "" then reply.refresh else f.refresh;
      var expires := wall + if reply.expiresIn != 0 then reply.expiresIn else 3600;
      ghost var was := c.Stored();
      c := c.(apiKey := reply.access);
      if c.access.Some? { c := c.(access := Some(reply.access)); }
      if refresh != "" { c := c.(refresh := refresh); }
      c := c.(expires := Some(expires));
      conns := conns[f.conn := c];
      log := log + [Replaced(f.conn, was, reply.access, c.refresh)] + [Returned(caller, f.conn, reply.access)];
      token := reply.access;
    }

    /** The administrative code that clears the recorded start. */
    method ForgetStart(p: Provider)
      modifies this
      ensures Contents() == Step(old(Contents()), Forget(p))
    {
      last := last - {p};
      log := log + [Forgotten(p)];
    }
  }

  // ---- What the log says ---------------------------------------------------

  /** Access and refresh token of a connection after the logged replacements. */
  function Credentials(log: seq<Event>, conns: map<nat, Conn>, c: nat): (Token, Token)
    requires c in conns
  {
    if log == [] then
      (if conns[c].apiKey != "" then conns[c].apiKey else if conns[c].access.Some? then conns[c].access.value else "",
       conns[c].refresh)
    else
      var e := log[|log| - 1];
      if e.Replaced? && e.conn == c then (e.access, e.refresh)
      else Credentials(log[..|log| - 1], conns, c)
  }

  /** When the provider was last called, if nothing has cleared that time since. */
  function LastStart(log: seq<Event>, p: Provider): Option<real> {
    if log == [] then None
    else
      var e := log[|log| - 1];
      if e.Started? && e.provider == p then Some(e.at)
      else if e.Forgotten? && e.provider == p then None
      else LastStart(log[..|log| - 1], p)
  }

  /** What an event logged after `before` promises: a refresh presents the credentials the
      connection then has and keeps its distance from the one before it; a call returns
      the token the connection then has. */
  predicate Promises(before: seq<Event>, conns: map<nat, Conn>, e: Event) {
    match e
    case Started(p, _, c, stored, refresh, at) =>
      && c in conns && Credentials(before, conns, c) == (stored, refresh)
      && (LastStart(before, p).Some? ==> at - LastStart(before, p).value >= MIN_INTERVAL)
    case Replaced(c, was, _, _) => c in conns && was == Credentials(before, conns, c).0
    case Returned(_, c, token) => c in conns && token == Credentials(before, conns, c).0
    case Forgotten(_) => true
  }

  predicate Sound(log: seq<Event>, conns: map<nat, Conn>) {
    log != [] ==> Sound(log[..|log| - 1], conns) && Promises(log[..|log| - 1], conns, log[|log| - 1])
  }

  lemma CredentialsSnoc(log: seq<Event>, conns: map<nat, Conn>, c: nat, e: Event)
    requires c in conns
    ensures Credentials(log + [e], conns, c)
         == if e.Replaced? && e.conn == c then (e.access, e.refresh) else Credentials(log, conns, c)
  {
    assert (log + [e])[..|log|] == log;
  }

  lemma LastStartSnoc(log: seq<Event>, p: Provider, e: Event)
    ensures LastStart(log + [e], p)
         == if e.Started? && e.provider == p then Some(e.at)
            else if e.Forgotten? && e.provider == p then None
            else LastStart(log, p)
  {
    assert (log + [e])[..|log|] == log;
  }

  lemma SoundSnoc(log: seq<Event>, conns: map<nat, Conn>, e: Event)
    ensures Sound(log + [e], conns) <==> Sound(log, conns) && Promises(log, conns, e)
  {
    hide Promises;
    assert (log + [e])[..|log|] == log;
  }

  lemma {:induction false} SoundAt(log: seq<Event>, conns: map<nat, Conn>, j: nat)
    requires Sound(log, conns) && j < |log|
    ensures Promises(log[..j], conns, log[j])
    decreases |log|
  {
    hide Promises;
    if j < |log| - 1 {
      SoundAt(log[..|log| - 1], conns, j);
      assert log[..|log| - 1][..j] == log[..j];
    }
  }

  // ---- The invariant -------------------------------------------------------

  predicate Held(ph: Phase) {
    !ph.Waiting?
  }

  /** A provider's lock belongs to exactly the call that sleeps or calls for it. */
  predicate Locks(s: State) {
    && (forall k | k in s.callers :: s.callers[k].f.conn in s.conns)
    && (forall k | k in s.callers && Held(s.callers[k]) ::
          var p := s.conns[s.callers[k].f.conn].provider; p in s.holder && s.holder[p] == k)
    && (forall p | p in s.holder ::
          s.holder[p] in s.callers && Held(s.callers[s.holder[p]])
          && s.conns[s.callers[s.holder[p]].f.conn].provider == p)
  }

  /** What a suspended call still knows about its connection. */
  predicate Knows(c: Conn, ph: Phase) {
    && c.refresh != ""
    && (if ph.Waiting? then c.apiKey == "" ==> ph.f.stored == c.Stored()
        else ph.f.stored == c.Stored() && ph.f.refresh == c.refresh)
  }

  predicate Frames(s: State) {
    forall k | k in s.callers :: s.callers[k].f.conn in s.conns && Knows(s.conns[s.callers[k].f.conn], s.callers[k])
  }

  /** The clock, the recorded starts and every sleeper's wake-up time. */
  ghost predicate Pace(s: State) {
    && (forall p :: LastStart(s.log, p) == if p in s.last then Some(s.last[p]) else None)
    && (forall k | k in s.callers && s.callers[k].Sleeping? ::
          && s.callers[k].f.conn in s.conns
          && var p := s.conns[s.callers[k].f.conn].provider;
             p in s.last ==> s.last[p] + MIN_INTERVAL <= s.callers[k].until)
  }

  predicate History(s: State, conns: map<nat, Conn>) {
    && Sound(s.log, conns)
    && s.conns.Keys == conns.Keys
    && (forall c | c in conns ::
          s.conns[c].provider == conns[c].provider
          && Credentials(s.log, conns, c) == (s.conns[c].Stored(), s.conns[c].refresh))
  }

  ghost predicate Inv(s: State, conns: map<nat, Conn>) {
    Locks(s) && Frames(s) && Pace(s) && History(s, conns)
  }

  // ---- Every step keeps it -------------------------------------------------

  lemma ReturnKeepsHistory(s: State, conns: map<nat, Conn>, caller: Caller, conn: nat, token: Token)
    requires History(s, conns) && conn in s.conns && token == s.conns[conn].Stored()
    ensures History(Return(s, caller, conn, token), conns)
  {
    var e := Returned(caller, conn, token);
    SoundSnoc(s.log, conns, e);
    forall c | c in conns { CredentialsSnoc(s.log, conns, c, e); }
  }

  lemma ReturnKeepsPace(s: State, caller: Caller, conn: nat, token: Token)
    requires Pace(s)
    ensures Pace(Return(s, caller, conn, token))
  {
    forall p { LastStartSnoc(s.log, p, Returned(caller, conn, token)); }
  }

  lemma ReturnKeeps(s: State, conns: map<nat, Conn>, caller: Caller, conn: nat, token: Token)
    requires Inv(s, conns) && conn in s.conns && token == s.conns[conn].Stored()
    requires caller in s.callers ==> s.callers[caller].Waiting?
    ensures Inv(Return(s, caller, conn, token), conns)
  {
    hide History, Pace, Knows, Conn.Stored;
    ReturnKeepsHistory(s, conns, caller, conn, token);
    ReturnKeepsPace(s, caller, conn, token);
  }

  lemma EnterKeeps(s: State, conns: map<nat, Conn>, caller: Caller, conn: nat, force: bool, wall: int)
    requires Inv(s, conns) && conn in s.conns && caller !in s.callers
    ensures Inv(Enter(s, caller, conn, force, wall), conns)
  {
    var c := s.conns[conn];
    if (!force && !c.Expired(wall)) || c.refresh == "" || c.provider !in s.refreshers {
      hide Conn.Expired, Conn.Stored, Inv;
      ReturnKeeps(s, conns, caller, conn, c.Stored());
    } else {
      hide Conn.Expired, Conn.Stored;
      WaitKeeps(s, conns, caller, Frame(conn, c.Stored(), c.refresh, force));
    }
  }

  lemma WaitKeeps(s: State, conns: map<nat, Conn>, caller: Caller, f: Frame)
    requires Inv(s, conns) && f.conn in s.conns && caller !in s.callers && Knows(s.conns[f.conn], Waiting(f))
    ensures Inv(s.(callers := s.callers[caller := Waiting(f)]), conns)
  {
    hide Sound, Credentials, LastStart, Knows, Conn.Stored;
  }

  lemma StartKeepsPace(s: State, caller: Caller, f: Frame)
    requires Pace(s) && Locks(s) && f.conn in s.conns
    requires s.conns[f.conn].provider in s.holder ==> s.holder[s.conns[f.conn].provider] == caller
    ensures Pace(Start(s, caller, f))
  {
    var p := s.conns[f.conn].provider;
    forall q { LastStartSnoc(s.log, q, Started(p, caller, f.conn, f.stored, f.refresh, s.now)); }
  }

  lemma StartKeepsHistory(s: State, conns: map<nat, Conn>, caller: Caller, f: Frame)
    requires Pace(s) && History(s, conns) && f.conn in s.conns
    requires s.conns[f.conn].Stored() == f.stored && s.conns[f.conn].refresh == f.refresh
    requires s.conns[f.conn].provider in s.last ==> s.now - s.last[s.conns[f.conn].provider] >= MIN_INTERVAL
    ensures History(Start(s, caller, f), conns)
  {
    var e := Started(s.conns[f.conn].provider, caller, f.conn, f.stored, f.refresh, s.now);
    SoundSnoc(s.log, conns, e);
    forall c | c in conns { CredentialsSnoc(s.log, conns, c, e); }
  }

  /** The caller has the lock, or is about to take it while it is free. */
  predicate MayTake(s: State, caller: Caller, p: Provider) {
    && caller in s.callers && s.callers[caller].f.conn in s.conns
    && s.conns[s.callers[caller].f.conn].provider == p
    && (if Held(s.callers[caller]) then p in s.holder && s.holder[p] == caller else p !in s.holder)
  }

  lemma TakeKeepsLocks(s: State, s': State, caller: Caller, ph: Phase)
    requires Locks(s) && ph.f.conn in s.conns && Held(ph)
    requires MayTake(s, caller, s.conns[ph.f.conn].provider)
    requires s'.conns == s.conns && s'.callers == s.callers[caller := ph]
    requires s'.holder == s.holder[s.conns[ph.f.conn].provider := caller]
    ensures Locks(s')
  {}

  lemma StartKeeps(s: State, conns: map<nat, Conn>, caller: Caller, f: Frame)
    requires Inv(s, conns) && f.conn in s.conns && MayTake(s, caller, s.conns[f.conn].provider)
    requires Knows(s.conns[f.conn], Calling(f))
    requires s.conns[f.conn].provider in s.last ==> s.now - s.last[s.conns[f.conn].provider] >= MIN_INTERVAL
    ensures Inv(Start(s, caller, f), conns)
  {
    StartKeepsPace(s, caller, f);
    StartKeepsHistory(s, conns, caller, f);
    TakeKeepsLocks(s, Start(s, caller, f), caller, Calling(f));
    hide Locks, Pace, History, MayTake, Conn.Stored;
  }

  lemma WakeKeeps(s: State, conns: map<nat, Conn>, caller: Caller)
    requires Inv(s, conns) && Enabled(s, Wake(caller))
    ensures Inv(Start(s, caller, s.callers[caller].f), conns)
  {
    hide History;
    StartKeeps(s, conns, caller, s.callers[caller].f);
  }

  lemma SleepKeeps(s: State, conns: map<nat, Conn>, caller: Caller, f: Frame, until: real)
    requires Inv(s, conns) && f.conn in s.conns && MayTake(s, caller, s.conns[f.conn].provider)
    requires Knows(s.conns[f.conn], Calling(f))
    requires s.conns[f.conn].provider in s.last && s.last[s.conns[f.conn].provider] + MIN_INTERVAL <= until
    ensures Inv(s.(callers := s.callers[caller := Sleeping(f, until)],
                   holder := s.holder[s.conns[f.conn].provider := caller]), conns)
  {
    hide Sound, Credentials, LastStart;
    var s' := s.(callers := s.callers[caller := Sleeping(f, until)],
                 holder := s.holder[s.conns[f.conn].provider := caller]);
    TakeKeepsLocks(s, s', caller, Sleeping(f, until));
    hide Locks;
  }

  lemma LockedKeeps(s: State, conns: map<nat, Conn>, caller: Caller, wall: int)
    requires Inv(s, conns) && Enabled(s, Acquire(caller, wall))
    ensures Inv(Locked(s, caller, s.callers[caller].f, wall), conns)
  {
    hide History, Pace, Locks, Start, Return;
    var f := s.callers[caller].f;
    var c := s.conns[f.conn];
    if c.apiKey != "" && c.apiKey != f.stored {
      ReturnKeeps(s, conns, caller, f.conn, c.apiKey);
    } else if !f.force && !c.Expired(wall) {
      ReturnKeeps(s, conns, caller, f.conn, c.Stored());
    } else {
      var f' := f.(refresh := c.refresh);
      if c.provider in s.last && MIN_INTERVAL - (s.now - s.last[c.provider]) > 0.0 {
        SleepKeeps(s, conns, caller, f', s.now + (MIN_INTERVAL - (s.now - s.last[c.provider])));
      } else {
        StartKeeps(s, conns, caller, f');
      }
    }
  }

  lemma LeaveKeepsLocks(s: State, s': State, caller: Caller)
    requires Locks(s) && caller in s.callers && Held(s.callers[caller])
    requires s'.callers == s.callers - {caller}
    requires s'.holder == s.holder - {s.conns[s.callers[caller].f.conn].provider}
    requires s'.conns.Keys == s.conns.Keys && (forall c | c in s.conns :: s'.conns[c].provider == s.conns[c].provider)
    ensures Locks(s')
  {}

  lemma FailedKeeps(s: State, conns: map<nat, Conn>, caller: Caller)
    requires Inv(s, conns) && caller in s.callers && s.callers[caller].Calling?
    ensures var f := s.callers[caller].f;
            Inv(Return(Release(s, s.conns[f.conn].provider), caller, f.conn, f.stored), conns)
  {
    hide Conn.Stored;
    var f := s.callers[caller].f;
    var s1 := Release(s, s.conns[f.conn].provider);
    LeaveKeepsLocks(s, Return(s1, caller, f.conn, f.stored), caller);
    assert Knows(s.conns[f.conn], s.callers[caller]);
    ReturnKeepsHistory(s1, conns, caller, f.conn, f.stored);
    ReturnKeepsPace(s1, caller, f.conn, f.stored);
    hide Locks, Pace, History;
  }

  /** The connection after a successful refresh, and the events logged for it. */
  function Renewed(c: Conn, f: Frame, reply: Reply, wall: int): Conn
    requires reply.Issued?
  {
    var refresh := if reply.refresh != "" then reply.refresh else f.refresh;
    c.(apiKey := reply.access, access := if c.access.Some? then Some(reply.access) else None,
       refresh := if refresh != "" then refresh else c.refresh,
       expires := Some(wall + if reply.expiresIn != 0 then reply.expiresIn else 3600))
  }

  function Swap(s: State, conn: nat, c: Conn): State
    requires conn in s.conns
  {
    s.(conns := s.conns[conn := c], log := s.log + [Replaced(conn, s.conns[conn].Stored(), c.apiKey, c.refresh)])
  }

  lemma SwapKeepsHistory(s: State, conns: map<nat, Conn>, conn: nat, c: Conn)
    requires History(s, conns) && conn in s.conns && c.provider == s.conns[conn].provider && c.apiKey != ""
    ensures History(Swap(s, conn, c), conns)
  {
    var e := Replaced(conn, s.conns[conn].Stored(), c.apiKey, c.refresh);
    SoundSnoc(s.log, conns, e);
    forall k | k in conns { CredentialsSnoc(s.log, conns, k, e); }
  }

  lemma SwapKeepsPace(s: State, conn: nat, c: Conn)
    requires Pace(s) && conn in s.conns && c.provider == s.conns[conn].provider
    ensures Pace(Swap(s, conn, c))
  {
    forall p { LastStartSnoc(s.log, p, Replaced(conn, s.conns[conn].Stored(), c.apiKey, c.refresh)); }
  }

  /** Whoever else is suspended on the connection only waits, and learns of the new token. */
  lemma SwapKeepsFrames(s: State, conn: nat, c: Conn, caller: Caller)
    requires Frames(s) && Locks(s) && caller in s.callers && Held(s.callers[caller]) && s.callers[caller].f.conn == conn
    requires c.provider == s.conns[conn].provider && c.apiKey != "" && c.refresh != ""
    ensures forall k | k in s.callers && k != caller ::
              Knows(Swap(s, conn, c).conns[s.callers[k].f.conn], s.callers[k])
  {
    forall k | k in s.callers && k != caller
      ensures Knows(Swap(s, conn, c).conns[s.callers[k].f.conn], s.callers[k])
    {
      assert Knows(s.conns[s.callers[k].f.conn], s.callers[k]);
      if s.callers[k].f.conn == conn { assert !Held(s.callers[k]); }
    }
  }

  lemma FinishIsSwap(s: State, caller: Caller, f: Frame, reply: Reply, wall: int)
    requires f.conn in s.conns && reply.Issued? && reply.access != ""
    ensures var c := Renewed(s.conns[f.conn], f, reply, wall);
            Finish(s, caller, f, reply, wall)
            == Return(Release(Swap(s, f.conn, c), c.provider), caller, f.conn, reply.access)
  {}

  lemma IssuedKeeps(s: State, conns: map<nat, Conn>, caller: Caller, c: Conn)
    requires Inv(s, conns) && caller in s.callers && s.callers[caller].Calling?
    requires c.provider == s.conns[s.callers[caller].f.conn].provider && c.apiKey != "" && c.refresh != ""
    ensures var conn := s.callers[caller].f.conn;
            Inv(Return(Release(Swap(s, conn, c), c.provider), caller, conn, c.apiKey), conns)
  {
    var conn := s.callers[caller].f.conn;
    var s1 := Swap(s, conn, c);
    SwapKeepsHistory(s, conns, conn, c);
    SwapKeepsPace(s, conn, c);
    SwapKeepsFrames(s, conn, c, caller);
    LeaveKeepsLocks(s, Return(Release(s1, c.provider), caller, conn, c.apiKey), caller);
    SwapFrame(s, conn, c);
    hide Locks, Swap, Knows, Conn.Stored, Pace, History;
    LeaveKeepsHistory(s1, conns, caller, conn, c);
    LeaveKeepsPace(s1, caller, conn, c);
  }

  lemma LeaveKeepsHistory(s: State, conns: map<nat, Conn>, caller: Caller, conn: nat, c: Conn)
    requires History(s, conns) && conn in s.conns && s.conns[conn] == c && c.apiKey != ""
    ensures History(Return(Release(s, c.provider), caller, conn, c.apiKey), conns)
  {
    assert c.Stored() == c.apiKey;
    hide Conn.Stored, Sound, Credentials;
    ReturnKeepsHistory(Release(s, c.provider), conns, caller, conn, c.apiKey);
  }

  lemma LeaveKeepsPace(s: State, caller: Caller, conn: nat, c: Conn)
    requires Pace(s)
    ensures Pace(Return(Release(s, c.provider), caller, conn, c.apiKey))
  {
    hide LastStart;
    ReturnKeepsPace(Release(s, c.provider), caller, conn, c.apiKey);
  }

  lemma SwapFrame(s: State, conn: nat, c: Conn)
    requires conn in s.conns
    ensures Swap(s, conn, c).conns == s.conns[conn := c] && Swap(s, conn, c).callers == s.callers
  {}

  lemma FinishKeeps(s: State, conns: map<nat, Conn>, caller: Caller, reply: Reply, wall: int)
    requires Inv(s, conns) && Enabled(s, Answer(caller, reply, wall))
    ensures Inv(Finish(s, caller, s.callers[caller].f, reply, wall), conns)
  {
    hide History, Pace, Locks;
    var f := s.callers[caller].f;
    assert Knows(s.conns[f.conn], s.callers[caller]);
    if reply.Failed? || reply.access == "" {
      FailedKeeps(s, conns, caller);
    } else {
      FinishIsSwap(s, caller, f, reply, wall);
      hide Finish;
      IssuedKeeps(s, conns, caller, Renewed(s.conns[f.conn], f, reply, wall));
    }
  }

  lemma AbandonKeeps(s: State, conns: map<nat, Conn>, caller: Caller)
    requires Inv(s, conns) && caller in s.callers
    ensures s.callers[caller].f.conn in s.conns && Inv(Abandon(s, caller), conns)
  {
    hide Sound, Credentials, LastStart, Knows;
    if Held(s.callers[caller]) {
      LeaveKeepsLocks(s, Abandon(s, caller), caller);
      hide Locks;
    }
  }

  lemma ForgetKeeps(s: State, conns: map<nat, Conn>, p: Provider)
    requires Inv(s, conns)
    ensures Inv(Step(s, Forget(p)), conns)
  {
    hide Knows, Conn.Stored;
    SoundSnoc(s.log, conns, Forgotten(p));
    forall c | c in conns { CredentialsSnoc(s.log, conns, c, Forgotten(p)); }
    forall q { LastStartSnoc(s.log, q, Forgotten(p)); }
  }

  lemma StepKeeps(s: State, conns: map<nat, Conn>, a: Action)
    requires Inv(s, conns)
    ensures Inv(Step(s, a), conns)
  {
    hide Inv, Enter, Locked, Start, Finish, Abandon;
    if Enabled(s, a) {
      match a {
        case Tick(elapsed) => TickKeeps(s, conns, elapsed);
        case Call(caller, conn, force, wall) => EnterKeeps(s, conns, caller, conn, force, wall);
        case Acquire(caller, wall) => LockedKeeps(s, conns, caller, wall);
        case Wake(caller) => WakeKeeps(s, conns, caller);
        case Answer(caller, reply, wall) => FinishKeeps(s, conns, caller, reply, wall);
        case Cancel(caller) => AbandonKeeps(s, conns, caller);
        case Forget(p) => ForgetKeeps(s, conns, p);
      }
    }
  }

  lemma TickKeeps(s: State, conns: map<nat, Conn>, elapsed: real)
    requires Inv(s, conns)
    ensures Inv(s.(now := s.now + elapsed), conns)
  {
    hide Sound, Credentials, LastStart, Knows, Conn.Stored;
  }

  /** The invariant over every run, of any number of interleaved callers. */
  lemma {:induction false} RunKeeps(s: State, actions: seq<Action>)
    requires Initial(s)
    ensures Inv(Exec(s, actions), s.conns)
    decreases |actions|
  {
    hide Step;
    if actions != [] {
      hide Inv;
      RunKeeps(s, actions[..|actions| - 1]);
      StepKeeps(Exec(s, actions[..|actions| - 1]), s.conns, actions[|actions| - 1]);
    }
  }

  // ---- What follows for every run ------------------------------------------

  /** The provider whose refresh function this caller is awaiting. */
  function CallsProvider(s: State, caller: Caller): Option<Provider> {
    if caller in s.callers && s.callers[caller].Calling? && s.callers[caller].f.conn in s.conns then
      Some(s.conns[s.callers[caller].f.conn].provider)
    else None
  }

  /** A provider never has two refresh calls in flight. */
  lemma OneCallInFlight(s: State, actions: seq<Action>, a: Caller, b: Caller)
    requires Initial(s)
    ensures var t := Exec(s, actions);
            CallsProvider(t, a).Some? && CallsProvider(t, a) == CallsProvider(t, b) ==> a == b
  {
    hide Exec, Frames, Pace, History;
    RunKeeps(s, actions);
  }

  /** No event in the log clears the provider's last start. */
  predicate Undisturbed(log: seq<Event>, p: Provider) {
    forall e | e in log :: e != Forgotten(p)
  }

  lemma {:induction false} LastStartLater(log: seq<Event>, p: Provider, i: nat, conns: map<nat, Conn>)
    requires i < |log| && log[i].Started? && log[i].provider == p && Undisturbed(log[i..], p) && Sound(log, conns)
    ensures LastStart(log, p).Some? && LastStart(log, p).value >= log[i].at
    decreases |log|
  {
    hide Credentials;
    if i < |log| - 1 {
      var front := log[..|log| - 1];
      assert forall e | e in front[i..] :: e in log[i..];
      LastStartLater(front, p, i, conns);
      assert log[|log| - 1] in log[i..];
    }
  }

  /** In every run, two refreshes of a provider start at least 30 seconds apart, unless the
      administrative code that clears the recorded start ran between them. */
  lemma StartsAreSpaced(s: State, actions: seq<Action>, i: nat, j: nat)
    requires Initial(s)
    requires var log := Exec(s, actions).log;
             && i < j < |log| && log[i].Started? && log[j].Started? && log[i].provider == log[j].provider
             && Undisturbed(log[i..j], log[i].provider)
    ensures var log := Exec(s, actions).log; log[j].at - log[i].at >= 30.0
  {
    hide Exec, LastStart, Sound, Credentials, Frames, Pace, Locks;
    RunKeeps(s, actions);
    var log := Exec(s, actions).log;
    SoundAt(log, s.conns, j);
    SoundPrefix(log, s.conns, j);
    assert log[..j][i..] == log[i..j] && log[..j][i] == log[i];
    LastStartLater(log[..j], log[i].provider, i, s.conns);
  }

  lemma {:induction false} SoundPrefix(log: seq<Event>, conns: map<nat, Conn>, j: nat)
    requires Sound(log, conns) && j <= |log|
    ensures Sound(log[..j], conns)
    decreases |log|
  {
    hide Promises;
    if j == |log| {
      assert log[..j] == log;
    } else {
      SoundPrefix(log[..|log| - 1], conns, j);
      assert log[..|log| - 1][..j] == log[..j];
    }
  }

  /** In every run, each refresh presents the access and refresh token its connection has at
      that moment, and each call returns the access token its connection has at that moment. */
  lemma AlwaysCurrent(s: State, actions: seq<Action>, j: nat)
    requires Initial(s) && j < |Exec(s, actions).log|
    ensures var log := Exec(s, actions).log;
            var e := log[j];
            && (e.Started? ==> e.conn in s.conns && Credentials(log[..j], s.conns, e.conn) == (e.stored, e.refresh))
            && (e.Returned? ==> e.conn in s.conns && Credentials(log[..j], s.conns, e.conn).0 == e.token)
  {
    hide Exec, LastStart, Sound, Credentials, Frames, Pace, Locks;
    RunKeeps(s, actions);
    SoundAt(Exec(s, actions).log, s.conns, j);
  }

  predicate Reissued(e: Event, c: nat, token: Token) {
    e.Replaced? && e.conn == c && e.access == token
  }

  lemma {:induction false} StaysReplaced(log: seq<Event>, conns: map<nat, Conn>, c: nat, i: nat, token: Token)
    requires c in conns && i < |log| && log[i].Replaced? && log[i].conn == c
    requires forall e | e in log[i..] :: !Reissued(e, c, token)
    ensures Credentials(log, conns, c).0 != token
    decreases |log|
  {
    var e := log[|log| - 1];
    assert e in log[i..];
    if !(e.Replaced? && e.conn == c) {
      assert forall x | x in log[..|log| - 1][i..] :: x in log[i..];
      StaysReplaced(log[..|log| - 1], conns, c, i, token);
    }
  }

  /** Once a refresh has replaced the token T of a connection, and while the provider does
      not issue T again, no call that read T refreshes and no call returns T. */
  lemma ReplacedTokenIsNeverUsedAgain(s: State, actions: seq<Action>, c: nat, i: nat, j: nat, token: Token)
    requires Initial(s) && c in s.conns
    requires var log := Exec(s, actions).log;
             && i < j < |log| && log[i].Replaced? && log[i].conn == c
             && (forall e | e in log[i..j] :: !Reissued(e, c, token))
    ensures var e := Exec(s, actions).log[j];
            && (e.Started? && e.conn == c ==> e.stored != token)
            && (e.Returned? && e.conn == c ==> e.token != token)
  {
    hide Exec, Credentials;
    var log := Exec(s, actions).log;
    AlwaysCurrent(s, actions, j);
    assert log[..j][i..] == log[i..j] && log[..j][i] == log[i];
    StaysReplaced(log[..j], s.conns, c, i, token);
  }

  /** In every run, a call that gets the lock returns at once, with the token its connection
      has by then, exactly when that is no longer the token it read or when nothing obliges
      it to refresh. */
  lemma WaitersCoalesce(s: State, actions: seq<Action>, caller: Caller, wall: int)
    requires Initial(s) && Enabled(Exec(s, actions), Acquire(caller, wall))
    ensures var t := Exec(s, actions);
            var f := t.callers[caller].f;
            var c := t.conns[f.conn];
            (Step(t, Acquire(caller, wall)) == Return(t, caller, f.conn, c.Stored()))
            <==> (f.stored != c.Stored() || (!f.force && !c.Expired(wall)))
  {
    hide Exec, Pace, History, Locks, Conn.Expired;
    RunKeeps(s, actions);
    var t := Exec(s, actions);
    var f := t.callers[caller].f;
    assert Knows(t.conns[f.conn], t.callers[caller]);
    assert caller !in Return(t, caller, f.conn, t.conns[f.conn].Stored()).callers;
  }

  /** After a successful refresh, an unforced call is served with the new token, without
      waiting for the lock, exactly until 60 seconds before that token expires. */
  lemma RenewedTokenServes(s: State, actions: seq<Action>, caller: Caller, reply: Reply, wall: int,
                           other: Caller, later: int)
    requires Initial(s) && Enabled(Exec(s, actions), Answer(caller, reply, wall))
    requires reply.Issued? && reply.access != ""
    ensures var t := Exec(s, actions);
            var c := t.callers[caller].f.conn;
            var u := Step(t, Answer(caller, reply, wall));
            other !in u.callers && t.conns[c].provider in t.refreshers ==>
              ((Step(u, Call(other, c, false, later)) == Return(u, other, c, reply.access))
               <==> later < wall + (if reply.expiresIn != 0 then reply.expiresIn else 3600) - 60)
  {
    hide Exec, Pace, History, Locks;
    RunKeeps(s, actions);
    var t := Exec(s, actions);
    var f := t.callers[caller].f;
    assert Knows(t.conns[f.conn], t.callers[caller]);
    var c' := Renewed(t.conns[f.conn], f, reply, wall);
    FinishIsSwap(t, caller, f, reply, wall);
    hide Finish, Knows;
    var u := Step(t, Answer(caller, reply, wall));
    assert u.conns[f.conn] == c';
    assert other !in Return(u, other, f.conn, reply.access).callers;
  }

  /** In every run, an answer with an access token is stored at once: the new access token, also
      under the second key where that exists, the new refresh token if one was issued, and the
      new expiry. Without one nothing is stored. No other connection changes. */
  lemma AnswerIsStored(s: State, actions: seq<Action>, caller: Caller, reply: Reply, wall: int)
    requires Initial(s) && Enabled(Exec(s, actions), Answer(caller, reply, wall))
    ensures var t := Exec(s, actions);
            var u := Step(t, Answer(caller, reply, wall));
            var conn := t.callers[caller].f.conn;
            var c, c' := t.conns[conn], u.conns[conn];
            && u.conns.Keys == t.conns.Keys
            && (forall k | k in t.conns && k != conn :: u.conns[k] == t.conns[k])
            && (reply.Issued? && reply.access != "" ==>
                  && c'.provider == c.provider
                  && c'.apiKey == reply.access
                  && c'.access == (if c.access.Some? then Some(reply.access) else None)
                  && c'.refresh == (if reply.refresh != "" then reply.refresh else c.refresh)
                  && c'.expires == Some(wall + if reply.expiresIn != 0 then reply.expiresIn else 3600))
            && (reply.Failed? || reply.access == "" ==> c' == c)
            && caller !in u.callers
  {
    hide Exec, Pace, History, Locks, Conn.Stored;
    RunKeeps(s, actions);
    var t := Exec(s, actions);
    assert Knows(t.conns[t.callers[caller].f.conn], t.callers[caller]);
  }

  /** Nothing but such an answer changes any connection. */
  lemma OnlyAnswersStore(s: State, a: Action)
    requires !(a.Answer? && Enabled(s, a) && a.reply.Issued? && a.reply.access != "")
    ensures Step(s, a).conns == s.conns
  {
    hide Conn.Stored, Conn.Expired;
  }

  lemma StepLogs(s: State, a: Action)
    ensures s.log <= Step(s, a).log
  {
    hide Conn.Stored, Conn.Expired;
  }

  lemma {:induction false} LogGrows(s: State, actions: seq<Action>, later: seq<Action>)
    ensures Exec(s, actions).log <= Exec(s, actions + later).log
    decreases |later|
  {
    hide Exec, Step;
    if later == [] {
      assert actions + later == actions;
    } else {
      var n := |later| - 1;
      LogGrows(s, actions, later[..n]);
      assert actions + later == actions + later[..n] + [later[n]];
      ExecSnoc(s, actions + later[..n], later[n]);
      StepLogs(Exec(s, actions + later[..n]), later[n]);
    }
  }

  lemma {:induction false} CredentialsStay(log: seq<Event>, more: seq<Event>, conns: map<nat, Conn>, c: nat)
    requires c in conns && forall e | e in more :: !(e.Replaced? && e.conn == c)
    ensures Credentials(log + more, conns, c) == Credentials(log, conns, c)
    decreases |more|
  {
    hide Credentials;
    if more == [] {
      assert log + more == log;
    } else {
      var front, last := more[..|more| - 1], more[|more| - 1];
      assert last in more && log + more == log + front + [last];
      CredentialsStay(log, front, conns, c);
      CredentialsSnoc(log + front, conns, c, last);
    }
  }

  lemma HistoryCredentials(s: State, actions: seq<Action>, c: nat)
    requires Initial(s) && c in Exec(s, actions).conns
    ensures var t := Exec(s, actions);
            c in s.conns && Credentials(t.log, s.conns, c) == (t.conns[c].Stored(), t.conns[c].refresh)
  {
    hide Exec, Credentials, Sound, Conn.Stored, Frames, Pace, Locks;
    RunKeeps(s, actions);
  }

  /** In every run, the next refresh of a connection after such an answer presents the refresh
      token just issued, or the old one if none was, and until the next answer every call on
      it returns the access token just issued. */
  lemma NextStartPresentsIt(s: State, actions: seq<Action>, caller: Caller, reply: Reply, wall: int,
                            later: seq<Action>, j: nat)
    requires Initial(s) && Enabled(Exec(s, actions), Answer(caller, reply, wall))
    requires reply.Issued? && reply.access != ""
    ensures var t, u := Exec(s, actions), Exec(s, actions + [Answer(caller, reply, wall)]);
            var log := Exec(s, actions + [Answer(caller, reply, wall)] + later).log;
            var conn := t.callers[caller].f.conn;
            && |u.log| <= |log|
            && (|u.log| <= j < |log| && (forall e | e in log[|u.log|..j] :: !(e.Replaced? && e.conn == conn)) ==>
                  && (log[j].Started? && log[j].conn == conn ==>
                        log[j].stored == reply.access
                        && log[j].refresh == (if reply.refresh != "" then reply.refresh else t.conns[conn].refresh))
                  && (log[j].Returned? && log[j].conn == conn ==> log[j].token == reply.access))
  {
    var answer := Answer(caller, reply, wall);
    ExecSnoc(s, actions, answer);
    AnswerIsStored(s, actions, caller, reply, wall);
    LogGrows(s, actions + [answer], later);
    hide Exec, Step, Credentials;
    var t, u := Exec(s, actions), Exec(s, actions + [answer]);
    var conn := t.callers[caller].f.conn;
    var log := Exec(s, actions + [answer] + later).log;
    if |u.log| <= j < |log| && forall e | e in log[|u.log|..j] :: !(e.Replaced? && e.conn == conn) {
      HistoryCredentials(s, actions + [answer], conn);
      AlwaysCurrent(s, actions + [answer] + later, j);
      assert log[..j] == u.log + log[|u.log|..j];
      CredentialsStay(u.log, log[|u.log|..j], s.conns, conn);
    }
  }

  /** In every run, a call that gets the lock and has something to refresh (its token is still
      the current one, and it is forced or the token has expired) starts its refresh at once
      exactly when no start is on record since the last clearing, or the latest one lies at
      least 30 seconds back; otherwise it sleeps until just then, and starts when it wakes. */
  lemma StartsExactly(s: State, actions: seq<Action>, caller: Caller, wall: int)
    requires Initial(s) && Enabled(Exec(s, actions), Acquire(caller, wall))
    ensures var t := Exec(s, actions);
            var f := t.callers[caller].f;
            var c := t.conns[f.conn];
            var u := Step(t, Acquire(caller, wall));
            var last := LastStart(t.log, c.provider);
            f.stored == c.Stored() && (f.force || c.Expired(wall)) ==>
              && ((u.log == t.log + [Started(c.provider, caller, f.conn, f.stored, c.refresh, t.now)])
                  <==> last.None? || t.now - last.value >= 30.0)
              && (last.Some? && t.now - last.value < 30.0 ==>
                    u.log == t.log && caller in u.callers && u.callers[caller].Sleeping?
                    && u.callers[caller].until == last.value + 30.0)
  {
    hide Exec, LastStart, History, Locks, Conn.Expired;
    RunKeeps(s, actions);
    var t := Exec(s, actions);
    assert Knows(t.conns[t.callers[caller].f.conn], t.callers[caller]);
  }

  /** In every run, a call that wakes starts its refresh with its connection's credentials. */
  lemma WakingStarts(s: State, actions: seq<Action>, caller: Caller)
    requires Initial(s) && Enabled(Exec(s, actions), Wake(caller))
    ensures var t := Exec(s, actions);
            var conn := t.callers[caller].f.conn;
            var c := t.conns[conn];
            var u := Step(t, Wake(caller));
            && u.log == t.log + [Started(c.provider, caller, conn, c.Stored(), c.refresh, t.now)]
            && caller in u.callers && u.callers[caller].Calling?
  {
    hide Exec, Pace, History, Locks, Conn.Stored;
    RunKeeps(s, actions);
    var t := Exec(s, actions);
    assert Knows(t.conns[t.callers[caller].f.conn], t.callers[caller]);
  }

  /** In every run, a call is served at once, with the token its connection has, exactly when
      there is no refresh token or no refresh function, or when it is not forced and the
      token is known to last for more than another minute; otherwise it waits for the lock. */
  lemma ServedAtOnceExactly(s: State, actions: seq<Action>, caller: Caller, conn: nat, force: bool, wall: int)
    requires Initial(s) && Enabled(Exec(s, actions), Call(caller, conn, force, wall))
    ensures var t := Exec(s, actions);
            var c := t.conns[conn];
            var u := Step(t, Call(caller, conn, force, wall));
            && conn in s.conns && u.conns == t.conns
            && (u.log == t.log + [Returned(caller, conn, Credentials(t.log, s.conns, conn).0)]
                <==> c.refresh == "" || c.provider !in t.refreshers
                     || (!force && c.expires.Some? && wall < c.expires.value - 60))
            && (u.log == t.log || caller !in u.callers)
            && (u.log == t.log ==>
                  caller in u.callers && u.callers[caller].Waiting?
                  && u.callers[caller].f.stored == Credentials(t.log, s.conns, conn).0)
  {
    hide Exec, Credentials, Conn.Stored, Pace, Locks, Frames, Sound;
    RunKeeps(s, actions);
    var t := Exec(s, actions);
    var token := t.conns[conn].Stored();
    assert t.log + [Returned(caller, conn, token)] != t.log;
  }

  /** The protocol cannot deadlock: in every run each suspended call can go on, at once or when
      some time has passed, or the call that holds its provider's lock can. */
  lemma NeverStuck(s: State, actions: seq<Action>, caller: Caller) returns (elapsed: real, a: Action)
    requires Initial(s) && caller in Exec(s, actions).callers
    ensures elapsed >= 0.0 && (a.Acquire? || a.Wake? || a.Answer?)
    ensures var t := Exec(s, actions);
            && Enabled(Step(t, Tick(elapsed)), a)
            && (a.caller == caller
                || (t.callers[caller].f.conn in t.conns
                    && var p := t.conns[t.callers[caller].f.conn].provider; p in t.holder && t.holder[p] == a.caller))
  {
    hide Exec, Pace, History, Frames;
    RunKeeps(s, actions);
    var t := Exec(s, actions);
    var p := t.conns[t.callers[caller].f.conn].provider;
    elapsed := 0.0;
    if p !in t.holder {
      a := Acquire(caller, 0);
    } else {
      var holder := t.holder[p];
      if t.callers[holder].Sleeping? {
        elapsed := if t.callers[holder].until > t.now then t.callers[holder].until - t.now else 0.0;
        a := Wake(holder);
      } else {
        a := Answer(holder, Failed, 0);
      }
    }
  }

  lemma ExecSnoc(s: State, actions: seq<Action>, a: Action)
    ensures Exec(s, actions + [a]) == Step(Exec(s, actions), a)
  {
    hide Step;
    assert (actions + [a])[..|actions|] == actions;
  }

  /** An unhurried forced call: it starts its refresh as soon as it gets the lock. */
  lemma StartsAtOnce(t: State, c: nat, k: Caller, wall: int)
    requires c in t.conns && t.conns[c].refresh != "" && t.conns[c].provider in t.refreshers
    requires k !in t.callers && t.conns[c].provider !in t.holder && t.conns[c].provider !in t.last
    ensures var f := Frame(c, t.conns[c].Stored(), t.conns[c].refresh, true);
            Step(Step(t, Call(k, c, true, wall)), Acquire(k, wall)) == Start(t, k, f)
  {
    var f := Frame(c, t.conns[c].Stored(), t.conns[c].refresh, true);
    var t1 := Step(t, Call(k, c, true, wall));
    assert t1 == t.(callers := t.callers[k := Waiting(f)]);
    assert t1.callers[k := Calling(f)] == t.callers[k := Calling(f)];
  }

  /** With the recorded start cleared in between, two refreshes start at the same instant. */
  lemma ForgettingLiftsTheGap(s: State, c: nat, k: Caller, wall: int) returns (actions: seq<Action>)
    requires Initial(s) && c in s.conns && s.conns[c].refresh != "" && s.conns[c].provider in s.refreshers
    ensures var log := Exec(s, actions).log;
            && |log| == 4 && log[0].Started? && log[3].Started?
            && log[0].provider == log[3].provider && log[0].at == log[3].at
  {
    hide Exec, Step, Start, Finish;
    var p := s.conns[c].provider;
    var f := Frame(c, s.conns[c].Stored(), s.conns[c].refresh, true);
    var call, acquire, answer := Call(k, c, true, wall), Acquire(k, wall), Answer(k, Failed, wall);
    actions := [];
    assert Exec(s, actions) == s by { ExecNone(s); }
    ExecSnoc(s, actions, call);
    ExecSnoc(s, actions + [call], acquire);
    StartsAtOnce(s, c, k, wall);
    actions := actions + [call] + [acquire];
    var t := FailedThenForgotten(s, c, k, wall, f);
    ExecSnoc(s, actions, answer);
    ExecSnoc(s, actions + [answer], Forget(p));
    actions := actions + [answer] + [Forget(p)];
    assert Exec(s, actions) == t;
    StartsAtOnce(t, c, k, wall);
    ExecSnoc(s, actions, call);
    ExecSnoc(s, actions + [call], acquire);
    actions := actions + [call] + [acquire];
    StartLogs(t, k, f);
  }

  lemma ExecNone(s: State)
    ensures Exec(s, []) == s
  {}

  lemma StartLogs(t: State, k: Caller, f: Frame)
    requires f.conn in t.conns
    ensures Start(t, k, f).log
         == t.log + [Started(t.conns[f.conn].provider, k, f.conn, f.stored, f.refresh, t.now)]
  {}

  lemma FailedThenForgotten(s: State, c: nat, k: Caller, wall: int, f: Frame) returns (t: State)
    requires Initial(s) && c in s.conns && f.conn == c
    ensures t == Step(Step(Start(s, k, f), Answer(k, Failed, wall)), Forget(s.conns[c].provider))
    ensures t == s.(callers := t.callers, holder := t.holder, last := t.last, log := t.log)
    ensures t.callers == map[] && t.holder == map[] && t.last == map[]
    ensures t.log == [Started(s.conns[c].provider, k, c, f.stored, f.refresh, s.now),
                      Returned(k, c, f.stored), Forgotten(s.conns[c].provider)]
  {
    hide Conn.Stored, Conn.Expired;
    var s1 := Start(s, k, f);
    var s2 := Step(s1, Answer(k, Failed, wall));
    assert s2 == Return(Release(s1, s.conns[c].provider), k, c, f.stored);
    t := Step(s2, Forget(s.conns[c].provider));
  }
}
