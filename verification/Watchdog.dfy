/**
 The process supervisor (app/watchdog.py, `run_supervised`): a loop over what it observes,
 and what the history of its actions satisfies in every run. Spawning and killing are taken
 to work; a run is any finite number of turns of the loop.
 */
module Watchdog {
  import opened Prelude

  type Time = real

  const MAX_FAILURES: nat := 3
  const MAX_RESTARTS: nat := 5
  const WINDOW: Time := 600.0

  /** What one turn of the loop observes: a signal received before it, the exit code `poll`
      reports, the health probe, an exit between that poll and a kill, and the clock. */
  datatype Turn = Turn(signal: bool, exit: Option<int>, healthy: bool, gone: Option<int>, now: Time)

  datatype Event =
    | Spawned
    | ExitSeen(code: int)
    | Probed(ok: bool)
    | Restarting(at: Time)
    | GaveUp(at: Time)
    | Interrupted
    | Killed
    | FoundGone(code: int)

  datatype State = State(failures: nat, stamps: seq<Time>, done: bool, log: seq<Event>)

  const START := State(0, [], false, [Spawned])

  function Recent(stamps: seq<Time>, now: Time): seq<Time> {
    if stamps == [] then []
    else Recent(stamps[..|stamps| - 1], now)
         + if now - stamps[|stamps| - 1] < WINDOW then [stamps[|stamps| - 1]] else []
  }

  /** How a kill finds the child: `exit` is the code `poll` gave, if it gave one. */
  function KillEvent(t: Turn): Event {
    if t.exit.Some? then FoundGone(t.exit.value)
    else if t.gone.Some? then FoundGone(t.gone.value)
    else Killed
  }

  function Restart(s: State, t: Turn): State {
    var kept := Recent(s.stamps, t.now);
    if |kept| >= MAX_RESTARTS then
      s.(stamps := kept, done := true, log := s.log + [GaveUp(t.now), KillEvent(t)])
    else
      s.(failures := 0, stamps := kept + [t.now],
         log := s.log + [Restarting(t.now), KillEvent(t), Spawned])
  }

  function Step(s: State, t: Turn): State {
    if s.done then s
    else if t.signal then
      s.(done := true, log := s.log + [Interrupted, KillEvent(t)])
    else if t.exit == Some(0) then
      s.(done := true, log := s.log + [ExitSeen(0)])
    else if t.exit.Some? then
      Restart(s.(log := s.log + [ExitSeen(t.exit.value)]), t)
    else if t.healthy then
      s.(failures := 0, log := s.log + [Probed(true)])
    else
      var s1 := s.(failures := s.failures + 1, log := s.log + [Probed(false)]);
      if s1.failures < MAX_FAILURES then s1 else Restart(s1, t)
  }

  function Supervised(turns: seq<Turn>): State {
    if turns == [] then START else Step(Supervised(turns[..|turns| - 1]), turns[|turns| - 1])
  }

  // ---- The children --------------------------------------------------------

  /** The event ends the child spawned last. */
  predicate Ends(e: Event) {
    e.ExitSeen? || e.Killed? || e.FoundGone?
  }

  predicate SpawnedBetween(log: seq<Event>, i: nat, j: nat)
    requires j <= |log|
  {
    exists k :: i < k < j && log[k].Spawned?
  }

  /** The child spawned at position `i` of the log has not ended: every end after it is that
      of a later child. */
  predicate Lives(log: seq<Event>, i: nat) {
    && i < |log| && log[i].Spawned?
    && forall j | i < j < |log| && Ends(log[j]) :: SpawnedBetween(log, i, j)
  }

  ghost predicate NobodyLives(log: seq<Event>) {
    forall i: nat :: !Lives(log, i)
  }

  /** The child spawned at `i` lives, is the last one, and lives alone. */
  ghost predicate LivesAlone(log: seq<Event>, i: nat) {
    && Lives(log, i)
    && (forall j: nat | Lives(log, j) :: j == i)
    && (forall k | i < k < |log| :: !log[k].Spawned?)
  }

  /** At every point of the log at most one child lives. */
  ghost predicate OneAtATime(log: seq<Event>) {
    forall m: nat, i: nat, j: nat | m <= |log| && Lives(log[..m], i) && Lives(log[..m], j) :: i == j
  }

  lemma BetweenSnoc(log: seq<Event>, e: Event, i: nat, j: nat)
    requires j <= |log|
    ensures SpawnedBetween(log + [e], i, j) <==> SpawnedBetween(log, i, j)
  {
    var more := log + [e];
    if SpawnedBetween(more, i, j) {
      var k :| i < k < j && more[k].Spawned?;
      assert log[k].Spawned?;
    }
    if SpawnedBetween(log, i, j) {
      var k :| i < k < j && log[k].Spawned?;
      assert more[k].Spawned?;
    }
  }

  lemma LivesSnoc(log: seq<Event>, e: Event, i: nat)
    ensures Lives(log + [e], i)
        <==> (if i < |log| then Lives(log, i) && (Ends(e) ==> SpawnedBetween(log, i, |log|))
              else i == |log| && e.Spawned?)
  {
    hide Ends, SpawnedBetween;
    var more := log + [e];
    forall j: nat | j <= |log| { BetweenSnoc(log, e, i, j); }
    if i < |log| {
      if Lives(more, i) {
        forall j | i < j < |log| && Ends(log[j]) ensures SpawnedBetween(log, i, j) {
          assert more[j] == log[j];
        }
        assert more[|log|] == e;
      }
    }
  }

  lemma OneAtATimeSnoc(log: seq<Event>, e: Event)
    requires OneAtATime(log)
    requires forall i: nat, j: nat | Lives(log + [e], i) && Lives(log + [e], j) :: i == j
    ensures OneAtATime(log + [e])
  {
    hide Lives;
    var more := log + [e];
    forall m: nat, i: nat, j: nat | m <= |more| && Lives(more[..m], i) && Lives(more[..m], j) ensures i == j {
      if m <= |log| { assert more[..m] == log[..m]; } else { assert more[..m] == more; }
    }
  }

  lemma NeutralEvent(log: seq<Event>, e: Event, i: nat)
    requires LivesAlone(log, i) && OneAtATime(log) && !Ends(e) && !e.Spawned?
    ensures LivesAlone(log + [e], i) && OneAtATime(log + [e])
  {
    hide Ends;
    hide SpawnedBetween;
    forall j: nat ensures Lives(log + [e], j) <==> Lives(log, j) {
      LivesSnoc(log, e, j);
      if j >= |log| { assert !Lives(log, j); }
    }
    hide Lives;
    assert forall k | 0 <= k < |log| :: (log + [e])[k] == log[k];
    OneAtATimeSnoc(log, e);
  }

  lemma EndEvent(log: seq<Event>, e: Event, i: nat)
    requires LivesAlone(log, i) && OneAtATime(log) && Ends(e)
    ensures NobodyLives(log + [e]) && OneAtATime(log + [e])
  {
    forall j: nat { LivesSnoc(log, e, j); }
    hide Lives;
    OneAtATimeSnoc(log, e);
  }

  lemma QuietEvent(log: seq<Event>, e: Event)
    requires NobodyLives(log) && OneAtATime(log) && !e.Spawned?
    ensures NobodyLives(log + [e]) && OneAtATime(log + [e])
  {
    forall j: nat { LivesSnoc(log, e, j); }
    hide Lives;
    OneAtATimeSnoc(log, e);
  }

  lemma SpawnEvent(log: seq<Event>)
    requires NobodyLives(log) && OneAtATime(log)
    ensures LivesAlone(log + [Spawned], |log|) && OneAtATime(log + [Spawned])
  {
    forall j: nat { LivesSnoc(log, Spawned, j); }
    hide Lives;
    OneAtATimeSnoc(log, Spawned);
  }

  /** One child lives, or the supervisor has returned and none does. */
  ghost predicate Accounted(s: State) {
    OneAtATime(s.log) && if s.done then NobodyLives(s.log) else exists i: nat :: LivesAlone(s.log, i)
  }

  /** From a decision with the last child's end seen, or still due, to its end. */
  lemma KillAccounted(log: seq<Event>, e: Event, t: Turn)
    requires OneAtATime(log) && (NobodyLives(log) || exists i: nat :: LivesAlone(log, i))
    requires e.Restarting? || e.GaveUp? || e.Interrupted?
    ensures NobodyLives(log + [e] + [KillEvent(t)]) && OneAtATime(log + [e] + [KillEvent(t)])
  {
    assert Ends(KillEvent(t)) && !Ends(e);
    hide Ends, NobodyLives, LivesAlone, OneAtATime;
    if NobodyLives(log) {
      QuietEvent(log, e);
      QuietEvent(log + [e], KillEvent(t));
    } else {
      var i: nat :| LivesAlone(log, i);
      NeutralEvent(log, e, i);
      EndEvent(log + [e], KillEvent(t), i);
    }
  }

  lemma RestartAccounted(s: State, t: Turn)
    requires OneAtATime(s.log) && (NobodyLives(s.log) || exists i: nat :: LivesAlone(s.log, i)) && !s.done
    ensures Accounted(Restart(s, t))
  {
    hide NobodyLives, LivesAlone, OneAtATime, Recent, KillEvent;
    RestartCases(s, t);
    hide Restart;
    var kill := KillEvent(t);
    if Restart(s, t).done {
      KillAccounted(s.log, GaveUp(t.now), t);
      assert s.log + [GaveUp(t.now), kill] == s.log + [GaveUp(t.now)] + [kill];
    } else {
      KillAccounted(s.log, Restarting(t.now), t);
      var log := s.log + [Restarting(t.now)] + [kill];
      SpawnEvent(log);
      assert s.log + [Restarting(t.now), kill, Spawned] == log + [Spawned];
    }
  }

  lemma StepAccounted(s: State, t: Turn)
    requires Accounted(s)
    ensures Accounted(Step(s, t))
  {
    hide NobodyLives, LivesAlone, OneAtATime, Restart, KillEvent;
    StepCases(s, t);
    hide Step;
    if !s.done {
      var i: nat :| LivesAlone(s.log, i);
      if t.signal {
        KillAccounted(s.log, Interrupted, t);
        assert s.log + [Interrupted, KillEvent(t)] == s.log + [Interrupted] + [KillEvent(t)];
      } else if t.exit.Some? {
        var e := ExitSeen(t.exit.value);
        EndEvent(s.log, e, i);
        if t.exit.value != 0 { RestartAccounted(s.(log := s.log + [e]), t); }
      } else {
        NeutralEvent(s.log, Probed(t.healthy), i);
        if !t.healthy && s.failures + 1 >= MAX_FAILURES {
          RestartAccounted(s.(failures := s.failures + 1, log := s.log + [Probed(false)]), t);
        }
      }
    }
  }

  lemma StartAccounted()
    ensures Accounted(START)
  {
    assert NobodyLives([]) && OneAtATime([]);
    SpawnEvent([]);
    assert [] + [Spawned] == [Spawned];
  }

  /** In every run at most one child lives at any time, and the supervisor has returned exactly
      when every child it spawned was killed, found gone or seen to exit. */
  lemma {:induction false} ChildrenAccounted(turns: seq<Turn>)
    ensures var s := Supervised(turns);
            OneAtATime(s.log) && (s.done <==> NobodyLives(s.log))
    ensures Accounted(Supervised(turns))
    decreases |turns|
  {
    hide Step, OneAtATime;
    if turns == [] {
      StartAccounted();
    } else {
      ChildrenAccounted(turns[..|turns| - 1]);
      StepAccounted(Supervised(turns[..|turns| - 1]), turns[|turns| - 1]);
    }
  }

  method FilterRecent(stamps: seq<Time>, now: Time) returns (kept: seq<Time>)
    ensures kept == Recent(stamps, now)
  {
    kept := [];
    for i := 0 to |stamps|
      invariant kept == Recent(stamps[..i], now)
    {
      assert stamps[..i + 1][..i] == stamps[..i];
      if now - stamps[i] < WINDOW { kept := kept + [stamps[i]]; }
    }
    assert stamps[..|stamps|] == stamps;
  }

  /** The supervising loop. It has returned exactly when no child lives. */
  method RunSupervised(turns: seq<Turn>) returns (log: seq<Event>, stamps: seq<Time>, failures: nat, done: bool)
    ensures State(failures, stamps, done, log) == Supervised(turns)
    ensures done <==> NobodyLives(log)
  {
    hide Recent, KillEvent, NobodyLives;
    ChildrenAccounted(turns);
    log, stamps, failures, done := [Spawned], [], 0, false;
    for i := 0 to |turns|
      invariant State(failures, stamps, done, log) == Supervised(turns[..i])
      invariant !done
    {
      hide Restart, Step;
      var t := turns[i];
      assert turns[..i + 1][..i] == turns[..i];
      ghost var s := State(failures, stamps, done, log);
      StepCases(s, t);
      if t.signal {
        log := log + [Interrupted, KillEvent(t)];
        done := true;
        DoneStays(turns, i + 1);
        return;
      }
      if t.exit.Some? {
        log := log + [ExitSeen(t.exit.value)];
        if t.exit.value == 0 {
          done := true;
          DoneStays(turns, i + 1);
          return;
        }
      } else if t.healthy {
        log := log + [Probed(true)];
        failures := 0;
        continue;
      } else {
        failures := failures + 1;
        log := log + [Probed(false)];
        if failures < MAX_FAILURES { continue; }
      }
      RestartCases(State(failures, stamps, done, log), t);
      stamps := FilterRecent(stamps, t.now);
      if |stamps| >= MAX_RESTARTS {
        log := log + [GaveUp(t.now), KillEvent(t)];
        done := true;
        DoneStays(turns, i + 1);
        return;
      }
      stamps := stamps + [t.now];
      failures := 0;
      log := log + [Restarting(t.now), KillEvent(t), Spawned];
    }
    assert turns[..|turns|] == turns;
  }

  lemma StepCases(s: State, t: Turn)
    ensures Step(s, t)
         == if s.done then s
            else if t.signal then s.(done := true, log := s.log + [Interrupted, KillEvent(t)])
            else if t.exit == Some(0) then s.(done := true, log := s.log + [ExitSeen(0)])
            else if t.exit.Some? then Restart(s.(log := s.log + [ExitSeen(t.exit.value)]), t)
            else if t.healthy then s.(failures := 0, log := s.log + [Probed(true)])
            else if s.failures + 1 < MAX_FAILURES then s.(failures := s.failures + 1, log := s.log + [Probed(false)])
            else Restart(s.(failures := s.failures + 1, log := s.log + [Probed(false)]), t)
  {
    hide Restart, KillEvent;
  }

  lemma RestartCases(s: State, t: Turn)
    ensures var kept := Recent(s.stamps, t.now);
            Restart(s, t)
            == if |kept| >= MAX_RESTARTS then
                 s.(stamps := kept, done := true, log := s.log + [GaveUp(t.now), KillEvent(t)])
               else
                 s.(failures := 0, stamps := kept + [t.now],
                    log := s.log + [Restarting(t.now), KillEvent(t), Spawned])
  {
    hide Recent, KillEvent;
  }

  lemma {:induction false} DoneStays(turns: seq<Turn>, n: nat)
    requires n <= |turns| && Supervised(turns[..n]).done
    ensures Supervised(turns) == Supervised(turns[..n])
    decreases |turns| - n
  {
    if n == |turns| {
      assert turns[..n] == turns;
    } else {
      assert turns[..n + 1][..n] == turns[..n];
      DoneStays(turns, n + 1);
    }
  }

  // ---- What every event is justified by ------------------------------------

  /** The times of all restarts so far. */
  function Restarts(log: seq<Event>): seq<Time> {
    if log == [] then []
    else
      var e := log[|log| - 1];
      Restarts(log[..|log| - 1]) + if e.Restarting? then [e.at] else []
  }

  /** The log ends with three failed probes in a row. */
  predicate Frozen(log: seq<Event>) {
    |log| >= 3 && log[|log| - 3..] == [Probed(false), Probed(false), Probed(false)]
  }

  predicate Crashed(log: seq<Event>) {
    log != [] && log[|log| - 1].ExitSeen? && log[|log| - 1].code != 0
  }

  /** The supervisor is between two turns of its loop. */
  predicate Watching(log: seq<Event>) {
    log != [] && (log[|log| - 1].Spawned? || log[|log| - 1].Probed?)
  }

  /** What must have happened right before an event. */
  predicate Justified(before: seq<Event>, e: Event) {
    match e
    case Spawned =>
      before == [] || (|before| >= 2 && before[|before| - 2].Restarting?
                       && (before[|before| - 1].Killed? || before[|before| - 1].FoundGone?))
    case ExitSeen(_) => Watching(before)
    case Probed(_) => Watching(before)
    case Interrupted => Watching(before)
    case Restarting(at) =>
      (Crashed(before) || Frozen(before)) && |Recent(Restarts(before), at)| < MAX_RESTARTS
    case GaveUp(at) =>
      (Crashed(before) || Frozen(before)) && |Recent(Restarts(before), at)| >= MAX_RESTARTS
    case Killed =>
      before != [] &&
        (before[|before| - 1].Interrupted?
         || ((before[|before| - 1].Restarting? || before[|before| - 1].GaveUp?) && Frozen(before[..|before| - 1])))
    case FoundGone(code) =>
      before != [] &&
        (before[|before| - 1].Interrupted?
         || ((before[|before| - 1].Restarting? || before[|before| - 1].GaveUp?)
             && (code != 0 || Frozen(before[..|before| - 1]))))
  }

  predicate AllJustified(log: seq<Event>) {
    log != [] ==> AllJustified(log[..|log| - 1]) && Justified(log[..|log| - 1], log[|log| - 1])
  }

  lemma JustifiedSnoc(log: seq<Event>, e: Event)
    requires AllJustified(log) && Justified(log, e)
    ensures AllJustified(log + [e])
  {
    hide Justified;
    assert (log + [e])[..|log|] == log;
  }

  lemma RestartsSnoc(log: seq<Event>, e: Event)
    ensures Restarts(log + [e]) == if e.Restarting? then Restarts(log) + [e.at] else Restarts(log)
  {
    assert (log + [e])[..|log|] == log;
  }

  lemma RecentSnoc(stamps: seq<Time>, t: Time, now: Time)
    ensures Recent(stamps + [t], now) == Recent(stamps, now) + if now - t < WINDOW then [t] else []
  {
    assert (stamps + [t])[..|stamps|] == stamps;
  }

  /** Pruning at an earlier time loses nothing that a later look would count. */
  lemma {:induction false} RecentTwice(stamps: seq<Time>, was: Time, now: Time)
    requires was <= now
    ensures Recent(Recent(stamps, was), now) == Recent(stamps, now)
    decreases |stamps|
  {
    if stamps != [] {
      var n := |stamps| - 1;
      RecentTwice(stamps[..n], was, now);
      if was - stamps[n] < WINDOW {
        RecentSnoc(Recent(stamps[..n], was), stamps[n], now);
      } else {
        assert Recent(stamps, was) == Recent(stamps[..n], was);
      }
    }
  }

  // ---- The invariant -------------------------------------------------------

  predicate FailuresShown(s: State) {
    && s.failures < MAX_FAILURES
    && |s.log| >= s.failures
    && (forall i | |s.log| - s.failures <= i < |s.log| :: s.log[i] == Probed(false))
  }

  /** The kept stamps are those restarts of the whole history that still count. */
  ghost predicate StampsCount(s: State, now: Time) {
    forall later: Time | now <= later :: Recent(s.stamps, later) == Recent(Restarts(s.log), later)
  }

  ghost predicate Inv(s: State, now: Time) {
    && AllJustified(s.log)
    && s.log != []
    && StampsCount(s, now)
    && (!s.done ==> Watching(s.log) && FailuresShown(s))
    && (s.done ==> !Watching(s.log))
  }

  lemma StartInv(now: Time)
    ensures Inv(START, now)
  {
    assert [Spawned][..0] == [];
  }

  /** An event that is no restart leaves the count of stamps alone. */
  lemma LogKeepsStamps(s: State, e: Event, s': State, now: Time)
    requires StampsCount(s, now) && !e.Restarting? && s'.stamps == s.stamps && s'.log == s.log + [e]
    ensures StampsCount(s', now)
  {
    RestartsSnoc(s.log, e);
  }

  lemma LaterKeepsStamps(s: State, was: Time, now: Time)
    requires StampsCount(s, was) && was <= now
    ensures StampsCount(s, now)
  {}

  lemma PruneKeepsStamps(s: State, s': State, now: Time)
    requires StampsCount(s, now) && s'.stamps == Recent(s.stamps, now) && s'.log == s.log
    ensures StampsCount(s', now)
  {
    forall later: Time | now <= later ensures Recent(s'.stamps, later) == Recent(Restarts(s'.log), later) {
      RecentTwice(s.stamps, now, later);
    }
  }

  lemma StampKeepsStamps(s: State, s': State, now: Time)
    requires StampsCount(s, now) && s'.stamps == s.stamps + [now] && s'.log == s.log + [Restarting(now)]
    ensures StampsCount(s', now)
  {
    RestartsSnoc(s.log, Restarting(now));
    forall later: Time | now <= later ensures Recent(s'.stamps, later) == Recent(Restarts(s'.log), later) {
      RecentSnoc(s.stamps, now, later);
      RecentSnoc(Restarts(s.log), now, later);
    }
  }

  /** The kill that ends a restart decision, a decision to give up, or a shutdown. */
  lemma KillJustified(log: seq<Event>, e: Event, t: Turn)
    requires AllJustified(log) && Justified(log, e)
    requires e.Interrupted? || ((e.Restarting? || e.GaveUp?) && (Frozen(log) || (t.exit.Some? && t.exit.value != 0)))
    ensures AllJustified(log + [e] + [KillEvent(t)])
  {
    JustifiedSnoc(log, e);
    assert (log + [e])[..|log|] == log;
    JustifiedSnoc(log + [e], KillEvent(t));
  }

  lemma RestartInv(s: State, t: Turn)
    requires AllJustified(s.log) && StampsCount(s, t.now) && !s.done
    requires (Frozen(s.log) && t.exit.None?) || (Crashed(s.log) && t.exit.Some? && t.exit.value != 0)
    ensures Inv(Restart(s, t), t.now)
  {
    hide AllJustified, Frozen, Crashed, StampsCount, Recent, Restarts;
    RestartCases(s, t);
    hide Restart;
    var kept := Recent(s.stamps, t.now);
    var pruned := s.(stamps := kept);
    PruneKeepsStamps(s, pruned, t.now);
    assert kept == Recent(Restarts(s.log), t.now) by { CountNow(s, t.now); }
    var e := if |kept| >= MAX_RESTARTS then GaveUp(t.now) else Restarting(t.now);
    KillJustified(s.log, e, t);
    var s1 := pruned.(stamps := if |kept| >= MAX_RESTARTS then kept else kept + [t.now], log := s.log + [e]);
    if |kept| >= MAX_RESTARTS {
      LogKeepsStamps(pruned, e, s1, t.now);
    } else {
      StampKeepsStamps(pruned, s1, t.now);
    }
    var s2 := s1.(log := s1.log + [KillEvent(t)]);
    LogKeepsStamps(s1, KillEvent(t), s2, t.now);
    var s3 := s2.(log := s2.log + [Spawned]);
    LogKeepsStamps(s2, Spawned, s3, t.now);
    assert s.log + [GaveUp(t.now), KillEvent(t)] == s.log + [GaveUp(t.now)] + [KillEvent(t)];
    assert s.log + [Restarting(t.now), KillEvent(t), Spawned]
        == s.log + [Restarting(t.now)] + [KillEvent(t)] + [Spawned];
    if |kept| >= MAX_RESTARTS {
      StampsOf(s2, Restart(s, t), t.now);
    } else {
      JustifiedSnoc(s2.log, Spawned);
      StampsOf(s3, Restart(s, t), t.now);
    }
  }

  lemma CountNow(s: State, now: Time)
    requires StampsCount(s, now)
    ensures Recent(s.stamps, now) == Recent(Restarts(s.log), now)
  {}

  lemma StampsOf(s: State, s': State, now: Time)
    requires StampsCount(s, now) && s.stamps == s'.stamps && s.log == s'.log
    ensures StampsCount(s', now)
  {}

  /** A logged event that ends a turn without a restart. */
  lemma QuietInv(s: State, e: Event, s': State, now: Time)
    requires Inv(s, now) && !s.done && s'.stamps == s.stamps && s'.log == s.log + [e]
    requires !s'.done ==> e.Probed? && s'.failures == if e.ok then 0 else s.failures + 1
    requires !s'.done ==> s'.failures < MAX_FAILURES
    requires s'.done ==> e.ExitSeen?
    ensures Inv(s', now)
  {
    hide StampsCount, AllJustified;
    JustifiedSnoc(s.log, e);
    LogKeepsStamps(s, e, s', now);
  }

  lemma StepInv(s: State, t: Turn, was: Time)
    requires Inv(s, was) && was <= t.now
    ensures Inv(Step(s, t), t.now)
  {
    hide StampsCount, AllJustified, Restart, KillEvent;
    LaterKeepsStamps(s, was, t.now);
    StepCases(s, t);
    hide Step;
    if s.done {
    } else if t.signal {
      ShutdownInv(s, t);
    } else if t.exit.Some? && t.exit.value != 0 {
      var e := ExitSeen(t.exit.value);
      JustifiedSnoc(s.log, e);
      LogKeepsStamps(s, e, s.(log := s.log + [e]), t.now);
      RestartInv(s.(log := s.log + [e]), t);
    } else if t.exit.Some? {
      QuietInv(s, ExitSeen(0), Step(s, t), t.now);
    } else if t.healthy {
      QuietInv(s, Probed(true), Step(s, t), t.now);
    } else if s.failures + 1 < MAX_FAILURES {
      QuietInv(s, Probed(false), Step(s, t), t.now);
    } else {
      var s1 := s.(failures := s.failures + 1, log := s.log + [Probed(false)]);
      JustifiedSnoc(s.log, Probed(false));
      LogKeepsStamps(s, Probed(false), s1, t.now);
      RestartInv(s1, t);
    }
  }

  lemma ShutdownInv(s: State, t: Turn)
    requires Inv(s, t.now) && !s.done
    ensures Inv(s.(done := true, log := s.log + [Interrupted, KillEvent(t)]), t.now)
  {
    hide StampsCount, AllJustified;
    KillJustified(s.log, Interrupted, t);
    assert s.log + [Interrupted, KillEvent(t)] == s.log + [Interrupted] + [KillEvent(t)];
    var s1 := s.(log := s.log + [Interrupted]);
    LogKeepsStamps(s, Interrupted, s1, t.now);
    LogKeepsStamps(s1, KillEvent(t), s.(done := true, log := s.log + [Interrupted] + [KillEvent(t)]), t.now);
  }

  predicate Timed(turns: seq<Turn>) {
    forall i, j | 0 <= i < j < |turns| :: turns[i].now <= turns[j].now
  }

  /** In every run each action is justified by what came right before it. */
  lemma {:induction false} RunInv(turns: seq<Turn>, now: Time)
    requires Timed(turns) && (turns != [] ==> turns[|turns| - 1].now <= now)
    ensures Inv(Supervised(turns), now)
    decreases |turns|
  {
    hide Step, StampsCount, AllJustified, Watching, FailuresShown;
    if turns == [] {
      StartInv(now);
    } else {
      var n := |turns| - 1;
      RunInv(turns[..n], turns[n].now);
      StepInv(Supervised(turns[..n]), turns[n], turns[n].now);
      LaterKeepsStamps(Supervised(turns), turns[n].now, now);
    }
  }

  lemma {:induction false} JustifiedAt(log: seq<Event>, j: nat)
    requires AllJustified(log) && j < |log|
    ensures Justified(log[..j], log[j])
    decreases |log|
  {
    hide Justified;
    if j < |log| - 1 {
      JustifiedAt(log[..|log| - 1], j);
      assert log[..|log| - 1][..j] == log[..j];
    }
  }

  lemma FrozenEnd(log: seq<Event>)
    ensures Frozen(log) ==> log[|log| - 1] == Probed(false)
  {
    if Frozen(log) { assert log[|log| - 1] == log[|log| - 3..][2]; }
  }

  /** How many restarts of the log lie less than ten minutes back. */
  function RestartsWithin(log: seq<Event>, now: Time): nat {
    if log == [] then 0
    else
      var e := log[|log| - 1];
      RestartsWithin(log[..|log| - 1], now) + if e.Restarting? && now - e.at < 600.0 then 1 else 0
  }

  lemma {:induction false} RecentIsWithin(log: seq<Event>, now: Time)
    ensures |Recent(Restarts(log), now)| == RestartsWithin(log, now)
    decreases |log|
  {
    if log != [] {
      var n := |log| - 1;
      RecentIsWithin(log[..n], now);
      assert log == log[..n] + [log[n]];
      RestartsSnoc(log[..n], log[n]);
      if log[n].Restarting? { RecentSnoc(Restarts(log[..n]), log[n].at, now); }
      hide Recent, Restarts;
    }
  }

  /** How many probes in a row have failed at the end of the log. */
  function FailedInARow(log: seq<Event>): nat {
    if log == [] || log[|log| - 1] != Probed(false) then 0 else FailedInARow(log[..|log| - 1]) + 1
  }

  lemma FailedSnoc(log: seq<Event>, e: Event)
    ensures FailedInARow(log + [e]) == if e == Probed(false) then FailedInARow(log) + 1 else 0
  {
    assert (log + [e])[..|log|] == log;
  }

  lemma StepFails(s: State, t: Turn)
    requires !s.done && s.failures == FailedInARow(s.log)
    ensures !Step(s, t).done ==> Step(s, t).failures == FailedInARow(Step(s, t).log)
  {
    hide FailedInARow, Recent, Restart;
    StepCases(s, t);
    hide Step;
    var e := if t.exit.Some? then ExitSeen(t.exit.value) else Probed(t.healthy);
    FailedSnoc(s.log, e);
    var s1 := if t.exit.Some? then s.(log := s.log + [e]) else s.(failures := s.failures + 1, log := s.log + [e]);
    RestartCases(s1, t);
    var log := s1.log + [Restarting(t.now)] + [KillEvent(t)];
    FailedSnoc(log, Spawned);
    assert s1.log + [Restarting(t.now), KillEvent(t), Spawned] == log + [Spawned];
  }

  /** In every run, the supervisor that goes on has counted exactly the probes that just failed. */
  lemma {:induction false} FailuresAreCounted(turns: seq<Turn>)
    ensures !Supervised(turns).done ==> Supervised(turns).failures == FailedInARow(Supervised(turns).log)
    decreases |turns|
  {
    hide Step, FailedInARow;
    if turns == [] {
      FailedSnoc([], Spawned);
      assert [] + [Spawned] == [Spawned];
    } else {
      FailuresAreCounted(turns[..|turns| - 1]);
      if !Supervised(turns[..|turns| - 1]).done {
        StepFails(Supervised(turns[..|turns| - 1]), turns[|turns| - 1]);
      } else {
        DoneIsDone(Supervised(turns[..|turns| - 1]), turns[|turns| - 1]);
      }
    }
  }

  lemma DoneIsDone(s: State, t: Turn)
    ensures s.done ==> Step(s, t) == s
  {}

  // ---- What follows for every run ------------------------------------------

  /** The supervisor never spawns after it has seen exit code 0; a child is killed, other than
      on shutdown, only after three failed probes in a row of that child; and no child is
      spawned before its predecessor was killed or found gone. */
  lemma ActionsAreJustified(turns: seq<Turn>, j: nat)
    requires Timed(turns) && j < |Supervised(turns).log|
    ensures var log := Supervised(turns).log;
            && (j > 0 ==> log[j - 1] != ExitSeen(0))
            && (log[j].Killed? && j > 0 && !log[j - 1].Interrupted? ==> Frozen(log[..j - 1]))
            && (log[j].Spawned? && j > 0 ==> log[j - 1].Killed? || log[j - 1].FoundGone?)
  {
    hide Supervised, AllJustified, StampsCount, Recent, FailuresShown, Frozen;
    RunInv(turns, if turns == [] then 0.0 else turns[|turns| - 1].now);
    var log := Supervised(turns).log;
    JustifiedAt(log, j);
    if j > 0 {
      FrozenEnd(log[..j]);
      assert log[..j][j - 1] == log[j - 1];
      assert log[..j][..j - 1] == log[..j - 1];
    }
  }

  /** A child whose exit with code 0 is noticed only at the kill had failed three probes in a
      row: this is the only way a clean exit is followed by a respawn. */
  lemma LateCleanExit(turns: seq<Turn>, j: nat)
    requires Timed(turns) && j > 0 && j < |Supervised(turns).log|
    ensures var log := Supervised(turns).log;
            log[j] == Spawned && log[j - 1] == FoundGone(0) ==> j >= 2 && Frozen(log[..j - 2])
  {
    hide Supervised, AllJustified, StampsCount, Recent, FailuresShown, Frozen;
    RunInv(turns, if turns == [] then 0.0 else turns[|turns| - 1].now);
    var log := Supervised(turns).log;
    JustifiedAt(log, j);
    JustifiedAt(log, j - 1);
    if log[j] == Spawned && log[j - 1] == FoundGone(0) {
      assert log[..j][j - 2] == log[j - 2] && log[..j - 1][j - 2] == log[j - 2];
      assert log[..j - 1][..j - 2] == log[..j - 2];
    }
  }

  /** A child exits cleanly during a turn of a run: it is replaced exactly when the turn's probe
      is the third to fail, the exit came after the poll, no signal had arrived, and fewer than
      five restarts of the whole history lie within the last ten minutes. */
  lemma CleanExitRespawnsExactly(turns: seq<Turn>, t: Turn)
    requires Timed(turns + [t]) && !Supervised(turns).done
    requires t.exit == Some(0) || (t.exit.None? && t.gone == Some(0))
    ensures var s, s' := Supervised(turns), Step(Supervised(turns), t);
            (|s'.log| > |s.log| && s'.log[|s'.log| - 1] == Spawned)
            <==> (!t.signal && t.exit.None? && !t.healthy && FailedInARow(s.log) == 2
                  && RestartsWithin(s.log, t.now) < 5)
  {
    hide Supervised, AllJustified, Restarts, Recent, Restart, Watching, FailedInARow, RestartsWithin;
    assert (turns + [t])[|turns|] == t && forall i | 0 <= i < |turns| :: (turns + [t])[i] == turns[i];
    RunInv(turns, t.now);
    var s := Supervised(turns);
    StepCases(s, t);
    CountNow(s, t.now);
    RecentIsWithin(s.log, t.now);
    FailuresAreCounted(turns);
    RestartCases(s.(failures := s.failures + 1, log := s.log + [Probed(false)]), t);
  }

  /** Such a run: two failed probes, then a third whose child exits cleanly before the kill. */
  lemma CleanExitCanRespawn(now: Time) returns (turns: seq<Turn>)
    ensures Timed(turns)
    ensures Supervised(turns).log
         == [Spawned, Probed(false), Probed(false), Probed(false), Restarting(now), FoundGone(0), Spawned]
  {
    hide Recent, Restart, Supervised;
    var failed, gone := Turn(false, None, false, None, now), Turn(false, None, false, Some(0), now);
    turns := [failed, failed, gone];
    SupervisedNone();
    SupervisedSnoc([], failed);
    SupervisedSnoc([failed], failed);
    SupervisedSnoc([failed, failed], gone);
    assert [] + [failed] == [failed] && [failed] + [failed] == [failed, failed] && [failed, failed] + [gone] == turns;
    RecentNone(now);
    StepCases(START, failed);
    StepCases(Supervised([failed]), failed);
    StepCases(Supervised([failed, failed]), gone);
    hide Step;
    assert Supervised([failed, failed]) == State(2, [], false, [Spawned, Probed(false), Probed(false)]);
    var frozen := State(3, [], false, [Spawned, Probed(false), Probed(false), Probed(false)]);
    assert [Spawned, Probed(false), Probed(false)] + [Probed(false)] == frozen.log;
    assert Supervised(turns) == Restart(frozen, gone);
    RestartCases(frozen, gone);
    assert frozen.log + [Restarting(now), FoundGone(0), Spawned]
        == [Spawned, Probed(false), Probed(false), Probed(false), Restarting(now), FoundGone(0), Spawned];
  }

  lemma SupervisedNone()
    ensures Supervised([]) == START
  {}

  lemma RecentNone(now: Time)
    ensures Recent([], now) == []
  {}

  lemma SupervisedSnoc(turns: seq<Turn>, t: Turn)
    ensures Supervised(turns + [t]) == Step(Supervised(turns), t)
  {
    hide Step;
    assert (turns + [t])[..|turns|] == turns;
  }

  /** The restarts of a timed run come in time order. */
  predicate Ordered(ts: seq<Time>, now: Time) {
    && (forall i, j | 0 <= i < j < |ts| :: ts[i] <= ts[j])
    && (forall i | 0 <= i < |ts| :: ts[i] <= now)
  }

  lemma {:induction false} RestartsOrdered(turns: seq<Turn>, now: Time)
    requires Timed(turns) && (turns != [] ==> turns[|turns| - 1].now <= now)
    ensures Ordered(Restarts(Supervised(turns).log), now)
    decreases |turns|
  {
    if turns == [] {
      RestartsSnoc([], Spawned);
    } else {
      var n := |turns| - 1;
      RestartsOrdered(turns[..n], turns[n].now);
      StepRestarts(Supervised(turns[..n]), turns[n]);
      hide Step, Restarts;
    }
  }

  /** One turn restarts at most once, at its own time. */
  lemma StepRestarts(s: State, t: Turn)
    ensures Restarts(Step(s, t).log) == Restarts(s.log)
         || Restarts(Step(s, t).log) == Restarts(s.log) + [t.now]
  {
    hide Restarts, Recent, Restart;
    StepCases(s, t);
    hide Step;
    var e := if t.signal then Interrupted else if t.exit.Some? then ExitSeen(t.exit.value) else Probed(t.healthy);
    RestartsSnoc(s.log, e);
    var log := s.log + [e];
    RestartsSnoc(log, KillEvent(t));
    RestartsSnoc(log, GaveUp(t.now));
    RestartsSnoc(log, Restarting(t.now));
    RestartsSnoc(log + [GaveUp(t.now)], KillEvent(t));
    RestartsSnoc(log + [Restarting(t.now)], KillEvent(t));
    RestartsSnoc(log + [Restarting(t.now)] + [KillEvent(t)], Spawned);
    assert s.log + [Interrupted, KillEvent(t)] == s.log + [Interrupted] + [KillEvent(t)];
    assert log + [GaveUp(t.now), KillEvent(t)] == log + [GaveUp(t.now)] + [KillEvent(t)];
    assert log + [Restarting(t.now), KillEvent(t), Spawned] == log + [Restarting(t.now)] + [KillEvent(t)] + [Spawned];
    RestartCases(s.(log := log), t);
    RestartCases(s.(failures := s.failures + 1, log := log), t);
  }

  /** Of ordered times, all from the first recent one on are recent. */
  lemma {:induction false} RecentLength(ts: seq<Time>, now: Time, i: nat)
    requires Ordered(ts, now) && i < |ts| && now - ts[i] < WINDOW
    ensures |Recent(ts, now)| >= |ts| - i
    decreases |ts|
  {
    if i < |ts| - 1 {
      RecentLength(ts[..|ts| - 1], now, i);
    }
  }

  predicate Spaced(ts: seq<Time>) {
    forall i, j | 0 <= i && j == i + 5 < |ts| :: ts[j] - ts[i] >= 600.0
  }

  lemma {:induction false} JustifiedSpaced(log: seq<Event>, now: Time)
    requires AllJustified(log) && Ordered(Restarts(log), now)
    ensures Spaced(Restarts(log))
    decreases |log|
  {
    if log != [] {
      var n := |log| - 1;
      var before := Restarts(log[..n]);
      assert Restarts(log) == before + if log[n].Restarting? then [log[n].at] else [];
      hide Restarts;
      OrderedPrefix(before, if log[n].Restarting? then [log[n].at] else [], now);
      JustifiedSpaced(log[..n], now);
      assert Justified(log[..n], log[n]);
      hide AllJustified, Frozen, Crashed, Recent;
      if log[n].Restarting? {
        SpacedSnoc(before, log[n].at);
      } else {
        assert before + [] == before;
      }
    }
  }

  lemma OrderedPrefix(ts: seq<Time>, more: seq<Time>, now: Time)
    requires Ordered(ts + more, now)
    ensures Ordered(ts, now)
    ensures more != [] ==> Ordered(ts, more[0])
  {
    assert forall i | 0 <= i < |ts| :: (ts + more)[i] == ts[i];
    if more != [] { assert (ts + more)[|ts|] == more[0]; }
  }

  lemma SpacedSnoc(ts: seq<Time>, t: Time)
    requires Spaced(ts) && Ordered(ts, t) && |Recent(ts, t)| < MAX_RESTARTS
    ensures Spaced(ts + [t])
  {
    hide Recent;
    if |ts| >= MAX_RESTARTS && t - ts[|ts| - MAX_RESTARTS] < WINDOW {
      RecentLength(ts, t, |ts| - MAX_RESTARTS);
    }
  }

  /** In every run, any six restarts in a row span at least ten minutes: at most five restarts
      happen in any window shorter than that. */
  lemma RestartsAreRare(turns: seq<Turn>)
    requires Timed(turns)
    ensures Spaced(Restarts(Supervised(turns).log))
  {
    hide Supervised, AllJustified, Restarts, Spaced, Ordered, StampsCount;
    var now := if turns == [] then 0.0 else turns[|turns| - 1].now;
    RunInv(turns, now);
    RestartsOrdered(turns, now);
    JustifiedSpaced(Supervised(turns).log, now);
  }

  /** A turn that finds a crash or the third failed probe gives up exactly when five restarts
      of the whole history lie within the last ten minutes, and otherwise respawns. */
  lemma GivesUpExactly(turns: seq<Turn>, t: Turn)
    requires Timed(turns + [t]) && !Supervised(turns).done && !t.signal
    requires t.exit.Some? ==> t.exit.value != 0
    requires t.exit.None? ==> !t.healthy && FailedInARow(Supervised(turns).log) == 2
    ensures var s, s' := Supervised(turns), Step(Supervised(turns), t);
            && (s'.done <==> RestartsWithin(s.log, t.now) >= 5)
            && (!s'.done ==> s'.log[|s'.log| - 1] == Spawned && s'.failures == 0)
  {
    hide Supervised, AllJustified, Restarts, Recent, Restart, KillEvent, Watching, FailuresShown, FailedInARow,
         RestartsWithin;
    assert (turns + [t])[|turns|] == t && forall i | 0 <= i < |turns| :: (turns + [t])[i] == turns[i];
    RunInv(turns, t.now);
    var s := Supervised(turns);
    StepCases(s, t);
    CountNow(s, t.now);
    RecentIsWithin(s.log, t.now);
    FailuresAreCounted(turns);
    RestartCases(s.(log := s.log + [if t.exit.Some? then ExitSeen(t.exit.value) else Probed(false)]), t);
    RestartCases(s.(failures := s.failures + 1, log := s.log + [Probed(false)]), t);
  }
}
