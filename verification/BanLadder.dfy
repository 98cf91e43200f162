/**
 Progressive bans (app/error_prevention.py, `ErrorPreventionManager`): immediate cooldowns,
 the softban / longban / disabled ladder, and what every run of the manager keeps.
 */
module BanLadder {
  import opened Prelude

  type Time = real

  datatype Kind = Timeout | Auth | RateLimit | ServerError | GatewayError | NotFound | ModelError | Unknown

  /** The key "provider/model/type" as a tuple. */
  datatype Key = Key(provider: string, model: string, kind: Kind)

  /** `ban_state` and `ban_until` together. */
  datatype Ban = Free | Soft(until: Time) | Long(until: Time) | Disabled

  /** `level` is `ban_escalation_count`. */
  datatype Entry = Entry(streak: int, lastError: Time, ban: Ban, level: int)

  const FRESH := Entry(0, 0.0, Free, 0)

  datatype Settings = Settings(enabled: bool, threshold: int, softMinutes: int, longMinutes: int,
                               notify: bool, disableAfterLongban: bool,
                               rateLimitSeconds: int, authSeconds: int, deadLeafSeconds: int,
                               notFoundSeconds: int, defaultSeconds: int)
  {
    function Cooldown(kind: Kind): Time {
      match kind
      case RateLimit => rateLimitSeconds as real
      case Auth => authSeconds as real
      case Timeout => deadLeafSeconds as real
      case ServerError => deadLeafSeconds as real
      case GatewayError => deadLeafSeconds as real
      case NotFound => notFoundSeconds as real
      case ModelError => notFoundSeconds as real
      case Unknown => defaultSeconds as real
    }

    function SoftSpan(): Time { (softMinutes * 60) as real }

    function LongSpan(): Time { (longMinutes * 60) as real }
  }

  datatype Action =
    | Cooled(seconds: Time)
    | SoftBanned(minutes: int)
    | LongBanned(minutes: int)
    | DisabledNow(notify: bool)
    | CriticalWarning(notify: bool)

  /** Client payload errors and disconnects say nothing about the model, unless they carry a
      billing marker. */
  predicate Counts(status: int, billing: bool) {
    !(status == 400 || status == 422 || status == 499) || billing
  }

  function AfterError(cfg: Settings, kind: Kind, e: Entry, now: Time): (Entry, Option<Action>) {
    var s := e.(streak := e.streak + 1, lastError := now);
    if s.streak < cfg.threshold then
      var until := now + cfg.Cooldown(kind);
      if s.ban.Disabled? then (s, None)
      else if !s.ban.Free? && s.ban.until > until then (s, None)
      else (s.(ban := Soft(until)), Some(Cooled(cfg.Cooldown(kind))))
    else if s.level == 0 then
      (s.(ban := Soft(now + cfg.SoftSpan()), level := 1, streak := 0), Some(SoftBanned(cfg.softMinutes)))
    else if s.level == 1 then
      (s.(ban := Long(now + cfg.LongSpan()), level := 2, streak := 0), Some(LongBanned(cfg.longMinutes)))
    else if cfg.disableAfterLongban then
      (s.(ban := Disabled, streak := 0), Some(DisabledNow(cfg.notify)))
    else
      (s.(ban := Free, streak := 0), Some(CriticalWarning(cfg.notify)))
  }

  function AfterSuccess(e: Entry): Entry {
    e.(streak := 0, ban := if e.ban.Soft? then Free else e.ban)
  }

  function AfterClear(e: Entry): Entry {
    if e.ban.Soft? || e.ban.Long? then e.(ban := Free, streak := 0) else e
  }

  function AfterEnable(e: Entry): Entry {
    e.(ban := Free, streak := 0, level := 0)
  }

  predicate Active(b: Ban, now: Time) {
    b.Disabled? || (!b.Free? && now < b.until)
  }

  // ---- The manager ---------------------------------------------------------

  /** The state dictionary: its entries and the order its keys came in. */
  datatype Table = Table(order: seq<Key>, entries: map<Key, Entry>)
  {
    predicate Valid() {
      && (forall i | 0 <= i < |order| :: order[i] in entries)
      && (forall k | k in entries :: k in order)
      && (forall i, j | 0 <= i < j < |order| :: order[i] != order[j])
    }

    function Look(k: Key): Option<Entry> {
      if k in entries then Some(entries[k]) else None
    }
  }

  predicate Of(k: Key, provider: string, model: string) {
    k.provider == provider && k.model == model
  }

  /** What the methods that visit many entries do to each of them. */
  datatype Change = Success(provider: string, model: string) | ClearBans | Enable(provider: string, model: string)

  function Changed(c: Change, k: Key, e: Entry): Entry {
    match c
    case Success(p, m) => if Of(k, p, m) then AfterSuccess(e) else e
    case ClearBans => AfterClear(e)
    case Enable(p, m) => if Of(k, p, m) then AfterEnable(e) else e
  }

  function Swept(c: Change, entries: map<Key, Entry>): map<Key, Entry> {
    map k | k in entries :: Changed(c, k, entries[k])
  }

  /** The entries before position `n` have been visited, the others not. */
  predicate SweptUpTo(c: Change, was: map<Key, Entry>, entries: map<Key, Entry>, order: seq<Key>, n: nat) {
    && n <= |order| && entries.Keys == was.Keys
    && (forall i | 0 <= i < n :: order[i] in was && entries[order[i]] == Changed(c, order[i], was[order[i]]))
    && (forall i | n <= i < |order| :: order[i] in was && entries[order[i]] == was[order[i]])
  }

  lemma SweepStep(c: Change, was: map<Key, Entry>, entries: map<Key, Entry>, order: seq<Key>, n: nat, e: Entry)
    requires SweptUpTo(c, was, entries, order, n) && n < |order| && e == Changed(c, order[n], entries[order[n]])
    requires Table(order, was).Valid()
    ensures SweptUpTo(c, was, entries[order[n] := e], order, n + 1)
  {
    hide Changed;
  }

  lemma SweepSame(c: Change, was: map<Key, Entry>, entries: map<Key, Entry>, order: seq<Key>, n: nat)
    requires SweptUpTo(c, was, entries, order, n) && n < |order|
    requires entries[order[n]] == Changed(c, order[n], entries[order[n]])
    ensures SweptUpTo(c, was, entries, order, n + 1)
  {
    hide Changed;
  }

  lemma SweepDone(c: Change, was: map<Key, Entry>, entries: map<Key, Entry>, order: seq<Key>)
    requires SweptUpTo(c, was, entries, order, |order|) && Table(order, was).Valid()
    ensures entries == Swept(c, was)
  {
    hide Changed;
    forall k | k in was ensures k in entries && entries[k] == Changed(c, k, was[k]) {
      assert k in order;
    }
  }

  function WithError(cfg: Settings, t: Table, k: Key, now: Time): (Table, Option<Action>) {
    var e := if k in t.entries then t.entries[k] else FRESH;
    var (e', action) := AfterError(cfg, k.kind, e, now);
    (Table(if k in t.entries then t.order else t.order + [k], t.entries[k := e']), action)
  }

  /** The loop of `is_banned`: the first active ban of the model, and the table without the
      expired bans passed on the way. */
  function Scan(order: seq<Key>, entries: map<Key, Entry>, provider: string, model: string, now: Time)
    : (Option<Ban>, map<Key, Entry>)
    requires forall i | 0 <= i < |order| :: order[i] in entries
  {
    if order == [] then (None, entries)
    else
      var e := entries[order[0]];
      if !Of(order[0], provider, model) || e.ban.Free? then Scan(order[1..], entries, provider, model, now)
      else if Active(e.ban, now) then (Some(e.ban), entries)
      else Scan(order[1..], entries[order[0] := e.(ban := Free)], provider, model, now)
  }

  class Manager {
    const cfg: Settings
    var order: seq<Key>
    var entries: map<Key, Entry>

    function Contents(): Table
      reads this
    {
      Table(order, entries)
    }

    constructor (settings: Settings)
      ensures cfg == settings && Contents() == Table([], map[])
    {
      cfg, order, entries := settings, [], map[];
    }

    method RecordError(provider: string, model: string, kind: Kind, status: int, billing: bool, now: Time)
      returns (action: Option<Action>)
      modifies this
      ensures !cfg.enabled || !Counts(status, billing) ==> action == None && Contents() == old(Contents())
      ensures cfg.enabled && Counts(status, billing) ==>
                (Contents(), action) == WithError(cfg, old(Contents()), Key(provider, model, kind), now)
    {
      if !cfg.enabled { return None; }
      ghost var was := entries;
      var key := Key(provider, model, kind);
      if (status == 400 || status == 422 || status == 499) && !billing { return None; }
      if key !in entries {
        order := order + [key];
        entries := entries[key := FRESH];
      }
      var entry := entries[key].(streak := entries[key].streak + 1, lastError := now);
      if entry.streak < cfg.threshold {
        var until := now + cfg.Cooldown(kind);
        entries := entries[key := entry];
        assert entries == was[key := entry];
        if entry.ban.Disabled? { return None; }
        if (entry.ban.Soft? || entry.ban.Long?) && entry.ban.until > until { return None; }
        entries := entries[key := entry.(ban := Soft(until))];
        assert entries == was[key := entries[key]];
        return Some(Cooled(cfg.Cooldown(kind)));
      }
      if entry.level == 0 {
        entries := entries[key := entry.(ban := Soft(now + cfg.SoftSpan()), level := 1, streak := 0)];
        assert entries == was[key := entries[key]];
        return Some(SoftBanned(cfg.softMinutes));
      } else if entry.level == 1 {
        entries := entries[key := entry.(ban := Long(now + cfg.LongSpan()), level := 2, streak := 0)];
        assert entries == was[key := entries[key]];
        return Some(LongBanned(cfg.longMinutes));
      } else if cfg.disableAfterLongban {
        entries := entries[key := entry.(ban := Disabled, streak := 0)];
        assert entries == was[key := entries[key]];
        return Some(DisabledNow(cfg.notify));
      } else {
        entries := entries[key := entry.(ban := Free, streak := 0)];
        assert entries == was[key := entries[key]];
        return Some(CriticalWarning(cfg.notify));
      }
    }

    method RecordSuccess(provider: string, model: string)
      requires Contents().Valid()
      modifies this`entries
      ensures entries == if cfg.enabled then Swept(Success(provider, model), old(entries)) else old(entries)
    {
      hide SweptUpTo, Swept;
      if !cfg.enabled { return; }
      ghost var was, c := entries, Success(provider, model);
      SweepBegins(c, was, order);
      for i := 0 to |order|
        invariant SweptUpTo(c, was, entries, order, i)
      {
        InSweep(c, was, entries, order, i);
        var entry := entries[order[i]];
        if Of(order[i], provider, model) {
          entry := entry.(streak := 0);
          if entry.ban.Soft? { entry := entry.(ban := Free); }
          SweepStep(c, was, entries, order, i, entry);
          entries := entries[order[i] := entry];
        } else {
          SweepSame(c, was, entries, order, i);
        }
      }
      SweepDone(c, was, entries, order);
    }

    /** `clear_all_bans`: disabled models stay disabled. */
    method ClearAllBans()
      requires Contents().Valid()
      modifies this`entries
      ensures entries == Swept(ClearBans, old(entries))
    {
      hide SweptUpTo, Swept;
      ghost var was := entries;
      SweepBegins(ClearBans, was, order);
      for i := 0 to |order|
        invariant SweptUpTo(ClearBans, was, entries, order, i)
      {
        InSweep(ClearBans, was, entries, order, i);
        var entry := entries[order[i]];
        if entry.ban.Soft? || entry.ban.Long? {
          entry := entry.(ban := Free, streak := 0);
          SweepStep(ClearBans, was, entries, order, i, entry);
          entries := entries[order[i] := entry];
        } else {
          SweepSame(ClearBans, was, entries, order, i);
        }
      }
      SweepDone(ClearBans, was, entries, order);
    }

    method ManuallyEnableModel(provider: string, model: string)
      requires Contents().Valid()
      modifies this`entries
      ensures entries == Swept(Enable(provider, model), old(entries))
    {
      hide SweptUpTo, Swept;
      ghost var was, c := entries, Enable(provider, model);
      SweepBegins(c, was, order);
      for i := 0 to |order|
        invariant SweptUpTo(c, was, entries, order, i)
      {
        InSweep(c, was, entries, order, i);
        if Of(order[i], provider, model) {
          var entry := entries[order[i]].(ban := Free, streak := 0, level := 0);
          SweepStep(c, was, entries, order, i, entry);
          entries := entries[order[i] := entry];
        } else {
          SweepSame(c, was, entries, order, i);
        }
      }
      SweepDone(c, was, entries, order);
    }

    /** The ban in force for the model, if any; expired bans met on the way are cleared. */
    method IsBanned(provider: string, model: string, now: Time) returns (ban: Option<Ban>)
      requires Contents().Valid()
      modifies this`entries
      ensures !cfg.enabled ==> ban == None && entries == old(entries)
      ensures cfg.enabled ==> (ban, entries) == Scan(order, old(entries), provider, model, now)
      ensures ban.Some? ==> Active(ban.value, now)
      ensures cfg.enabled ==> (ban.Some? <==> Banned(Table(order, old(entries)), provider, model, now))
    {
      hide Scan;
      if !cfg.enabled { return None; }
      ghost var was := entries;
      ScanMeaning(order, was, provider, model, now);
      assert order[0..] == order;
      for i := 0 to |order|
        invariant entries.Keys == was.Keys
        invariant Scan(order, was, provider, model, now) == Scan(order[i..], entries, provider, model, now)
      {
        ScanUnfold(order, entries, provider, model, now, i);
        var key := order[i];
        var entry := entries[key];
        if Of(key, provider, model) && !entry.ban.Free? {
          if entry.ban.Disabled? || now < entry.ban.until { return Some(entry.ban); }
          entries := entries[key := entry.(ban := Free)];
        }
      }
      ScanUnfold(order, entries, provider, model, now, |order|);
      ban := None;
    }
  }

  predicate Banned(t: Table, provider: string, model: string, now: Time) {
    exists k :: k in t.entries && k.provider == provider && k.model == model
                && (t.entries[k].ban.Disabled?
                    || ((t.entries[k].ban.Soft? || t.entries[k].ban.Long?) && now < t.entries[k].ban.until))
  }

  lemma SweepBegins(c: Change, was: map<Key, Entry>, order: seq<Key>)
    requires Table(order, was).Valid()
    ensures SweptUpTo(c, was, was, order, 0)
  {
    hide Changed;
  }

  lemma InSweep(c: Change, was: map<Key, Entry>, entries: map<Key, Entry>, order: seq<Key>, n: nat)
    requires SweptUpTo(c, was, entries, order, n) && n < |order|
    ensures order[n] in entries
  {
    hide Changed;
  }

  lemma ScanUnfold(order: seq<Key>, entries: map<Key, Entry>, provider: string, model: string, now: Time, i: nat)
    requires i <= |order| && forall j | 0 <= j < |order| :: order[j] in entries
    ensures i == |order| ==> Scan(order[i..], entries, provider, model, now) == (None, entries)
    ensures i < |order| ==>
              var e := entries[order[i]];
              Scan(order[i..], entries, provider, model, now)
              == if !Of(order[i], provider, model) || e.ban.Free? then
                   Scan(order[i + 1..], entries, provider, model, now)
                 else if Active(e.ban, now) then (Some(e.ban), entries)
                 else Scan(order[i + 1..], entries[order[i] := e.(ban := Free)], provider, model, now)
  {
    hide Of, Active;
    if i < |order| {
      assert order[i..][0] == order[i] && order[i..][1..] == order[i + 1..];
    }
  }

  /** The scan finds a ban exactly when some entry of the model is actively banned, and changes
      nothing but bans that have expired. */
  lemma {:induction false} ScanFinds(order: seq<Key>, entries: map<Key, Entry>, provider: string, model: string,
                                     now: Time)
    requires forall i | 0 <= i < |order| :: order[i] in entries
    ensures var (ban, after) := Scan(order, entries, provider, model, now);
            && (ban.Some? ==> Active(ban.value, now))
            && (ban.Some? <==> exists k :: k in order && Of(k, provider, model) && Active(entries[k].ban, now))
            && after.Keys == entries.Keys
            && (forall k | k in entries ::
                  after[k] == entries[k]
                  || (after[k] == entries[k].(ban := Free) && !Active(entries[k].ban, now)))
  {
    hide Of;
    if order != [] {
      var e := entries[order[0]];
      if !Of(order[0], provider, model) || e.ban.Free? {
        ScanFinds(order[1..], entries, provider, model, now);
      } else if !Active(e.ban, now) {
        ScanFinds(order[1..], entries[order[0] := e.(ban := Free)], provider, model, now);
      }
    }
  }

  lemma ScanMeaning(order: seq<Key>, entries: map<Key, Entry>, provider: string, model: string, now: Time)
    requires Table(order, entries).Valid()
    ensures var ban := Scan(order, entries, provider, model, now).0;
            && (ban.Some? ==> Active(ban.value, now))
            && (ban.Some? <==> Banned(Table(order, entries), provider, model, now))
  {
    hide Scan;
    ScanFinds(order, entries, provider, model, now);
  }

  // ---- Runs ----------------------------------------------------------------

  datatype Event =
    | Failure(key: Key, status: int, billing: bool)
    | Visit(change: Change)
    | Check(provider: string, model: string)

  /** One call of a manager method; `change` is a success, a manual enable or a clearing. */
  function Step(cfg: Settings, t: Table, e: Event, now: Time): Table
    requires t.Valid()
  {
    match e
    case Failure(key, status, billing) =>
      if cfg.enabled && Counts(status, billing) then WithError(cfg, t, key, now).0 else t
    case Visit(change) =>
      if change.Success? && !cfg.enabled then t else t.(entries := Swept(change, t.entries))
    case Check(p, m) => if cfg.enabled then t.(entries := Scan(t.order, t.entries, p, m, now).1) else t
  }

  lemma StepValid(cfg: Settings, t: Table, e: Event, now: Time)
    requires t.Valid()
    ensures Step(cfg, t, e, now).Valid()
  {
    hide Scan, AfterError, Changed, Counts;
    if e.Check? { ScanFinds(t.order, t.entries, e.provider, e.model, now); }
  }

  type Run = seq<(Event, Time)>

  /** The clock never goes back. */
  predicate Timed(run: Run) {
    forall i, j | 0 <= i < j < |run| :: run[i].1 <= run[j].1
  }

  function After(cfg: Settings, run: Run): (t: Table)
    ensures t.Valid()
  {
    if run == [] then Table([], map[])
    else
      var t := After(cfg, run[..|run| - 1]);
      StepValid(cfg, t, run[|run| - 1].0, run[|run| - 1].1);
      Step(cfg, t, run[|run| - 1].0, run[|run| - 1].1)
  }

  /** Errors counted on a key since its model was last enabled by hand. */
  function Counted(cfg: Settings, run: Run, k: Key): nat {
    if run == [] then 0
    else
      var e := run[|run| - 1].0;
      var before := Counted(cfg, run[..|run| - 1], k);
      if e.Failure? && e.key == k && cfg.enabled && (e.billing || e.status !in {400, 422, 499}) then before + 1
      else if e.Visit? && e.change == Enable(k.provider, k.model) then 0
      else before
  }

  /** What one event may do to one key's entry. */
  ghost predicate Moved(cfg: Settings, k: Key, before: Option<Entry>, after: Option<Entry>, e: Event, now: Time) {
    if e.Failure? && e.key == k && cfg.enabled && Counts(e.status, e.billing) then
      after == Some(AfterError(cfg, k.kind, if before.Some? then before.value else FRESH, now).0)
    else if before.None? then after.None?
    else
      match e
      case Failure(_, _, _) => after == before
      case Visit(c) => after == if c.Success? && !cfg.enabled then before else Some(Changed(c, k, before.value))
      case Check(_, _) =>
        after == before || (!Active(before.value.ban, now) && after == Some(before.value.(ban := Free)))
  }

  lemma StepMoves(cfg: Settings, t: Table, e: Event, now: Time, k: Key)
    requires t.Valid()
    ensures Moved(cfg, k, t.Look(k), Step(cfg, t, e, now).Look(k), e, now)
  {
    hide Scan, AfterError, Changed, Counts, Active;
    if e.Check? { ScanFinds(t.order, t.entries, e.provider, e.model, now); }
  }

  /** Rungs of `threshold` errors each. */
  function Rungs(level: int, threshold: int): int {
    if level <= 0 then 0 else if level == 1 then threshold else threshold + threshold
  }

  /** Where an entry can stand after `n` counted errors. */
  predicate Standing(cfg: Settings, e: Entry, n: nat) {
    && 0 <= e.streak < cfg.threshold
    && 0 <= e.level <= 2
    && Rungs(e.level, cfg.threshold) + e.streak <= n
    && (e.ban.Long? ==> e.level == 2)
    && (e.ban.Disabled? ==> e.level == 2 && n >= 3 * cfg.threshold && cfg.disableAfterLongban)
  }

  lemma MoveKeepsStanding(cfg: Settings, k: Key, before: Option<Entry>, after: Option<Entry>, e: Event,
                          now: Time, n: nat)
    requires cfg.threshold >= 1 && Moved(cfg, k, before, after, e, now)
    requires before.Some? ==> Standing(cfg, before.value, n)
    ensures after.Some? ==>
              Standing(cfg, after.value,
                       if e.Failure? && e.key == k && cfg.enabled && Counts(e.status, e.billing) then n + 1
                       else if e.Visit? && e.change.Enable? && Of(k, e.change.provider, e.change.model) then 0
                       else n)
  {
    hide Counts, Of, Active, Settings.Cooldown, Settings.SoftSpan, Settings.LongSpan;
  }

  lemma AfterSnoc(cfg: Settings, run: Run, e: Event, now: Time)
    ensures After(cfg, run + [(e, now)]) == Step(cfg, After(cfg, run), e, now)
  {
    hide Step;
    assert (run + [(e, now)])[..|run|] == run;
  }

  /** In every run, each key's streak stays below the threshold, its level is one of three,
      and both are paid for by errors counted since the model was last enabled by hand. */
  lemma {:induction false} LadderIsPaidFor(cfg: Settings, run: Run, k: Key)
    requires cfg.threshold >= 1
    ensures var e := After(cfg, run).Look(k);
            e.Some? ==> Standing(cfg, e.value, Counted(cfg, run, k))
    decreases |run|
  {
    hide Standing, Moved, Step;
    if run != [] {
      var n := |run| - 1;
      LadderIsPaidFor(cfg, run[..n], k);
      var t := After(cfg, run[..n]);
      StepMoves(cfg, t, run[n].0, run[n].1, k);
      MoveKeepsStanding(cfg, k, t.Look(k), Step(cfg, t, run[n].0, run[n].1).Look(k), run[n].0, run[n].1,
                        Counted(cfg, run[..n], k));
    }
  }

  /** A longban needs two thresholds of counted errors, a disabled model three. */
  lemma BansNeedErrors(cfg: Settings, run: Run, k: Key)
    requires cfg.threshold >= 1
    ensures var e := After(cfg, run).Look(k);
            && (e.Some? && e.value.ban.Long? ==> Counted(cfg, run, k) >= 2 * cfg.threshold)
            && (e.Some? && e.value.ban.Disabled? ==> Counted(cfg, run, k) >= 3 * cfg.threshold)
  {
    hide After, Counted;
    LadderIsPaidFor(cfg, run, k);
  }

  // ---- What each call does -------------------------------------------------

  /** The seconds an error of a kind costs before a rung is reached. */
  function Seconds(cfg: Settings, kind: Kind): int {
    match kind
    case RateLimit => cfg.rateLimitSeconds
    case Auth => cfg.authSeconds
    case Timeout | ServerError | GatewayError => cfg.deadLeafSeconds
    case NotFound | ModelError => cfg.notFoundSeconds
    case Unknown => cfg.defaultSeconds
  }

  predicate TouchesKey(c: Change, k: Key) {
    match c
    case ClearBans => true
    case Success(p, m) => p == k.provider && m == k.model
    case Enable(p, m) => p == k.provider && m == k.model
  }

  /** No success, clearing or manual enable touches the key. */
  predicate LeftAlone(run: Run, k: Key) {
    forall i | 0 <= i < |run| && run[i].0.Visit? :: !TouchesKey(run[i].0.change, k)
  }

  /** Where `n` errors in a row leave streak and level. */
  predicate Climbed(cfg: Settings, e: Option<Entry>, n: nat)
    requires cfg.threshold >= 1
  {
    if n == 0 then e.None?
    else
      e.Some? && e.value.streak == n % cfg.threshold
      && e.value.level == if n / cfg.threshold <= 1 then n / cfg.threshold else 2
  }

  lemma ErrorClimbs(cfg: Settings, k: Key, e: Option<Entry>, now: Time, n: nat)
    requires cfg.threshold >= 1 && Climbed(cfg, e, n)
    ensures Climbed(cfg, Some(AfterError(cfg, k.kind, if e.Some? then e.value else FRESH, now).0), n + 1)
  {
    hide Settings.Cooldown, Settings.SoftSpan, Settings.LongSpan;
    NextResidue(n, cfg.threshold);
    if n == 0 { ResidueIs(0, 0, 0, cfg.threshold); }
  }

  /** In every run in which the key is left alone, the errors counted on it make up its streak and
      its level: whole thresholds are rungs, up to the second, and the rest is the streak. */
  lemma {:induction false} ErrorsClimb(cfg: Settings, run: Run, k: Key)
    requires cfg.threshold >= 1 && LeftAlone(run, k)
    ensures Climbed(cfg, After(cfg, run).Look(k), Counted(cfg, run, k))
    decreases |run|
  {
    hide After, Climbed, Moved, Step, Table.Look, Counted, Counts;
    if run == [] {
      NothingYet(cfg, k);
      NoneClimbed(cfg, k);
    } else {
      var n := |run| - 1;
      var (e, now) := run[n];
      ErrorsClimb(cfg, run[..n], k);
      assert run == run[..n] + [(e, now)];
      AfterSnoc(cfg, run[..n], e, now);
      var t := After(cfg, run[..n]);
      StepMoves(cfg, t, e, now, k);
      CountedSnoc(cfg, run[..n], e, now, k);
      EventClimbs(cfg, k, t.Look(k), Step(cfg, t, e, now).Look(k), e, now, Counted(cfg, run[..n], k));
    }
  }

  lemma NoneClimbed(cfg: Settings, k: Key)
    requires cfg.threshold >= 1
    ensures Climbed(cfg, None, 0) && Counted(cfg, [], k) == 0
  {}

  lemma BanIsNoRung(cfg: Settings, e: Entry, ban: Ban, n: nat)
    requires cfg.threshold >= 1 && Climbed(cfg, Some(e), n)
    ensures Climbed(cfg, Some(e.(ban := ban)), n)
  {}

  lemma EventClimbs(cfg: Settings, k: Key, before: Option<Entry>, after: Option<Entry>, e: Event, now: Time, n: nat)
    requires cfg.threshold >= 1 && Climbed(cfg, before, n) && Moved(cfg, k, before, after, e, now)
    requires e.Visit? ==> !TouchesKey(e.change, k)
    ensures Climbed(cfg, after,
                    if e.Failure? && e.key == k && cfg.enabled && Counts(e.status, e.billing) then n + 1 else n)
  {
    hide AfterError, Active, Climbed, Counts;
    if e.Failure? && e.key == k && cfg.enabled && Counts(e.status, e.billing) {
      ErrorClimbs(cfg, k, before, now, n);
    } else if before.Some? {
      BanIsNoRung(cfg, before.value, Free, n);
    }
  }

  lemma CountedSnoc(cfg: Settings, run: Run, e: Event, now: Time, k: Key)
    ensures Counted(cfg, run + [(e, now)], k)
         == if e.Failure? && e.key == k && cfg.enabled && Counts(e.status, e.billing) then Counted(cfg, run, k) + 1
            else if e.Visit? && e.change == Enable(k.provider, k.model) then 0
            else Counted(cfg, run, k)
  {
    assert (run + [(e, now)])[..|run|] == run;
  }

  /** What an error that reaches no rung, or this one, does to the ban. */
  predicate Acts(cfg: Settings, kind: Kind, was: Option<Entry>, rung: Option<nat>, now: Time, ban: Ban,
                 action: Option<Action>)
  {
    var seconds := Seconds(cfg, kind) as real;
    if rung.None? then
      if was.Some? && (was.value.ban.Disabled?
                       || ((was.value.ban.Soft? || was.value.ban.Long?) && was.value.ban.until > now + seconds))
      then ban == was.value.ban && action == None
      else ban == Soft(now + seconds) && action == Some(Cooled(seconds))
    else if rung == Some(1) then
      ban == Soft(now + (cfg.softMinutes * 60) as real) && action == Some(SoftBanned(cfg.softMinutes))
    else if rung == Some(2) then
      ban == Long(now + (cfg.longMinutes * 60) as real) && action == Some(LongBanned(cfg.longMinutes))
    else if cfg.disableAfterLongban then ban == Disabled && action == Some(DisabledNow(cfg.notify))
    else ban == Free && action == Some(CriticalWarning(cfg.notify))
  }

  lemma ErrorActs(cfg: Settings, kind: Kind, was: Option<Entry>, now: Time, q: nat, r: nat)
    requires r < cfg.threshold
    requires was.Some? ==> was.value.streak == r && was.value.level == if q <= 1 then q else 2
    requires was.None? ==> q == 0 && r == 0
    ensures var (e, action) := AfterError(cfg, kind, if was.Some? then was.value else FRESH, now);
            Acts(cfg, kind, was, if r + 1 == cfg.threshold then Some(q + 1) else None, now, e.ban, action)
            && e.lastError == now
  {}

  lemma ClimbedActs(cfg: Settings, kind: Kind, was: Option<Entry>, now: Time, n: nat)
    requires cfg.threshold >= 1 && Climbed(cfg, was, n)
    ensures var (e, action) := AfterError(cfg, kind, if was.Some? then was.value else FRESH, now);
            && e.lastError == now
            && Acts(cfg, kind, was, if (n + 1) % cfg.threshold == 0 then Some((n + 1) / cfg.threshold) else None, now,
                    e.ban, action)
  {
    NextResidue(n, cfg.threshold);
    if n == 0 { ResidueIs(0, 0, 0, cfg.threshold); }
    ErrorActs(cfg, kind, was, now, n / cfg.threshold, n % cfg.threshold);
    hide AfterError, Acts;
  }

  /** What the next error does to a key left alone, told by the number of errors counted on it:
      each threshold-th one is a rung (softban, longban, then disabling or a warning), and every
      other one starts its kind's cooldown unless a longer ban is in force. */
  lemma NextErrorActs(cfg: Settings, run: Run, k: Key, now: Time)
    requires cfg.threshold >= 1 && LeftAlone(run, k)
    ensures var t := After(cfg, run);
            var (t', action) := WithError(cfg, t, k, now);
            var m := Counted(cfg, run, k) + 1;
            && k in t'.entries && t'.entries[k].lastError == now
            && Acts(cfg, k.kind, t.Look(k), if m % cfg.threshold == 0 then Some(m / cfg.threshold) else None, now,
                    t'.entries[k].ban, action)
  {
    hide After, Counted, Acts, AfterError, Climbed;
    ErrorsClimb(cfg, run, k);
    ClimbedActs(cfg, k.kind, After(cfg, run).Look(k), now, Counted(cfg, run, k));
  }

  /** What a success, a clearing and a manual enable leave of a key they reach, and that they leave
      every other key alone. */
  lemma VisitsMean(cfg: Settings, t: Table, change: Change, now: Time, k: Key)
    requires t.Valid() && k in t.entries
    ensures var e, t' := t.entries[k], Step(cfg, t, Visit(change), now);
            && t'.entries.Keys == t.entries.Keys && t'.order == t.order
            && var e' := t'.entries[k];
               match change
               case Success(p, m) =>
                 if cfg.enabled && p == k.provider && m == k.model then
                   e' == e.(streak := 0, ban := e'.ban) && (if e.ban.Soft? then e'.ban == Free else e'.ban == e.ban)
                 else e' == e
               case ClearBans =>
                 if e.ban.Soft? || e.ban.Long? then e' == e.(streak := 0, ban := Free) else e' == e
               case Enable(p, m) =>
                 if p == k.provider && m == k.model then e' == e.(streak := 0, ban := Free, level := 0) else e' == e
  {}

  predicate Enables(e: Event, k: Key) {
    e.Visit? && e.change.Enable? && Of(k, e.change.provider, e.change.model)
  }

  /** A disabled model stays disabled until it is enabled by hand. */
  lemma {:induction false} DisabledIsPermanent(cfg: Settings, run: Run, later: Run, k: Key)
    requires cfg.threshold >= 1
    requires After(cfg, run).Look(k).Some? && After(cfg, run).Look(k).value.ban.Disabled?
    requires forall i | 0 <= i < |later| :: !Enables(later[i].0, k)
    ensures var e := After(cfg, run + later).Look(k);
            e.Some? && e.value.ban.Disabled?
    decreases |later|
  {
    hide After, Step, Moved, Standing, Table.Look;
    if later == [] {
      assert run + later == run;
    } else {
      var n := |later| - 1;
      DisabledIsPermanent(cfg, run, later[..n], k);
      var (e, now) := later[n];
      assert run + later == run + later[..n] + [(e, now)];
      AfterSnoc(cfg, run + later[..n], e, now);
      var t := After(cfg, run + later[..n]);
      StepMoves(cfg, t, e, now, k);
      LadderIsPaidFor(cfg, run + later[..n], k);
      DisabledStep(cfg, k, t.Look(k), Step(cfg, t, e, now).Look(k), e, now, Counted(cfg, run + later[..n], k));
    }
  }

  lemma DisabledStep(cfg: Settings, k: Key, before: Option<Entry>, after: Option<Entry>, e: Event, now: Time, n: nat)
    requires before.Some? && before.value.ban.Disabled? && Standing(cfg, before.value, n)
    requires Moved(cfg, k, before, after, e, now) && !Enables(e, k)
    ensures after.Some? && after.value.ban.Disabled?
  {}

  // ---- When an error may shorten a ban -------------------------------------

  /** The ban is in force and what replaces it ends sooner. */
  predicate Shortened(was: Ban, b: Ban, now: Time) {
    && Active(was, now)
    && !b.Disabled?
    && (was.Disabled? || b.Free? || b.until < was.until)
  }

  predicate Shortens(cfg: Settings, k: Key, before: Option<Entry>, now: Time) {
    before.Some? && Shortened(before.value.ban, AfterError(cfg, k.kind, before.value, now).0.ban, now)
  }

  /** In no run does a counted error end an active ban of its key sooner. */
  ghost predicate NeverShortens(cfg: Settings) {
    forall run: Run, k: Key, now: Time | Timed(run) && (run != [] ==> run[|run| - 1].1 <= now) ::
      !Shortens(cfg, k, After(cfg, run).Look(k), now)
  }

  /** Each step of the ladder lasts at least as long as the one before it. */
  ghost predicate Orderly(cfg: Settings) {
    && cfg.disableAfterLongban
    && cfg.softMinutes <= cfg.longMinutes
    && (cfg.threshold >= 2 ==> forall kind :: cfg.Cooldown(kind) <= cfg.SoftSpan())
  }

  predicate Bounded(cfg: Settings, e: Entry, now: Time) {
    (e.ban.Soft? || e.ban.Long?) ==>
      && (e.level == 0 ==> e.ban.until <= now + cfg.SoftSpan())
      && (e.level == 1 ==> e.ban.until <= now + cfg.LongSpan())
  }

  lemma MoveKeepsBounded(cfg: Settings, k: Key, before: Option<Entry>, after: Option<Entry>, e: Event,
                         was: Time, now: Time, n: nat)
    requires Orderly(cfg) && cfg.threshold >= 1 && was <= now
    requires Moved(cfg, k, before, after, e, now)
    requires before.Some? ==> Standing(cfg, before.value, n) && Bounded(cfg, before.value, was)
    ensures after.Some? ==> Bounded(cfg, after.value, now)
  {
    hide Counts, Of, Active, Settings.Cooldown;
    assert cfg.threshold >= 2 ==> cfg.Cooldown(k.kind) <= cfg.SoftSpan();
    hide Orderly;
    assert cfg.SoftSpan() <= cfg.LongSpan() by { SpansOrdered(cfg); }
    hide Settings.SoftSpan, Settings.LongSpan;
  }

  lemma SpansOrdered(cfg: Settings)
    ensures cfg.SoftSpan() <= cfg.LongSpan() <==> cfg.softMinutes <= cfg.longMinutes
  {}

  lemma {:induction false} RunBounded(cfg: Settings, run: Run, k: Key, now: Time)
    requires Orderly(cfg) && cfg.threshold >= 1
    requires Timed(run) && (run != [] ==> run[|run| - 1].1 <= now)
    ensures After(cfg, run).Look(k).Some? ==> Bounded(cfg, After(cfg, run).Look(k).value, now)
    decreases |run|
  {
    hide Orderly, Moved, Step, Standing, Bounded, Table.Look;
    if run != [] {
      var n := |run| - 1;
      var (e, at) := run[n];
      RunBounded(cfg, run[..n], k, at);
      LadderIsPaidFor(cfg, run[..n], k);
      var t := After(cfg, run[..n]);
      StepMoves(cfg, t, e, at, k);
      MoveKeepsBounded(cfg, k, t.Look(k), Step(cfg, t, e, at).Look(k), e, at, at, Counted(cfg, run[..n], k));
      if Step(cfg, t, e, at).Look(k).Some? { BoundedLater(cfg, Step(cfg, t, e, at).Look(k).value, at, now); }
    } else {
      NothingYet(cfg, k);
    }
  }

  lemma NothingYet(cfg: Settings, k: Key)
    ensures After(cfg, []).Look(k).None?
  {}

  lemma BoundedLater(cfg: Settings, e: Entry, at: Time, now: Time)
    requires Bounded(cfg, e, at) && at <= now
    ensures Bounded(cfg, e, now)
  {}

  lemma BoundedNeverShortens(cfg: Settings, k: Key, e: Entry, now: Time, n: nat)
    requires Orderly(cfg) && cfg.threshold >= 1 && Standing(cfg, e, n) && Bounded(cfg, e, now)
    ensures !Shortens(cfg, k, Some(e), now)
  {
    hide Settings.Cooldown;
    assert cfg.threshold >= 2 ==> cfg.Cooldown(k.kind) <= cfg.SoftSpan();
  }

  lemma OrderlyNeverShortens(cfg: Settings)
    requires Orderly(cfg) && cfg.threshold >= 1
    ensures NeverShortens(cfg)
  {
    hide Orderly, Shortens, Standing, Bounded, Table.Look, After;
    forall run: Run, k: Key, now: Time | Timed(run) && (run != [] ==> run[|run| - 1].1 <= now)
      ensures !Shortens(cfg, k, After(cfg, run).Look(k), now)
    {
      RunBounded(cfg, run, k, now);
      LadderIsPaidFor(cfg, run, k);
      var e := After(cfg, run).Look(k);
      if e.Some? {
        BoundedNeverShortens(cfg, k, e.value, now, Counted(cfg, run, k));
      } else {
        NoneNeverShortens(cfg, k, now);
      }
    }
  }

  lemma NoneNeverShortens(cfg: Settings, k: Key, now: Time)
    ensures !Shortens(cfg, k, None, now)
  {}

  // ---- The runs that show the condition is needed --------------------------

  /** `n` server errors on one key, all at time 0. */
  function Burst(k: Key, n: nat): Run {
    if n == 0 then [] else Burst(k, n - 1) + [(Failure(k, 500, false), 0.0)]
  }

  function Climb(cfg: Settings, kind: Kind, n: nat): Entry {
    if n == 0 then FRESH else AfterError(cfg, kind, Climb(cfg, kind, n - 1), 0.0).0
  }

  lemma {:induction false} BurstClimbs(cfg: Settings, k: Key, n: nat)
    requires cfg.enabled
    ensures |Burst(k, n)| == n && (forall i | 0 <= i < n :: Burst(k, n)[i].1 == 0.0)
    ensures After(cfg, Burst(k, n)).Look(k) == if n == 0 then None else Some(Climb(cfg, k.kind, n))
  {
    hide AfterError, After, Step, Table.Look;
    if n > 0 {
      BurstClimbs(cfg, k, n - 1);
      var e := Failure(k, 500, false);
      AfterSnoc(cfg, Burst(k, n - 1), e, 0.0);
      StepMoves(cfg, After(cfg, Burst(k, n - 1)), e, 0.0, k);
    } else {
      NothingYet(cfg, k);
    }
  }

  /** The first errors of a burst each start the same cooldown. */
  lemma {:induction false} FirstRung(cfg: Settings, kind: Kind, j: nat)
    requires j < cfg.threshold
    ensures var e := Climb(cfg, kind, j);
            e.streak == j && e.level == 0 && (if j == 0 then e.ban.Free? else e.ban == Soft(cfg.Cooldown(kind)))
  {
    hide Settings.Cooldown, Settings.SoftSpan, Settings.LongSpan;
    if j > 0 { FirstRung(cfg, kind, j - 1); }
  }

  /** A ladder ban that outlasts the cooldown stays as it is up to the next rung. */
  lemma {:induction false} NextRung(cfg: Settings, kind: Kind, start: nat, level: int, until: Time, j: nat)
    requires j < cfg.threshold && level >= 1
    requires var e := Climb(cfg, kind, start);
             e.streak == 0 && e.level == level && (e.ban.Soft? || e.ban.Long?) && e.ban.until == until
    requires cfg.threshold >= 2 ==> cfg.Cooldown(kind) <= until
    ensures var e := Climb(cfg, kind, start + j);
            e.streak == j && e.level == level && (e.ban.Soft? || e.ban.Long?) && e.ban.until == until
    decreases j
  {
    hide Settings.Cooldown, Settings.SoftSpan, Settings.LongSpan;
    if j > 0 { NextRung(cfg, kind, start, level, until, j - 1); }
  }

  lemma AtSoftban(cfg: Settings, kind: Kind)
    requires cfg.threshold >= 1
    ensures var e := Climb(cfg, kind, cfg.threshold);
            e.streak == 0 && e.level == 1 && e.ban == Soft(cfg.SoftSpan())
  {
    hide Settings.Cooldown, Settings.SoftSpan, Settings.LongSpan;
    FirstRung(cfg, kind, cfg.threshold - 1);
  }

  lemma AtLongban(cfg: Settings, kind: Kind)
    requires cfg.threshold >= 1 && (cfg.threshold >= 2 ==> cfg.Cooldown(kind) <= cfg.SoftSpan())
    ensures var e := Climb(cfg, kind, 2 * cfg.threshold - 1);
            && e.streak == cfg.threshold - 1 && e.level == 1
            && (e.ban.Soft? || e.ban.Long?) && e.ban.until == cfg.SoftSpan()
    ensures var e := Climb(cfg, kind, 2 * cfg.threshold);
            e.streak == 0 && e.level == 2 && e.ban == Long(cfg.LongSpan())
  {
    hide Settings.Cooldown, Settings.SoftSpan, Settings.LongSpan;
    AtSoftban(cfg, kind);
    NextRung(cfg, kind, cfg.threshold, 1, cfg.SoftSpan(), cfg.threshold - 1);
  }

  /** The number of errors at once after which the next one shortens the ban. */
  lemma BurstShortens(cfg: Settings, kind: Kind) returns (n: nat)
    requires cfg.threshold >= 1 && cfg.softMinutes > 0 && cfg.longMinutes > 0
    requires (cfg.threshold >= 2 && cfg.Cooldown(kind) > cfg.SoftSpan())
          || cfg.softMinutes > cfg.longMinutes || !cfg.disableAfterLongban
    ensures n > 0 && Shortened(Climb(cfg, kind, n).ban, AfterError(cfg, kind, Climb(cfg, kind, n), 0.0).0.ban, 0.0)
  {
    hide Settings.Cooldown, Climb;
    SpansOrdered(cfg);
    if cfg.threshold >= 2 && cfg.Cooldown(kind) > cfg.SoftSpan() {
      FirstRung(cfg, kind, cfg.threshold - 1);
      n := cfg.threshold - 1;
    } else if cfg.softMinutes > cfg.longMinutes {
      AtLongban(cfg, kind);
      n := 2 * cfg.threshold - 1;
    } else {
      AtLongban(cfg, kind);
      NextRung(cfg, kind, 2 * cfg.threshold, 2, cfg.LongSpan(), cfg.threshold - 1);
      n := 3 * cfg.threshold - 1;
    }
  }

  /** With positive durations, no error in any run ends an active ban sooner exactly when
      disabling is on, a longban lasts at least as long as a softban, and (for a threshold
      above one) a softban lasts at least as long as every cooldown. */
  lemma NeverShortensExactly(cfg: Settings)
    requires cfg.enabled && cfg.threshold >= 1 && cfg.softMinutes > 0 && cfg.longMinutes > 0
    ensures NeverShortens(cfg) <==> Orderly(cfg)
  {
    hide After, Climb, AfterError, Table.Look, Shortened, Settings.Cooldown, Settings.SoftSpan, Settings.LongSpan;
    if Orderly(cfg) {
      OrderlyNeverShortens(cfg);
    } else {
      var kind := if cfg.threshold >= 2 && exists x :: cfg.Cooldown(x) > cfg.SoftSpan()
                  then Witness(cfg) else Timeout;
      var k := Key("", "", kind);
      var n := BurstShortens(cfg, kind);
      BurstClimbs(cfg, k, n);
      assert Shortens(cfg, k, After(cfg, Burst(k, n)).Look(k), 0.0);
      assert !NeverShortens(cfg);
    }
  }

  ghost function Witness(cfg: Settings): (kind: Kind)
    requires exists x :: cfg.Cooldown(x) > cfg.SoftSpan()
    ensures cfg.Cooldown(kind) > cfg.SoftSpan()
  {
    var x :| cfg.Cooldown(x) > cfg.SoftSpan();
    x
  }

  /** A late error turns a longban into a softban exactly when its cooldown reaches at least
      to the longban's end before the next rung is due; the ban's end then moves out. */
  lemma LongbanRelabelled(cfg: Settings, run: Run, k: Key, now: Time)
    requires cfg.threshold >= 1
    requires var e := After(cfg, run).Look(k); e.Some? && e.value.ban.Long?
    ensures var e := After(cfg, run).Look(k).value;
            var b := AfterError(cfg, k.kind, e, now).0.ban;
            && (b.Soft? <==> e.streak + 1 < cfg.threshold && now + cfg.Cooldown(k.kind) >= e.ban.until)
            && (b.Soft? ==> b.until == now + cfg.Cooldown(k.kind))
  {
    hide After, Settings.Cooldown;
    LadderIsPaidFor(cfg, run, k);
  }
}
