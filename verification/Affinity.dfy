/**
 The affinity store (app/oauth_antiban.py, `AffinityStore`): a bounded map with a lifetime and
 least-recently-used eviction that binds a session to an account.
 */
module Affinity {
  import opened Prelude

  type Time = real

  datatype Key = Key(session: string, provider: string)

  datatype Item = Item(key: Key, index: int, ts: Time)

  /** An OrderedDict, oldest entry first. */
  type Data = seq<Item>

  function Find(data: Data, k: Key): (r: Option<Item>)
    ensures r.Some? ==> r.value in data && r.value.key == k
    ensures r.None? <==> forall x | x in data :: x.key != k
  {
    if data == [] then None else if data[0].key == k then Some(data[0]) else Find(data[1..], k)
  }

  function Without(data: Data, k: Key): Data {
    if data == [] then []
    else (if data[0].key == k then [] else [data[0]]) + Without(data[1..], k)
  }

  function Trim(data: Data, max: nat): Data {
    if |data| > max then data[|data| - max..] else data
  }

  datatype Op =
    | Bind(key: Key, index: int, at: Time)
    | Lookup(key: Key, at: Time)
    | Release(key: Key)

  /** `ttl` and `max` of a store, both at least 1. */
  datatype Limits = Limits(ttl: Time, max: nat)

  predicate Expired(lim: Limits, x: Item, now: Time) {
    now - x.ts > lim.ttl
  }

  function Answer(lim: Limits, data: Data, k: Key, now: Time): Option<int> {
    var x := Find(data, k);
    if x.None? || Expired(lim, x.value, now) then None else Some(x.value.index)
  }

  function Step(lim: Limits, data: Data, op: Op): Data {
    match op
    case Bind(k, index, at) => Trim(Without(data, k) + [Item(k, index, at)], lim.max)
    case Lookup(k, at) =>
      var x := Find(data, k);
      if x.None? then data
      else if Expired(lim, x.value, at) then Without(data, k)
      else Without(data, k) + [x.value]
    case Release(k) => Without(data, k)
  }

  predicate Distinct(data: Data) {
    forall i, j | 0 <= i < j < |data| :: data[i].key != data[j].key
  }

  class AffinityStore {
    const lim: Limits
    var data: Data

    constructor (ttlSeconds: int, maxSessions: int)
      ensures data == []
      ensures lim.ttl == (if ttlSeconds >= 1 then ttlSeconds else 1) as real
      ensures lim.max == if maxSessions >= 1 then maxSessions else 1
    {
      var ttl := if ttlSeconds < 1 then 1 else ttlSeconds;
      lim := Limits(ttl as real, if maxSessions < 1 then 1 else maxSessions);
      data := [];
    }

    method LookupIndex(k: Key, now: Time) returns (index: Option<int>)
      modifies this
      ensures index == Answer(lim, old(data), k, now)
      ensures data == Step(lim, old(data), Lookup(k, now))
    {
      var entry := Find(data, k);
      if entry.None? { return None; }
      if now - entry.value.ts > lim.ttl {
        data := Without(data, k);
        return None;
      }
      data := Without(data, k) + [entry.value];
      return Some(entry.value.index);
    }

    method BindTo(k: Key, index: int, now: Time)
      modifies this
      ensures data == Step(lim, old(data), Bind(k, index, now))
    {
      data := Without(data, k) + [Item(k, index, now)];
      ghost var all := data;
      while |data| > lim.max
        invariant |data| <= |all| && data == all[|all| - |data|..]
        invariant |data| >= |Trim(all, lim.max)|
        decreases |data|
      {
        data := data[1..];
      }
    }

    method ReleaseKey(k: Key)
      modifies this
      ensures data == Step(lim, old(data), Release(k))
    {
      data := Without(data, k);
    }
  }

  // ---- The store over runs -------------------------------------------------

  function After(lim: Limits, ops: seq<Op>): Data {
    if ops == [] then [] else Step(lim, After(lim, ops[..|ops| - 1]), ops[|ops| - 1])
  }

  lemma {:induction false} WithoutKeeps(data: Data, k: Key)
    requires Distinct(data)
    ensures Distinct(Without(data, k)) && |Without(data, k)| <= |data|
    ensures forall x :: x in Without(data, k) <==> x in data && x.key != k
    ensures (exists x :: x in data && x.key == k) ==> |Without(data, k)| < |data|
    decreases |data|
  {
    if data != [] {
      var rest := Without(data[1..], k);
      WithoutKeeps(data[1..], k);
      assert data == [data[0]] + data[1..];
      if data[0].key != k { ConsDistinct(data[0], rest, data[1..]); } else { assert [] + rest == rest; }
    }
  }

  lemma ConsDistinct(x: Item, rest: Data, all: Data)
    requires Distinct(rest) && Distinct([x] + all) && forall y | y in rest :: y in all
    ensures Distinct([x] + rest)
  {
    forall j | 0 <= j < |rest| ensures rest[j].key != x.key {
      assert rest[j] in all;
      var i :| 0 <= i < |all| && all[i] == rest[j];
      assert ([x] + all)[0] == x && ([x] + all)[i + 1] == all[i];
    }
  }

  lemma SnocDistinct(data: Data, x: Item)
    requires Distinct(data) && forall y | y in data :: y.key != x.key
    ensures Distinct(data + [x])
  {}

  lemma StepKeeps(lim: Limits, data: Data, op: Op)
    requires lim.max >= 1 && Distinct(data) && |data| <= lim.max
    ensures Distinct(Step(lim, data, op)) && |Step(lim, data, op)| <= lim.max
  {
    hide Without, Find, Distinct, Expired;
    WithoutKeeps(data, op.key);
    match op {
      case Bind(k, index, at) =>
        SnocDistinct(Without(data, k), Item(k, index, at));
        TrimDistinct(Without(data, k) + [Item(k, index, at)], lim.max);
      case Lookup(k, at) =>
        if Find(data, k).Some? { SnocDistinct(Without(data, k), Find(data, k).value); }
      case Release(k) =>
    }
  }

  lemma TrimDistinct(data: Data, max: nat)
    requires Distinct(data)
    ensures Distinct(Trim(data, max)) && |Trim(data, max)| <= max
  {}

  /** In every run the store holds no key twice and never more than its maximum. */
  lemma {:induction false} NeverOverfull(lim: Limits, ops: seq<Op>)
    requires lim.max >= 1
    ensures Distinct(After(lim, ops)) && |After(lim, ops)| <= lim.max
    decreases |ops|
  {
    hide Step;
    if ops != [] {
      hide Distinct;
      NeverOverfull(lim, ops[..|ops| - 1]);
      StepKeeps(lim, After(lim, ops[..|ops| - 1]), ops[|ops| - 1]);
    }
  }

  /** The binding the operations leave when nothing is ever evicted: the last bind, unless it
      was released or found expired since. A hit does not renew it. */
  function Bound(lim: Limits, ops: seq<Op>, k: Key): Option<Item> {
    if ops == [] then None
    else
      var before := Bound(lim, ops[..|ops| - 1], k);
      var op := ops[|ops| - 1];
      if op.key != k then before
      else
        match op
        case Bind(_, index, at) => Some(Item(k, index, at))
        case Lookup(_, at) => if before.Some? && Expired(lim, before.value, at) then None else before
        case Release(_) => None
  }

  lemma {:induction false} FindWithout(data: Data, k: Key, other: Key)
    ensures Find(Without(data, k), other) == if other == k then None else Find(data, other)
  {
    if data != [] {
      FindWithout(data[1..], k, other);
      var rest := Without(data[1..], k);
      if data[0].key == k {
        assert [] + rest == rest;
      } else {
        assert ([data[0]] + rest)[1..] == rest;
      }
    }
  }

  lemma {:induction false} FindSnoc(data: Data, x: Item, k: Key)
    ensures Find(data + [x], k) == if Find(data, k).Some? then Find(data, k) else if x.key == k then Some(x) else None
  {
    if data == [] {
      assert data + [x] == [x];
    } else {
      FindSnoc(data[1..], x, k);
      assert (data + [x])[1..] == data[1..] + [x];
    }
  }

  lemma {:induction false} FindTrimmed(data: Data, max: nat, k: Key)
    requires Distinct(data)
    ensures var x := Find(Trim(data, max), k);
            x.Some? ==> x == Find(data, k)
  {
    var x := Find(Trim(data, max), k);
    if x.Some? {
      assert x.value in data;
      FoundOnce(data, x.value);
    }
  }

  lemma {:induction false} FoundOnce(data: Data, x: Item)
    requires Distinct(data) && x in data
    ensures Find(data, x.key) == Some(x)
  {
    if data[0] != x {
      FoundOnce(data[1..], x);
      var j :| 0 <= j < |data| && data[j] == x;
      assert data[0].key != data[j].key;
    }
  }

  /** An entry the store holds is exactly the key's binding. */
  lemma {:induction false} HeldIsBound(lim: Limits, ops: seq<Op>, k: Key)
    requires lim.max >= 1
    ensures var x := Find(After(lim, ops), k);
            x.Some? ==> x == Bound(lim, ops, k)
    decreases |ops|
  {
    hide Find, Without, Trim, Distinct, Expired;
    if ops != [] {
      var n := |ops| - 1;
      var data, op := After(lim, ops[..n]), ops[n];
      HeldIsBound(lim, ops[..n], k);
      NeverOverfull(lim, ops[..n]);
      FindWithout(data, op.key, k);
      match op {
        case Bind(b, index, at) =>
          FindSnoc(Without(data, b), Item(b, index, at), k);
          WithoutKeeps(data, b);
          SnocDistinct(Without(data, b), Item(b, index, at));
          FindTrimmed(Without(data, b) + [Item(b, index, at)], lim.max, k);
        case Lookup(b, at) =>
          if Find(data, b).Some? { FindSnoc(Without(data, b), Find(data, b).value, k); }
        case Release(b) =>
      }
    } else {
      assert Find(After(lim, ops), k).None? by { FindNothing(lim, k); }
    }
  }

  lemma FindNothing(lim: Limits, k: Key)
    ensures Find(After(lim, []), k).None?
  {}

  /** In every run a lookup answers with the last bound index exactly when the key is held
      (unreleased and unevicted) and its bind is no older than the TTL. */
  lemma LookupExactly(lim: Limits, ops: seq<Op>, k: Key, now: Time)
    requires lim.max >= 1
    ensures var b := Bound(lim, ops, k);
            var held := Find(After(lim, ops), k).Some?;
            && (held ==> b.Some?)
            && Answer(lim, After(lim, ops), k, now)
               == if held && now - b.value.ts <= lim.ttl then Some(b.value.index) else None
  {
    hide Bound, After, Find;
    HeldIsBound(lim, ops, k);
  }

  // ---- Recency -------------------------------------------------------------

  /** The operation binds the key or finds it. */
  predicate Touches(lim: Limits, data: Data, op: Op, k: Key) {
    op.key == k && (op.Bind? || (op.Lookup? && Answer(lim, data, k, op.at).Some?))
  }

  /** The position of the last operation that touched the key; -1 if there is none. */
  function LastTouch(lim: Limits, ops: seq<Op>, k: Key): int {
    if ops == [] then -1
    else
      var n := |ops| - 1;
      if Touches(lim, After(lim, ops[..n]), ops[n], k) then n else LastTouch(lim, ops[..n], k)
  }

  ghost predicate ByRecency(lim: Limits, ops: seq<Op>, data: Data) {
    && (forall i, j | 0 <= i < j < |data| :: LastTouch(lim, ops, data[i].key) < LastTouch(lim, ops, data[j].key))
    && (forall i | 0 <= i < |data| :: LastTouch(lim, ops, data[i].key) < |ops|)
  }

  lemma TailByRecency(lim: Limits, ops: seq<Op>, data: Data)
    requires data != [] && ByRecency(lim, ops, data)
    ensures ByRecency(lim, ops, data[1..])
  {
    hide LastTouch;
  }

  lemma ConsByRecency(lim: Limits, ops: seq<Op>, x: Item, rest: Data, all: Data)
    requires ByRecency(lim, ops, [x] + all) && ByRecency(lim, ops, rest) && forall y | y in rest :: y in all
    ensures ByRecency(lim, ops, [x] + rest)
  {
    hide LastTouch;
    assert ([x] + all)[0] == x;
    forall j | 0 <= j < |rest| ensures LastTouch(lim, ops, x.key) < LastTouch(lim, ops, rest[j].key) {
      assert rest[j] in all;
      var i :| 0 <= i < |all| && all[i] == rest[j];
      assert ([x] + all)[i + 1] == all[i];
    }
  }

  lemma {:induction false} WithoutByRecency(lim: Limits, ops: seq<Op>, data: Data, k: Key)
    requires ByRecency(lim, ops, data) && Distinct(data)
    ensures ByRecency(lim, ops, Without(data, k))
    decreases |data|
  {
    hide LastTouch;
    if data != [] {
      var rest := Without(data[1..], k);
      TailByRecency(lim, ops, data);
      hide ByRecency;
      WithoutByRecency(lim, ops, data[1..], k);
      WithoutKeeps(data[1..], k);
      hide Distinct;
      assert data == [data[0]] + data[1..];
      if data[0].key != k {
        ConsByRecency(lim, ops, data[0], rest, data[1..]);
      } else {
        assert [] + rest == rest;
      }
    }
  }

  /** Operations on other keys change no key's last touch. */
  lemma OtherByRecency(lim: Limits, ops: seq<Op>, data: Data, op: Op)
    requires ByRecency(lim, ops, data) && forall x | x in data :: !Touches(lim, After(lim, ops), op, x.key)
    ensures ByRecency(lim, ops + [op], data)
  {
    assert (ops + [op])[..|ops|] == ops;
    forall i | 0 <= i < |data|
      ensures LastTouch(lim, ops + [op], data[i].key) == LastTouch(lim, ops, data[i].key)
    {
      assert data[i] in data;
    }
  }

  lemma TouchedByRecency(lim: Limits, ops: seq<Op>, data: Data, op: Op, x: Item)
    requires ByRecency(lim, ops, data) && (forall y | y in data :: y.key != x.key)
    requires Touches(lim, After(lim, ops), op, x.key)
    ensures ByRecency(lim, ops + [op], data + [x])
  {
    OtherByRecency(lim, ops, data, op);
    assert (ops + [op])[..|ops|] == ops;
    assert LastTouch(lim, ops + [op], x.key) == |ops|;
    hide Touches, LastTouch;
    forall i | 0 <= i < |data| ensures LastTouch(lim, ops + [op], data[i].key) < |ops| {
      OtherTouch(lim, ops, op, data, i);
    }
  }

  lemma OtherTouch(lim: Limits, ops: seq<Op>, op: Op, data: Data, i: nat)
    requires i < |data| && ByRecency(lim, ops, data) && !Touches(lim, After(lim, ops), op, data[i].key)
    ensures LastTouch(lim, ops + [op], data[i].key) < |ops|
  {
    assert (ops + [op])[..|ops|] == ops;
  }

  lemma TrimByRecency(lim: Limits, ops: seq<Op>, data: Data, max: nat)
    requires ByRecency(lim, ops, data)
    ensures ByRecency(lim, ops, Trim(data, max))
  {
    hide LastTouch;
  }

  lemma StepByRecency(lim: Limits, ops: seq<Op>, op: Op)
    requires lim.max >= 1 && ByRecency(lim, ops, After(lim, ops))
    ensures ByRecency(lim, ops + [op], Step(lim, After(lim, ops), op))
  {
    hide ByRecency, Distinct, Without, Find, Expired, After, LastTouch;
    var data := After(lim, ops);
    NeverOverfull(lim, ops);
    WithoutByRecency(lim, ops, data, op.key);
    WithoutKeeps(data, op.key);
    match op {
      case Bind(k, index, at) =>
        TouchedByRecency(lim, ops, Without(data, k), op, Item(k, index, at));
        TrimByRecency(lim, ops + [op], Without(data, k) + [Item(k, index, at)], lim.max);
      case Lookup(k, at) =>
        var x := Find(data, k);
        if x.None? {
          OtherByRecency(lim, ops, data, op);
        } else if Expired(lim, x.value, at) {
          OtherByRecency(lim, ops, Without(data, k), op);
        } else {
          TouchedByRecency(lim, ops, Without(data, k), op, x.value);
        }
      case Release(k) => OtherByRecency(lim, ops, Without(data, k), op);
    }
  }

  /** In every run the store's order is the recency of the last bind or hit. */
  lemma {:induction false} OrderIsRecency(lim: Limits, ops: seq<Op>)
    requires lim.max >= 1
    ensures ByRecency(lim, ops, After(lim, ops))
    decreases |ops|
  {
    hide Step, LastTouch;
    if ops != [] {
      var n := |ops| - 1;
      hide ByRecency;
      OrderIsRecency(lim, ops[..n]);
      StepByRecency(lim, ops[..n], ops[n]);
      assert ops[..n] + [ops[n]] == ops;
    }
  }

  // ---- Eviction ------------------------------------------------------------

  function Keys(data: Data): set<Key> {
    set x | x in data :: x.key
  }

  /** The keys bound or found by `later`, which runs after `ops`. */
  function TouchedBy(lim: Limits, ops: seq<Op>, later: seq<Op>): set<Key> {
    if later == [] then {}
    else
      var n := |later| - 1;
      TouchedBy(lim, ops, later[..n])
      + if Touches(lim, After(lim, ops + later[..n]), later[n], later[n].key) then {later[n].key} else {}
  }

  /** `later` releases nothing and looks nothing up that has expired. */
  predicate OnlyTouches(lim: Limits, ops: seq<Op>, later: seq<Op>) {
    forall n | 0 <= n < |later| ::
      !later[n].Release?
      && (later[n].Lookup? ==>
            var x := Find(After(lim, ops + later[..n]), later[n].key);
            x.Some? ==> !Expired(lim, x.value, later[n].at))
  }

  lemma {:induction false} KeysCount(data: Data)
    requires Distinct(data)
    ensures |Keys(data)| == |data|
    decreases |data|
  {
    if data != [] {
      var n := |data| - 1;
      KeysCount(data[..n]);
      assert Keys(data) == Keys(data[..n]) + {data[n].key};
      assert data[n].key !in Keys(data[..n]);
    }
  }

  lemma {:induction false} WithoutAppend(a: Data, b: Data, k: Key)
    ensures Without(a + b, k) == Without(a, k) + Without(b, k)
  {
    if a == [] {
      assert a + b == b;
    } else {
      assert (a + b)[1..] == a[1..] + b;
      WithoutAppend(a[1..], b, k);
    }
  }

  /** Where a key stands that nothing has touched: `tail` is what was touched after it. */
  predicate Stands(data: Data, front: Data, x: Item, tail: Data, touched: set<Key>, exact: bool) {
    && data == front + [x] + tail
    && Keys(tail) <= touched
    && (exact ==> Keys(tail) == touched)
  }

  lemma KeysWithout(data: Data, k: Key)
    requires Distinct(data)
    ensures Keys(Without(data, k)) == Keys(data) - {k}
  {
    hide Distinct;
    WithoutKeeps(data, k);
    forall q | q in Keys(data) && q != k ensures q in Keys(Without(data, k)) {
      var x :| x in data && x.key == q;
      assert x in Without(data, k);
    }
  }

  lemma WithoutOthers(x: Item, k: Key)
    requires x.key != k
    ensures Without([x], k) == [x]
  {}

  lemma PartsDistinct(front: Data, x: Item, tail: Data)
    requires Distinct(front + [x] + tail)
    ensures Distinct(front) && Distinct(tail) && Distinct([x] + tail) && x.key !in Keys(tail)
  {
    DistinctParts(front + [x], tail);
    assert front + [x] + tail == front + ([x] + tail);
    DistinctParts(front, [x] + tail);
    assert forall i | 0 <= i < |tail| :: ([x] + tail)[i + 1] == tail[i];
    assert ([x] + tail)[0] == x;
  }

  lemma DistinctParts(a: Data, b: Data)
    requires Distinct(a + b)
    ensures Distinct(a) && Distinct(b)
  {
    assert forall i | 0 <= i < |a| :: (a + b)[i] == a[i];
    assert forall i | 0 <= i < |b| :: (a + b)[|a| + i] == b[i];
  }

  /** Removing another key takes it from the front or from the tail. */
  lemma StandsWithout(data: Data, front: Data, x: Item, tail: Data, touched: set<Key>, exact: bool, k: Key)
    requires Stands(data, front, x, tail, touched, exact) && Distinct(data) && k != x.key
    ensures Without(data, k) == Without(front, k) + [x] + Without(tail, k)
    ensures Keys(Without(tail, k)) == Keys(tail) - {k}
  {
    hide Without, Distinct, Keys;
    PartsDistinct(front, x, tail);
    WithoutAppend(front + [x], tail, k);
    WithoutAppend(front, [x], k);
    WithoutOthers(x, k);
    KeysWithout(tail, k);
  }

  lemma KeysSnoc(data: Data, x: Item)
    ensures Keys(data + [x]) == Keys(data) + {x.key}
  {
    assert forall y :: y in data + [x] <==> y in data || y == x;
  }

  /** A touched key moves to the end; the key that stands keeps its place. */
  lemma StandsTouched(data: Data, front: Data, x: Item, tail: Data, touched: set<Key>, exact: bool, y: Item)
    requires Stands(data, front, x, tail, touched, exact) && Distinct(data) && y.key != x.key
    ensures Stands(Without(data, y.key) + [y], Without(front, y.key), x, Without(tail, y.key) + [y],
                   touched + {y.key}, exact)
  {
    hide Without, Distinct, Keys;
    StandsWithout(data, front, x, tail, touched, exact, y.key);
    KeysSnoc(Without(tail, y.key), y);
    Assoc(Without(front, y.key) + [x], Without(tail, y.key), [y]);
  }

  /** Trimming to `max` drops the key exactly when `max` others stand after it. */
  lemma StandsTrimmed(data: Data, front: Data, x: Item, tail: Data, touched: set<Key>, exact: bool, max: nat)
    returns (front': Data)
    requires Stands(data, front, x, tail, touched, exact) && Distinct(data) && |data| <= max + 1
    ensures |touched| < max ==> Stands(Trim(data, max), front', x, tail, touched, exact)
    ensures exact && |touched| >= max ==> Find(Trim(data, max), x.key).None?
  {
    hide Find, Keys, Distinct;
    PartsDistinct(front, x, tail);
    KeysCount(tail);
    front' := front;
    if |touched| < max {
      SubsetCount(Keys(tail), touched);
      if |data| > max {
        assert front != [];
        front' := front[1..];
        assert front == [front[0]] + front';
        assert Trim(data, max) == front' + [x] + tail;
      }
    } else if exact {
      TailOnly(data, front, x, tail, max);
    }
  }

  lemma SubsetCount(a: set<Key>, b: set<Key>)
    requires a <= b
    ensures |a| <= |b|
  {
    assert b == a + (b - a);
  }

  lemma TailOnly(data: Data, front: Data, x: Item, tail: Data, max: nat)
    requires data == front + [x] + tail && |data| <= max + 1 && |tail| >= max && x.key !in Keys(tail)
    ensures Find(Trim(data, max), x.key).None?
  {
    assert |front| == 0 && |tail| == max;
    assert Trim(data, max) == tail;
  }

  lemma {:induction false} NoneStays(lim: Limits, data: Data, op: Op, k: Key)
    requires lim.max >= 1 && Distinct(data) && Find(data, k).None? && op.key != k
    ensures Find(Step(lim, data, op), k).None?
  {
    hide Find, Without, Distinct, Trim, Expired;
    FindWithout(data, op.key, k);
    match op {
      case Bind(b, index, at) =>
        FindSnoc(Without(data, b), Item(b, index, at), k);
        WithoutKeeps(data, b);
        SnocDistinct(Without(data, b), Item(b, index, at));
        FindTrimmed(Without(data, b) + [Item(b, index, at)], lim.max, k);
      case Lookup(b, at) =>
        if Find(data, b).Some? { FindSnoc(Without(data, b), Find(data, b).value, k); }
      case Release(b) =>
    }
  }

  predicate LeavesAlone(later: seq<Op>, k: Key) {
    forall n | 0 <= n < |later| :: later[n].key != k
  }

  /** One operation on another key. */
  lemma StandsStep(lim: Limits, data: Data, op: Op, front: Data, x: Item, tail: Data, touched: set<Key>, exact: bool)
    returns (front': Data, tail': Data)
    requires Distinct(data) && |data| <= lim.max && op.key != x.key
    requires Stands(data, front, x, tail, touched, exact)
    requires exact ==> !op.Release? && (op.Lookup? && Find(data, op.key).Some? ==>
                                          !Expired(lim, Find(data, op.key).value, op.at))
    ensures var more := touched + if Touches(lim, data, op, op.key) then {op.key} else {};
            && (|more| < lim.max ==> Stands(Step(lim, data, op), front', x, tail', more, exact))
            && (exact && |more| >= lim.max ==> Find(Step(lim, data, op), x.key).None?)
  {
    hide Without, Distinct, Find, Stands, Trim, Keys, Expired;
    front', tail' := front, tail;
    match op {
      case Bind(k, index, at) =>
        var y := Item(k, index, at);
        StandsTouched(data, front, x, tail, touched, exact, y);
        WithoutKeeps(data, k);
        SnocDistinct(Without(data, k), y);
        tail' := Without(tail, k) + [y];
        front' := StandsTrimmed(Without(data, k) + [y], Without(front, k), x, tail', touched + {k}, exact, lim.max);
      case Lookup(k, at) =>
        var found := Find(data, k);
        if found.None? {
          assert touched + {} == touched;
          StandsCount(data, front, x, tail, touched, exact, lim.max);
        } else if Expired(lim, found.value, at) {
          assert touched + {} == touched;
          StandsGone(data, front, x, tail, touched, exact, k);
          front', tail' := Without(front, k), Without(tail, k);
        } else {
          StandsTouched(data, front, x, tail, touched, exact, found.value);
          front', tail' := Without(front, k), Without(tail, k) + [found.value];
          WithoutKeeps(data, k);
          SnocDistinct(Without(data, k), found.value);
          StandsCount(Without(data, k) + [found.value], front', x, tail', touched + {k}, exact, lim.max);
        }
      case Release(k) =>
        assert touched + {} == touched;
        StandsGone(data, front, x, tail, touched, exact, k);
        front', tail' := Without(front, k), Without(tail, k);
    }
  }

  lemma StandsGone(data: Data, front: Data, x: Item, tail: Data, touched: set<Key>, exact: bool, k: Key)
    requires Stands(data, front, x, tail, touched, exact) && Distinct(data) && k != x.key && !exact
    ensures Stands(Without(data, k), Without(front, k), x, Without(tail, k), touched, exact)
  {
    hide Without, Distinct, Keys;
    StandsWithout(data, front, x, tail, touched, exact, k);
  }

  /** A store within its maximum holds fewer than `max` keys after any key. */
  lemma StandsCount(data: Data, front: Data, x: Item, tail: Data, touched: set<Key>, exact: bool, max: nat)
    requires Stands(data, front, x, tail, touched, exact) && Distinct(data) && |data| <= max
    ensures exact ==> |touched| < max
  {
    hide Distinct, Keys;
    PartsDistinct(front, x, tail);
    KeysCount(tail);
  }

  lemma OnlyTouchesPrefix(lim: Limits, ops: seq<Op>, later: seq<Op>)
    requires later != [] && OnlyTouches(lim, ops, later)
    ensures var n := |later| - 1;
            && OnlyTouches(lim, ops, later[..n])
            && !later[n].Release?
            && (later[n].Lookup? && Find(After(lim, ops + later[..n]), later[n].key).Some? ==>
                  !Expired(lim, Find(After(lim, ops + later[..n]), later[n].key).value, later[n].at))
  {
    hide Find, Expired, After;
    var n := |later| - 1;
    forall i | 0 <= i < n ensures later[..n][..i] == later[..i] && later[..n][i] == later[i] {}
  }

  lemma EvictedStep(lim: Limits, data: Data, op: Op, front: Data, x: Item, tail: Data, touched: set<Key>, exact: bool)
    returns (front': Data, tail': Data)
    requires lim.max >= 1 && Distinct(data) && |data| <= lim.max && op.key != x.key
    requires |touched| < lim.max ==> Stands(data, front, x, tail, touched, exact)
    requires exact && |touched| >= lim.max ==> Find(data, x.key).None?
    requires exact ==> !op.Release? && (op.Lookup? && Find(data, op.key).Some? ==>
                                          !Expired(lim, Find(data, op.key).value, op.at))
    ensures var more := touched + if Touches(lim, data, op, op.key) then {op.key} else {};
            && (|more| < lim.max ==> Stands(Step(lim, data, op), front', x, tail', more, exact))
            && (exact && |more| >= lim.max ==> Find(Step(lim, data, op), x.key).None?)
  {
    hide Stands, Step, Find, Touches, Distinct, Expired;
    front', tail' := front, tail;
    if |touched| < lim.max {
      front', tail' := StandsStep(lim, data, op, front, x, tail, touched, exact);
    } else {
      SubsetCount(touched, touched + if Touches(lim, data, op, op.key) then {op.key} else {});
      if exact { NoneStays(lim, data, op, x.key); }
    }
  }

  lemma {:induction false} Standing(lim: Limits, ops: seq<Op>, x: Item, later: seq<Op>, exact: bool)
    returns (front: Data, tail: Data)
    requires lim.max >= 1 && After(lim, ops) != [] && After(lim, ops)[|After(lim, ops)| - 1] == x
    requires LeavesAlone(later, x.key) && (exact ==> OnlyTouches(lim, ops, later))
    ensures var touched := TouchedBy(lim, ops, later);
            var data := After(lim, ops + later);
            && (|touched| < lim.max ==> Stands(data, front, x, tail, touched, exact))
            && (exact && |touched| >= lim.max ==> Find(data, x.key).None?)
    decreases |later|
  {
    hide After, Step, Stands, Find, Touches, Distinct, Keys, Expired, OnlyTouches;
    if later == [] {
      assert ops + later == ops;
      var data := After(lim, ops);
      front, tail := data[..|data| - 1], [];
      StandsLast(data, x, exact);
    } else {
      var n := |later| - 1;
      if exact { OnlyTouchesPrefix(lim, ops, later); }
      front, tail := Standing(lim, ops, x, later[..n], exact);
      assert ops + later == ops + later[..n] + [later[n]];
      AfterSnoc(lim, ops + later[..n], later[n]);
      NeverOverfull(lim, ops + later[..n]);
      front, tail := EvictedStep(lim, After(lim, ops + later[..n]), later[n], front, x, tail,
                                 TouchedBy(lim, ops, later[..n]), exact);
    }
  }

  /** A key just touched stays bound while fewer than `max` distinct other keys are bound or
      found, whatever else happens to them. */
  lemma NotEvicted(lim: Limits, ops: seq<Op>, x: Item, later: seq<Op>)
    requires lim.max >= 1 && After(lim, ops) != [] && After(lim, ops)[|After(lim, ops)| - 1] == x
    requires LeavesAlone(later, x.key) && |TouchedBy(lim, ops, later)| < lim.max
    ensures Find(After(lim, ops + later), x.key) == Some(x)
  {
    hide After, Stands, Find, TouchedBy, Distinct, OnlyTouches;
    var front, tail := Standing(lim, ops, x, later, false);
    NeverOverfull(lim, ops + later);
    StandsFound(After(lim, ops + later), front, x, tail, TouchedBy(lim, ops, later), false);
  }

  /** Where nothing is released and nothing expires, it stays bound exactly that long. */
  lemma EvictedExactly(lim: Limits, ops: seq<Op>, x: Item, later: seq<Op>)
    requires lim.max >= 1 && After(lim, ops) != [] && After(lim, ops)[|After(lim, ops)| - 1] == x
    requires LeavesAlone(later, x.key) && OnlyTouches(lim, ops, later)
    ensures Find(After(lim, ops + later), x.key).Some? <==> |TouchedBy(lim, ops, later)| < lim.max
  {
    hide After, Stands, Find, TouchedBy, OnlyTouches;
    if |TouchedBy(lim, ops, later)| < lim.max {
      NotEvicted(lim, ops, x, later);
    } else {
      var _, _ := Standing(lim, ops, x, later, true);
    }
  }

  lemma AfterSnoc(lim: Limits, ops: seq<Op>, op: Op)
    ensures After(lim, ops + [op]) == Step(lim, After(lim, ops), op)
  {
    hide Step;
    assert (ops + [op])[..|ops|] == ops;
  }

  lemma StandsLast(data: Data, x: Item, exact: bool)
    requires data != [] && data[|data| - 1] == x
    ensures Stands(data, data[..|data| - 1], x, [], {}, exact)
  {}

  lemma StandsFound(data: Data, front: Data, x: Item, tail: Data, touched: set<Key>, exact: bool)
    requires Stands(data, front, x, tail, touched, exact) && Distinct(data)
    ensures Find(data, x.key) == Some(x)
  {
    assert data[|front|] == x;
    FoundOnce(data, x);
  }
}
