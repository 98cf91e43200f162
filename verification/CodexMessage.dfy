/**
 What the buffering consumer's message says, told from the events of the stream, and
 exactly when it says the same as the streaming consumer's chunks.
 */
module CodexMessage {
  import opened Prelude
  import opened Json
  import opened CodexStream
  import opened CodexBuffered
  import L = SseLines

  // ---- What is accumulated -------------------------------------------------

  function NonEmpty(j: Json): seq<string> {
    if j.Str? && j.s != "" then [j.s] else []
  }

  /** The texts of a list's objects, in order. */
  function TextsIn(items: seq<Json>): seq<string> {
    if items == [] then []
    else (if items[0].Obj? then NonEmpty(Get(items[0].fields, TextKey)) else []) + TextsIn(items[1..])
  }

  function DeltaTexts(name: string, data: Json): seq<string> {
    if name == "response.output_text.delta" && data.Obj? then NonEmpty(Get(data.fields, DeltaKey)) else []
  }

  /** The texts an event reports as done. */
  function DoneTexts(name: string, data: Json): seq<string> {
    if !data.Obj? then []
    else if name == "response.output_text.done" then NonEmpty(Get(data.fields, TextKey))
    else if name == "response.content_part.done" then
      var part := Get(data.fields, PartKey);
      if part.Obj? then NonEmpty(Get(part.fields, TextKey)) else []
    else if name == "response.output_item.done" then
      var item := Get(data.fields, ItemKey);
      if item.Obj? && Get(item.fields, TypeKey) == Str("message") && Get(item.fields, ContentKey).Arr? then
        TextsIn(item.fields[ContentKey].items)
      else []
    else []
  }

  function DoneCalls(name: string, data: Json): seq<Fields> {
    if name == "response.output_item.done" && data.Obj? && Calls(Get(data.fields, ItemKey)) then
      [data.fields[ItemKey].fields]
    else []
  }

  /** The reasoning text gathered after one more event: deltas and summaries are appended, a text
      reported as done counts only if there is none yet. */
  function Reasoned(before: seq<string>, name: string, data: Json): seq<string> {
    var f := if data.Obj? then data.fields else map[];
    if name == "response.reasoning_summary_text.delta" || name == "response.reasoning_text.delta" then
      before + NonEmpty(Get(f, DeltaKey))
    else if name == "response.reasoning_summary_text.done" || name == "response.reasoning_text.done" then
      if before == [] then NonEmpty(Get(f, TextKey)) else before
    else if name == "response.output_item.done" then
      var item := Get(f, ItemKey);
      if item.Obj? && Get(item.fields, TypeKey) == Str("reasoning") && Get(item.fields, SummaryKey).Arr? then
        before + TextsIn(item.fields[SummaryKey].items)
      else before
    else before
  }

  function AllReasoned(evs: seq<(string, Json)>): seq<string> {
    if evs == [] then []
    else Reasoned(AllReasoned(evs[..|evs| - 1]), evs[|evs| - 1].0, evs[|evs| - 1].1)
  }

  /** The response an event reports as final; a failed one is given its status. */
  function Finals(name: string, data: Json): seq<Json> {
    var f := if data.Obj? then data.fields else map[];
    var r := if Get(f, RespKey).Truthy() then f[RespKey] else Obj(f);
    if name == "response.completed" || name == "response.done" then [r]
    else if (name == "response.failed" || name == "response.incomplete") && r.Obj? then
      if Get(r.fields, StatusKey).Truthy() then [r]
      else [Obj(r.fields[StatusKey := Str(if name == "response.failed" then "failed" else "incomplete")])]
    else []
  }

  /** The response object any event carries. */
  function Responses(name: string, data: Json): seq<Json> {
    if data.Obj? && Get(data.fields, RespKey).Obj? then [data.fields[RespKey]] else []
  }

  function Errors(name: string, data: Json): seq<Json> {
    if name != "error" then []
    else if data.Obj? && Get(data.fields, ErrorKey).Truthy() then [data.fields[ErrorKey]]
    else [data]
  }

  function Gathered<T>(evs: seq<(string, Json)>, pick: (string, Json) -> seq<T>): seq<T> {
    if evs == [] then [] else Gathered(evs[..|evs| - 1], pick) + pick(evs[|evs| - 1].0, evs[|evs| - 1].1)
  }

  function Last(js: seq<Json>): Option<Json> {
    if js == [] then None else Some(js[|js| - 1])
  }

  predicate NotIterable(j: Json) {
    (j.Bool? || j.Num?) && j.Truthy()
  }

  /** An item whose parts cannot be looked through. */
  predicate Unreadable(name: string, data: Json) {
    var f := if data.Obj? then data.fields else map[];
    var item := Get(f, ItemKey);
    name == "response.output_item.done" && item.Obj?
    && ((Get(item.fields, TypeKey) == Str("message") && NotIterable(Get(item.fields, ContentKey)))
        || (Get(item.fields, TypeKey) == Str("reasoning") && NotIterable(Get(item.fields, SummaryKey))))
  }

  /** The accumulators hold what these events gave, in order. */
  ghost predicate Holds(a: Acc, evs: seq<(string, Json)>) {
    && a.deltas == Gathered(evs, DeltaTexts)
    && a.done == Gathered(evs, DoneTexts)
    && a.calls == Gathered(evs, DoneCalls)
    && a.reasoning == AllReasoned(evs)
    && a.completed == Last(Gathered(evs, Finals))
    && a.last == Last(Gathered(evs, Responses))
    && a.error == (if Gathered(evs, Errors) == [] then Null else Last(Gathered(evs, Errors)).value)
  }

  /** Every event was read, or all up to one that raises. */
  ghost predicate Gathers(env: Env, ds: seq<L.Dispatch>, evs: seq<(string, Json)>, acc: Option<Acc>) {
    && |evs| <= |ds|
    && (forall i | 0 <= i < |evs| :: Reads(env, ds[i], evs[i].0, evs[i].1) && !Unreadable(evs[i].0, evs[i].1))
    && (acc.Some? <==> |evs| == |ds|)
    && (acc.Some? ==> Holds(acc.value, evs))
    && (acc.None? ==> forall name, data | Reads(env, ds[|evs|], name, data) :: Unreadable(name, data))
  }

  lemma GatheredSnoc<T>(evs: seq<(string, Json)>, e: (string, Json), pick: (string, Json) -> seq<T>)
    ensures Gathered(evs + [e], pick) == Gathered(evs, pick) + pick(e.0, e.1)
  {
    assert (evs + [e])[..|evs|] == evs;
  }

  lemma {:induction false} TextsAgree(items: seq<Json>)
    ensures TextsOf(items) == TextsIn(items)
    decreases |items|
  {
    if items != [] {
      var n := |items| - 1;
      TextsAgree(items[..n]);
      TextsInSnoc(items[..n], items[n]);
      assert items == items[..n] + [items[n]];
    }
  }

  lemma {:induction false} TextsInSnoc(items: seq<Json>, last: Json)
    ensures TextsIn(items + [last])
         == TextsIn(items) + if last.Obj? then NonEmpty(Get(last.fields, TextKey)) else []
    decreases |items|
  {
    hide NonEmpty;
    if items == [] {
      assert [] + [last] == [last] && [last][1..] == [];
      assert forall t: seq<string> :: t + [] == t == [] + t;
    } else {
      assert (items + [last])[1..] == items[1..] + [last];
      TextsInSnoc(items[1..], last);
      var head := if items[0].Obj? then NonEmpty(Get(items[0].fields, TextKey)) else [];
      Assoc(head, TextsIn(items[1..]), if last.Obj? then NonEmpty(Get(last.fields, TextKey)) else []);
    }
  }

  /** The texts and calls one event adds to the accumulators, unless it cannot be read. */
  ghost predicate AddsText(acc: Acc, e: Event) {
    var r := Consume(acc, e);
    && (r.None? <==> Unreadable(e.name, e.data))
    && (r.Some? ==>
          && r.value.deltas == acc.deltas + DeltaTexts(e.name, e.data)
          && r.value.done == acc.done + DoneTexts(e.name, e.data)
          && r.value.calls == acc.calls + DoneCalls(e.name, e.data))
  }

  /** What it does to the reasoning text, the responses and the error. */
  ghost predicate AddsRest(acc: Acc, e: Event) {
    var r := Consume(acc, e);
    r.Some? ==>
      && r.value.reasoning == Reasoned(acc.reasoning, e.name, e.data)
      && r.value.completed == (if Finals(e.name, e.data) == [] then acc.completed else Last(Finals(e.name, e.data)))
      && r.value.last == (if Responses(e.name, e.data) == [] then acc.last else Last(Responses(e.name, e.data)))
      && r.value.error == (if Errors(e.name, e.data) == [] then acc.error else Last(Errors(e.name, e.data)).value)
  }

  ghost predicate Adds(acc: Acc, e: Event) {
    AddsText(acc, e) && AddsRest(acc, e)
  }

  lemma ItemAddsText(acc: Acc, e: Event)
    requires e.name == "response.output_item.done" && e.kind == ItemDone
    ensures AddsText(acc, e)
  {
    hide TextsOf, TextsIn, KindOf, ResponseOf, WithStatus;
    var item := if e.data.Obj? then Get(e.data.fields, ItemKey) else Null;
    if item.Obj? && Get(item.fields, ContentKey).Arr? { TextsAgree(item.fields[ContentKey].items); }
    assert TextsOf([]) == [] by { NoTexts(); }
  }

  lemma ItemAddsRest(acc: Acc, e: Event)
    requires e.name == "response.output_item.done" && e.kind == ItemDone
    ensures AddsRest(acc, e)
  {
    hide TextsOf, TextsIn, KindOf, ResponseOf, WithStatus;
    var item := if e.data.Obj? then Get(e.data.fields, ItemKey) else Null;
    if item.Obj? && Get(item.fields, SummaryKey).Arr? { TextsAgree(item.fields[SummaryKey].items); }
    assert TextsOf([]) == [] by { NoTexts(); }
  }

  lemma NoTexts()
    ensures TextsOf([]) == []
  {}

  lemma FinalAdds(acc: Acc, e: Event)
    requires (e.name == "response.completed" && e.kind == Completed) || (e.name == "response.done" && e.kind == Done)
    ensures Adds(acc, e)
  {
    hide TextsOf, TextsIn;
    assert e.data.Obj? ==> Obj(e.data.fields) == e.data;
  }

  lemma FailureAddsText(acc: Acc, e: Event)
    requires (e.name == "response.failed" && e.kind == Failed)
          || (e.name == "response.incomplete" && e.kind == Incomplete)
    ensures AddsText(acc, e)
  {
    hide TextsOf, TextsIn, KindOf, ConsumeItem, TextIn, NonEmpty, ResponseOf, WithStatus;
  }

  lemma FailureAddsRest(acc: Acc, e: Event)
    requires (e.name == "response.failed" && e.kind == Failed)
          || (e.name == "response.incomplete" && e.kind == Incomplete)
    ensures AddsRest(acc, e)
  {
    hide TextsOf, TextsIn, KindOf, ConsumeItem, TextIn, NonEmpty;
    assert e.data.Obj? ==> Obj(e.data.fields) == e.data;
  }

  lemma TextAddsText(acc: Acc, e: Event)
    requires (e.name == "response.output_text.delta" && e.kind == TextDelta)
          || (e.name == "response.output_text.done" && e.kind == TextDone)
          || (e.name == "response.content_part.done" && e.kind == PartDone)
    ensures AddsText(acc, e)
  {
    hide TextsOf, TextsIn, KindOf, ConsumeItem, WithStatus, ResponseOf;
  }

  lemma TextAddsRest(acc: Acc, e: Event)
    requires (e.name == "response.output_text.delta" && e.kind == TextDelta)
          || (e.name == "response.output_text.done" && e.kind == TextDone)
          || (e.name == "response.content_part.done" && e.kind == PartDone)
    ensures AddsRest(acc, e)
  {
    hide TextsOf, TextsIn, KindOf, ConsumeItem, WithStatus, TextIn, NonEmpty;
  }

  lemma ErrorAdds(acc: Acc, e: Event)
    requires e.name == "error" && e.kind == ErrorEvent
    ensures Adds(acc, e)
  {
    hide TextsOf, TextsIn;
  }

  /** The names whose events give text, calls, a response or an error. */
  const ADDING: set<string> :=
    {"response.output_text.delta", "response.output_text.done", "response.content_part.done",
     "response.output_item.done", "response.completed", "response.done", "response.failed", "response.incomplete",
     "error"}

  lemma RestKinds(name: string)
    requires name !in ADDING
    ensures KindOf(name) in {ReasoningDelta, ReasoningDone, Ignored}
    ensures KindOf(name) == ReasoningDelta
       <==> name == "response.reasoning_summary_text.delta" || name == "response.reasoning_text.delta"
    ensures KindOf(name) == ReasoningDone
       <==> name == "response.reasoning_summary_text.done" || name == "response.reasoning_text.done"
  {}

  lemma RestAdds(acc: Acc, e: Event)
    requires e.kind in {ReasoningDelta, ReasoningDone, Ignored} && e.name !in ADDING
    requires e.kind == ReasoningDelta
        <==> e.name == "response.reasoning_summary_text.delta" || e.name == "response.reasoning_text.delta"
    requires e.kind == ReasoningDone
        <==> e.name == "response.reasoning_summary_text.done" || e.name == "response.reasoning_text.done"
    ensures Adds(acc, e)
  {
    hide KindOf, TextsOf, TextsIn, ResponseOf, WithStatus, ConsumeItem;
  }

  lemma AddingKinds()
    ensures KindOf("response.output_text.delta") == TextDelta && KindOf("response.output_text.done") == TextDone
    ensures KindOf("response.content_part.done") == PartDone && KindOf("response.output_item.done") == ItemDone
    ensures KindOf("response.completed") == Completed && KindOf("response.done") == Done
    ensures KindOf("response.failed") == Failed && KindOf("response.incomplete") == Incomplete
    ensures KindOf("error") == ErrorEvent
  {}

  lemma EventAdds(acc: Acc, e: Event)
    requires e.kind == KindOf(e.name)
    ensures Adds(acc, e)
  {
    AddingKinds();
    hide AddsText, AddsRest, KindOf;
    if e.name !in ADDING {
      RestKinds(e.name);
      RestAdds(acc, e);
    } else if e.name == "response.output_item.done" {
      ItemAddsText(acc, e);
      ItemAddsRest(acc, e);
    } else if e.name == "response.completed" || e.name == "response.done" {
      FinalAdds(acc, e);
    } else if e.name == "response.failed" || e.name == "response.incomplete" {
      FailureAddsText(acc, e);
      FailureAddsRest(acc, e);
    } else if e.name == "error" {
      ErrorAdds(acc, e);
    } else {
      TextAddsText(acc, e);
      TextAddsRest(acc, e);
    }
  }

  lemma HoldsSnoc(acc: Acc, evs: seq<(string, Json)>, e: Event)
    requires Holds(acc, evs) && Adds(acc, e) && Consume(acc, e).Some?
    ensures Holds(Consume(acc, e).value, evs + [(e.name, e.data)])
  {
    hide Consume, DeltaTexts, DoneTexts, DoneCalls, Finals, Responses, Errors, Gathered, Reasoned;
    var x := (e.name, e.data);
    assert (evs + [x])[..|evs|] == evs;
    GatheredSnoc(evs, x, DeltaTexts);
    GatheredSnoc(evs, x, DoneTexts);
    GatheredSnoc(evs, x, DoneCalls);
    GatheredSnoc(evs, x, Finals);
    GatheredSnoc(evs, x, Responses);
    GatheredSnoc(evs, x, Errors);
    LastOf(Gathered(evs, Finals), Finals(e.name, e.data));
    LastOf(Gathered(evs, Responses), Responses(e.name, e.data));
    LastOf(Gathered(evs, Errors), Errors(e.name, e.data));
  }

  lemma LastOf(a: seq<Json>, b: seq<Json>)
    ensures Last(a + b) == if b == [] then Last(a) else Last(b)
    ensures a + b == [] <==> a == [] && b == []
  {
    if b == [] { assert a + b == a; }
  }

  lemma NothingHeld()
    ensures Holds(EMPTY, [])
  {}

  lemma AddsReads(acc: Acc, e: Event)
    requires Adds(acc, e)
    ensures Consume(acc, e).None? <==> Unreadable(e.name, e.data)
  {}

  lemma GathersSnoc(env: Env, ds: seq<L.Dispatch>, d: L.Dispatch, evs: seq<(string, Json)>, acc: Acc, e: Event)
    requires Gathers(env, ds, evs, Some(acc)) && Reads(env, d, e.name, e.data)
    requires Adds(acc, e) && Consume(acc, e).Some?
    ensures Gathers(env, ds + [d], evs + [(e.name, e.data)], Consume(acc, e))
  {
    hide Consume, Holds, Reads, Unreadable, AddsText, AddsRest;
    HoldsSnoc(acc, evs, e);
    AddsReads(acc, e);
  }

  lemma GathersEnds(env: Env, ds: seq<L.Dispatch>, d: L.Dispatch, evs: seq<(string, Json)>, acc: Option<Acc>)
    requires Gathers(env, ds, evs, acc)
    requires acc.Some? ==> forall name, data | Reads(env, d, name, data) :: Unreadable(name, data)
    ensures Gathers(env, ds + [d], evs, None)
  {
    hide Holds, Reads, Unreadable;
  }

  /** For every list of events: the accumulators hold exactly what each gave under its literal
      name, in order, and an exception comes from the first that cannot be read. */
  lemma {:induction false} GatherOf(env: Env, ds: seq<L.Dispatch>) returns (evs: seq<(string, Json)>)
    ensures Gathers(env, ds, evs, ConsumeAll(env, ds))
    decreases |ds|
  {
    evs := [];
    if ds == [] {
      NothingHeld();
    } else {
      hide Consume, Resolve, Gathers, Reads, Unreadable, AddsText, AddsRest;
      var front, d := ds[..|ds| - 1], ds[|ds| - 1];
      assert ds == front + [d];
      evs := GatherOf(env, front);
      var acc, r := ConsumeAll(env, front), Resolve(env, d);
      ResolveReads(env, d);
      if acc.None? || r.None? {
        GathersEnds(env, front, d, evs, acc);
      } else {
        EventAdds(acc.value, r.value);
        AddsReads(acc.value, r.value);
        if Consume(acc.value, r.value).Some? {
          GathersSnoc(env, front, d, evs, acc.value, r.value);
          evs := evs + [(r.value.name, r.value.data)];
        } else {
          GathersEnds(env, front, d, evs, acc);
        }
      }
    }
  }

  // ---- The assembled message -----------------------------------------------

  predicate IsCallItem(o: Json) {
    o.Obj? && Get(o.fields, TypeKey) == Str("function_call")
  }

  function KeyIn(o: Json): Json
    requires o.Obj?
  {
    KeyOf(IdOf(o))
  }

  /** The accumulated calls whose id is null or no call item of the output has. */
  ghost function Unlisted(calls: seq<Fields>, output: seq<Json>): seq<Fields> {
    if calls == [] then []
    else
      var f := calls[|calls| - 1];
      Unlisted(calls[..|calls| - 1], output)
      + if IdOf(Obj(f)) == Null || !Listed(output, KeyIn(Obj(f))) then [f] else []
  }

  ghost predicate Listed(output: seq<Json>, key: Json) {
    exists o :: o in output && IsCallItem(o) && KeyIn(o) == key
  }

  /** Every id that is compared can be hashed. */
  ghost predicate AllHashable(calls: seq<Fields>, output: seq<Json>) {
    && (forall f | f in calls :: Hashable(IdOf(Obj(f))))
    && (forall o | o in output && IsCallItem(o) :: Hashable(IdOf(o)))
  }

  lemma {:induction false} ExistingMeans(output: seq<Json>)
    ensures Existing(output).Some? <==> forall o | o in output && IsCallItem(o) :: Hashable(IdOf(o))
    ensures Existing(output).Some? ==> forall key :: key in Existing(output).value <==> Listed(output, key)
    decreases |output|
  {
    hide KeyOf, Hashable;
    if output != [] {
      var front, o := output[..|output| - 1], output[|output| - 1];
      ExistingMeans(front);
      assert forall x :: x in output <==> x in front || x == o;
      assert forall key :: Listed(output, key) <==> Listed(front, key) || (IsCallItem(o) && KeyIn(o) == key);
      assert IsCallItem(o) ==> IdOf(o) == CallIdOf(o.fields);
    }
  }

  lemma {:induction false} NewCallsMean(calls: seq<Fields>, output: seq<Json>)
    requires Existing(output).Some?
    ensures NewCalls(calls, Existing(output).value)
         == if forall f | f in calls :: Hashable(IdOf(Obj(f))) then Some(AsItems(Unlisted(calls, output))) else None
    decreases |calls|
  {
    ExistingMeans(output);
    hide Existing, Listed, Hashable, KeyOf, AsItems;
    if calls == [] {
      NoItems();
    } else {
      var front, f := calls[..|calls| - 1], calls[|calls| - 1];
      NewCallsMean(front, output);
      assert forall x :: x in calls <==> x in front || x == f;
      assert IdOf(Obj(f)) == CallIdOf(f);
      ItemsSnoc(Unlisted(front, output), f);
      assert Unlisted(front, output) + [] == Unlisted(front, output);
      assert AsItems(Unlisted(front, output)) + [] == AsItems(Unlisted(front, output));
    }
  }

  function AsItems(calls: seq<Fields>): seq<Json> {
    if calls == [] then [] else AsItems(calls[..|calls| - 1]) + [Obj(calls[|calls| - 1])]
  }

  lemma NoItems()
    ensures AsItems([]) == []
  {}

  lemma ItemsSnoc(calls: seq<Fields>, f: Fields)
    ensures AsItems(calls + [f]) == AsItems(calls) + [Obj(f)]
  {
    assert (calls + [f])[..|calls|] == calls;
  }

  /** Two messages read one after the other. */
  function Both(a: Option<Message>, b: Option<Message>): Option<Message> {
    if a.None? || b.None? then None
    else Some(Message(a.value.content + b.value.content, a.value.toolCalls + b.value.toolCalls))
  }

  lemma ReadSnoc(env: Env, items: seq<Json>, last: Json)
    ensures ReadItems(env, items + [last])
         == if ReadItems(env, items).None? then None else ReadItem(env, ReadItems(env, items).value, last)
  {
    hide ReadItem;
    assert (items + [last])[..|items|] == items;
  }

  lemma ReadAdds(env: Env, m: Message, item: Json)
    ensures ReadItem(env, m, item) == Both(Some(m), ReadItem(env, Message("", []), item))
  {
    hide PartText, CallOf, IsFunctionCall;
    var none: seq<ToolCall> := [];
    assert m.content + "" == m.content && m.toolCalls + none == m.toolCalls;
    assert forall t: string :: "" + t == t;
    assert forall c: seq<ToolCall> :: none + c == c;
  }

  lemma {:induction false} ReadAppend(env: Env, a: seq<Json>, b: seq<Json>)
    ensures ReadItems(env, a + b) == Both(ReadItems(env, a), ReadItems(env, b))
    decreases |b|
  {
    hide ReadItem, ReadItems;
    if b == [] {
      assert a + b == a;
      ReadNothing(env);
      if ReadItems(env, a).Some? {
        var m := ReadItems(env, a).value;
        assert m.content + "" == m.content && m.toolCalls + [] == m.toolCalls;
      }
    } else {
      var front, last := b[..|b| - 1], b[|b| - 1];
      assert a + b == a + front + [last] && b == front + [last];
      ReadAppend(env, a, front);
      ReadSnoc(env, a + front, last);
      ReadSnoc(env, front, last);
      var x, y := ReadItems(env, a), ReadItems(env, front);
      var z := ReadItem(env, Message("", []), last);
      if x.Some? && y.Some? {
        ReadAdds(env, Both(x, y).value, last);
        ReadAdds(env, y.value, last);
        if z.Some? {
          Assoc(x.value.content, y.value.content, z.value.content);
          Assoc(x.value.toolCalls, y.value.toolCalls, z.value.toolCalls);
        }
      }
    }
  }

  lemma ReadNothing(env: Env)
    ensures ReadItems(env, []) == Some(Message("", []))
  {}

  lemma ReadOne(env: Env, item: Json)
    ensures ReadItems(env, [item]) == ReadItem(env, Message("", []), item)
  {
    hide ReadItem;
    assert [item][..0] == [];
  }

  function CallsOf(env: Env, fs: seq<Fields>): seq<ToolCall> {
    if fs == [] then [] else CallsOf(env, fs[..|fs| - 1]) + [CallOf(env, fs[|fs| - 1])]
  }

  lemma CallsSnoc(env: Env, fs: seq<Fields>, f: Fields)
    ensures CallsOf(env, fs + [f]) == CallsOf(env, fs) + [CallOf(env, f)]
  {
    hide CallOf;
    assert (fs + [f])[..|fs|] == fs;
  }

  /** Reading back grafted calls. */
  lemma {:induction false} ReadCalls(env: Env, calls: seq<Fields>)
    requires forall f | f in calls :: IsFunctionCall(Obj(f))
    ensures ReadItems(env, AsItems(calls)) == Some(Message("", CallsOf(env, calls)))
    decreases |calls|
  {
    hide CallOf, IsFunctionCall, ReadItems;
    if calls == [] {
      ReadNothing(env);
    } else {
      var front, f := calls[..|calls| - 1], calls[|calls| - 1];
      ReadCalls(env, front);
      ReadSnoc(env, AsItems(front), Obj(f));
      assert f in calls && Get(f, TypeKey) != Str("message") by { CallIsNoMessage(f); }
    }
  }

  lemma CallIsNoMessage(f: Fields)
    ensures IsFunctionCall(Obj(f)) ==> Get(f, TypeKey) != Str("message")
  {}

  /** The text of a grafted message item is the text it was built from. */
  lemma ReadMessage(env: Env, texts: seq<string>)
    ensures ReadItems(env, [MessageItem(texts)]) == Some(Message(L.Concat(texts), []))
    ensures !IsCallItem(MessageItem(texts))
  {
    hide L.Concat;
    var text := L.Concat(texts);
    var part := Obj(map[TypeKey := Str("output_text"), TextKey := Str(text), OtherKey("annotations") := Arr([])]);
    assert [part][..0] == [];
    assert PartText([]) == Some("") && "" + text == text;
    assert PartText([part]) == Some(text);
    var item := MessageItem(texts);
    assert item.fields[ContentKey] == Arr([part]);
    ReadOne(env, item);
  }

  lemma ReadReasoning(env: Env, texts: seq<string>)
    ensures ReadItems(env, [ReasoningItem(texts)]) == Some(Message("", []))
    ensures !IsCallItem(ReasoningItem(texts))
  {
    ReadOne(env, ReasoningItem(texts));
  }

  lemma {:induction false} ReadObjects(env: Env, items: seq<Json>)
    ensures ReadItems(env, Objects(items)) == ReadItems(env, items)
    ensures forall o: Json | o.Obj? :: o in Objects(items) <==> o in items
    decreases |items|
  {
    if items != [] {
      hide ReadItem, ReadItems;
      var front, last := items[..|items| - 1], items[|items| - 1];
      assert items == front + [last];
      ReadObjects(env, front);
      ReadSnoc(env, front, last);
      ReadSnoc(env, Objects(front), last);
      assert Objects(front) + [] == Objects(front);
      if !last.Obj? { NoObject(env, last); }
    }
  }

  lemma NoObject(env: Env, item: Json)
    requires !item.Obj?
    ensures forall m :: ReadItem(env, m, item) == Some(m)
  {}

  /** The same call items, wherever they stand. */
  ghost predicate SameCalls(a: seq<Json>, b: seq<Json>) {
    forall o: Json | IsCallItem(o) :: o in a <==> o in b
  }

  lemma SameUnlisted(calls: seq<Fields>, a: seq<Json>, b: seq<Json>)
    requires SameCalls(a, b)
    ensures Unlisted(calls, a) == Unlisted(calls, b)
    ensures AllHashable(calls, a) <==> AllHashable(calls, b)
  {
    hide KeyIn, IdOf;
    assert forall key :: Listed(a, key) <==> Listed(b, key);
  }

  /** The output list before calls are grafted reads as the text and then the output's own. */
  lemma BeforeCalls(env: Env, a: Acc, f: Fields)
    ensures var output := OutputList(GraftText(a, GraftReasoning(a, f)));
            && ReadItems(env, output)
               == Both(Some(Message(L.Concat(TextParts(a)), [])), ReadItems(env, OutputList(f)))
            && SameCalls(output, OutputList(f))
  {
    hide L.Concat, TextParts, ReadItems, ReasoningItem, MessageItem, IsCallItem, Objects;
    var own, r := OutputList(f), OutputList(GraftReasoning(a, f));
    ReadReasoning(env, a.reasoning);
    ReadMessage(env, TextParts(a));
    ReadAppend(env, own, [ReasoningItem(a.reasoning)]);
    ReadAppend(env, [MessageItem(TextParts(a))], Objects(r));
    ReadObjects(env, r);
    CallItemsAreObjects();
    NothingAdded(ReadItems(env, own));
    assert L.Concat([]) == "" by { NoText(); }
  }

  lemma CallItemsAreObjects()
    ensures forall o: Json | IsCallItem(o) :: o.Obj?
  {}

  lemma NothingAdded(m: Option<Message>)
    ensures Both(m, Some(Message("", []))) == m == Both(Some(Message("", [])), m)
  {
    if m.Some? {
      assert m.value.content + "" == m.value.content == "" + m.value.content;
      assert m.value.toolCalls + [] == m.value.toolCalls == [] + m.value.toolCalls;
    }
  }

  lemma NoText()
    ensures L.Concat([]) == ""
  {}

  /** The response the accumulators start from. */
  function Chosen(a: Acc): Json {
    if a.completed.Some? then a.completed.value else if a.last.Some? then a.last.value else Obj(map[])
  }

  /** Nothing is grafted onto the response, and what stands for its output is no list. */
  predicate BareAndUnreadable(a: Acc, f: Fields) {
    a.reasoning == [] && a.deltas == [] && a.done == [] && a.calls == []
    && OutputKey in f && (f[OutputKey].Null? || f[OutputKey].Bool? || f[OutputKey].Num?)
  }

  function Own(j: Json): seq<Json> {
    if j.Obj? && Get(j.fields, OutputKey).Arr? then j.fields[OutputKey].items else []
  }

  /** The message, or None when some step raises. */
  function MessageOf(env: Env, a: Acc): Option<Message> {
    if Assembled(a).None? then None else ToOpenAi(env, Assembled(a).value)
  }

  lemma BaseIsChosen(a: Acc)
    ensures var base := BaseResponse(a);
            && (base.Obj? <==> Chosen(a).Obj?)
            && (base.Obj? ==> Own(base) == Own(Chosen(a)))
            && (base.Obj? && (a.completed.Some? || a.last.Some?) ==>
                  (OutputKey in base.fields <==> OutputKey in Chosen(a).fields)
                  && Get(base.fields, OutputKey) == Get(Chosen(a).fields, OutputKey))
            && (a.completed.None? && a.last.None? ==> base.Obj? && Get(base.fields, OutputKey) == Arr([]))
  {}

  lemma Grafted(a: Acc, f: Fields)
    ensures var g := GraftText(a, GraftReasoning(a, f));
            && (a.calls == [] ==> GraftCalls(a, g) == Some(g))
            && (a.calls != [] ==>
                  var output := OutputList(g);
                  && (GraftCalls(a, g).None? <==>
                        Existing(output).None? || NewCalls(a.calls, Existing(output).value).None?)
                  && (GraftCalls(a, g).Some? ==>
                        OutputKey in GraftCalls(a, g).value
                        && GraftCalls(a, g).value[OutputKey]
                           == Arr(output + NewCalls(a.calls, Existing(output).value).value)))
  {
    hide GraftText, GraftReasoning, Existing, NewCalls;
  }

  lemma GraftsMakeLists(a: Acc, f: Fields)
    ensures var g := GraftText(a, GraftReasoning(a, f));
            && (OutputKey in g && g[OutputKey].Arr? ==> OutputList(g) == g[OutputKey].items)
            && (OutputKey !in g || !g[OutputKey].Arr? ==> OutputList(g) == [] && OutputList(f) == [])
            && (a.calls == [] ==>
                  (BareAndUnreadable(a, f)
                   <==> OutputKey in g && (g[OutputKey].Null? || g[OutputKey].Bool? || g[OutputKey].Num?)))
  {
    hide ReasoningItem, MessageItem, Objects;
    if TextParts(a) == [] { assert a.deltas == [] && a.done == []; }
  }

  lemma ReadOutput(env: Env, g: Fields)
    ensures OutputKey in g && g[OutputKey].Arr? ==> ToOpenAi(env, Obj(g)) == ReadItems(env, g[OutputKey].items)
    ensures OutputKey in g && (g[OutputKey].Null? || g[OutputKey].Bool? || g[OutputKey].Num?) ==>
              ToOpenAi(env, Obj(g)) == None
    ensures OutputKey !in g || g[OutputKey].Str? || g[OutputKey].Obj? ==> ToOpenAi(env, Obj(g)) == ReadItems(env, [])
  {
    hide ReadItems;
  }

  lemma SameBare(a: Acc)
    requires BaseResponse(a).Obj?
    ensures Chosen(a).Obj?
    ensures BareAndUnreadable(a, BaseResponse(a).fields) <==> BareAndUnreadable(a, Chosen(a).fields)
    ensures OutputList(BaseResponse(a).fields) == Own(Chosen(a))
  {
    hide BaseResponse;
    BaseIsChosen(a);
  }

  lemma {:induction false} UnlistedAreCalls(calls: seq<Fields>, output: seq<Json>)
    requires forall f | f in calls :: IsFunctionCall(Obj(f))
    ensures forall f | f in Unlisted(calls, output) :: IsFunctionCall(Obj(f))
    decreases |calls|
  {
    hide IsFunctionCall, Listed, KeyIn, IdOf;
    if calls != [] {
      UnlistedAreCalls(calls[..|calls| - 1], output);
      assert calls[|calls| - 1] in calls;
    }
  }

  /** Without accumulated calls: what is read of the response that text is grafted onto. */
  lemma MessageWithout(env: Env, a: Acc, f: Fields)
    requires a.calls == []
    ensures ToOpenAi(env, Obj(GraftText(a, GraftReasoning(a, f))))
         == if BareAndUnreadable(a, f) then None
            else Both(Some(Message(L.Concat(TextParts(a)), [])), ReadItems(env, OutputList(f)))
  {
    hide L.Concat, TextParts, ReadItems, OutputList, BareAndUnreadable, ToOpenAi;
    BeforeCalls(env, a, f);
    GraftsMakeLists(a, f);
    ReadOutput(env, GraftText(a, GraftReasoning(a, f)));
    hide GraftText, GraftReasoning;
  }

  lemma MessageWith(env: Env, a: Acc, f: Fields)
    requires a.calls != [] && forall x | x in a.calls :: IsFunctionCall(Obj(x))
    ensures var r := GraftCalls(a, GraftText(a, GraftReasoning(a, f)));
            && (r.None? <==> !AllHashable(a.calls, OutputList(f)))
            && (r.Some? ==>
                  ToOpenAi(env, Obj(r.value))
                  == Both(Both(Some(Message(L.Concat(TextParts(a)), [])), ReadItems(env, OutputList(f))),
                          Some(Message("", CallsOf(env, Unlisted(a.calls, OutputList(f)))))))
  {
    hide *;
    var g := GraftText(a, GraftReasoning(a, f));
    var output := OutputList(g);
    BeforeCalls(env, a, f);
    Grafted(a, f);
    HashableMeans(a.calls, output);
    SameUnlisted(a.calls, output, OutputList(f));
    var r := GraftCalls(a, g);
    if r.Some? {
      NewCallsMean(a.calls, output);
      UnlistedAreCalls(a.calls, output);
      var more := Unlisted(a.calls, output);
      ReadCalls(env, more);
      ReadAppend(env, output, AsItems(more));
      ReadOutput(env, r.value);
    }
  }

  lemma HashableMeans(calls: seq<Fields>, output: seq<Json>)
    ensures AllHashable(calls, output)
       <==> Existing(output).Some? && NewCalls(calls, Existing(output).value).Some?
  {
    ExistingMeans(output);
    if Existing(output).Some? { NewCallsMean(calls, output); }
    hide Existing, NewCalls, Hashable, IsCallItem, IdOf;
  }

  lemma NoneUnlisted(env: Env, output: seq<Json>)
    ensures Unlisted([], output) == [] && CallsOf(env, []) == []
  {}

  lemma AssembledIs(env: Env, a: Acc)
    ensures !BaseResponse(a).Obj? ==> MessageOf(env, a) == None
    ensures BaseResponse(a).Obj? ==>
              var r := GraftCalls(a, GraftText(a, GraftReasoning(a, BaseResponse(a).fields)));
              MessageOf(env, a) == if r.None? then None else ToOpenAi(env, Obj(r.value))
  {
    hide BaseResponse, GraftCalls, GraftText, GraftReasoning, ReadItems;
  }

  /** The assembled response, read as a message, whatever output the response brought: the text
      parts and then its own text; its own calls and then the accumulated ones that are not
      listed there. It raises exactly when there is no response object, a compared id cannot
      be hashed, or the response's own output cannot be read. */
  lemma AssembledMessage(env: Env, a: Acc)
    requires forall f | f in a.calls :: IsFunctionCall(Obj(f))
    ensures var own := ReadItems(env, Own(Chosen(a)));
            MessageOf(env, a)
            == if !Chosen(a).Obj? || BareAndUnreadable(a, Chosen(a).fields) || own.None?
                  || (a.calls != [] && !AllHashable(a.calls, Own(Chosen(a)))) then None
               else Some(Message(L.Concat(TextParts(a)) + own.value.content,
                                 own.value.toolCalls + CallsOf(env, Unlisted(a.calls, Own(Chosen(a))))))
  {
    AssembledIs(env, a);
    BaseIsChosen(a);
    hide *;
    if BaseResponse(a).Obj? {
      var f := BaseResponse(a).fields;
      SameBare(a);
      var own := ReadItems(env, OutputList(f));
      if a.calls == [] {
        NoneUnlisted(env, OutputList(f));
        MessageWithout(env, a, f);
        Grafted(a, f);
        Appended(L.Concat(TextParts(a)), own, []);
      } else {
        NotBare(a, Chosen(a).fields);
        MessageWith(env, a, f);
        Appended(L.Concat(TextParts(a)), own, CallsOf(env, Unlisted(a.calls, OutputList(f))));
      }
    }
  }

  /** The items that text and reasoning are grafted as. */
  function SpokenItem(text: string): Json {
    Obj(map[IdKey := Str("msg-bsl-assembled"), TypeKey := Str("message"), OtherKey("role") := Str("assistant"),
            StatusKey := Str("completed"),
            ContentKey := Arr([Obj(map[TypeKey := Str("output_text"), TextKey := Str(text),
                                       OtherKey("annotations") := Arr([])])])])
  }

  function ThoughtItem(text: string): Json {
    Obj(map[TypeKey := Str("reasoning"),
            SummaryKey := Arr([Obj(map[TypeKey := Str("summary_text"), TextKey := Str(text)])])])
  }

  function OnlyObjects(items: seq<Json>): seq<Json> {
    if items == [] then [] else (if items[0].Obj? then [items[0]] else []) + OnlyObjects(items[1..])
  }

  lemma {:induction false} ObjectsOnly(items: seq<Json>)
    ensures Objects(items) == OnlyObjects(items)
    decreases |items|
  {
    if items != [] {
      var n := |items| - 1;
      ObjectsOnly(items[..n]);
      assert items == items[..n] + [items[n]];
      OnlyObjectsSnoc(items[..n], items[n]);
    }
  }

  lemma {:induction false} OnlyObjectsSnoc(items: seq<Json>, last: Json)
    ensures OnlyObjects(items + [last]) == OnlyObjects(items) + if last.Obj? then [last] else []
    decreases |items|
  {
    if items == [] {
      assert [] + [last] == [last] && [last][1..] == [];
      assert OnlyObjects([]) == [] && OnlyObjects([last][1..]) == [];
    } else {
      assert (items + [last])[1..] == items[1..] + [last] && (items + [last])[0] == items[0];
      OnlyObjectsSnoc(items[1..], last);
      Assoc(if items[0].Obj? then [items[0]] else [], OnlyObjects(items[1..]), if last.Obj? then [last] else []);
    }
  }

  predicate HasThought(items: seq<Json>) {
    exists o :: o in items && o.Obj? && Get(o.fields, TypeKey) == Str("reasoning")
  }

  /** The output list after grafting: a reasoning item behind it unless it has one, the text in
      front of its objects, the calls it does not list at its end. */
  ghost function GraftedOutput(a: Acc, own: seq<Json>): seq<Json> {
    var thought := own + if a.reasoning == [] || HasThought(own) then [] else [ThoughtItem(Flatten(a.reasoning))];
    var texts := SpokenTexts(a.deltas, a.done);
    (if texts == [] then thought else [SpokenItem(Flatten(texts))] + OnlyObjects(thought))
    + AsItems(Unlisted(a.calls, own))
  }

  predicate NothingGrafted(a: Acc, own: seq<Json>) {
    (a.reasoning == [] || HasThought(own)) && a.deltas == [] && a.done == [] && a.calls == []
  }

  /** What stands for the response where no event brought one. */
  const EMPTY_RESPONSE := Obj(map[IdKey := Str("codex-empty"), OutputKey := Arr([]), OtherKey("usage") := Obj(map[]),
                                  StatusKey := Str("completed")])

  lemma ThoughtGrafted(a: Acc, f: Fields)
    ensures var g, own := GraftReasoning(a, f), OutputList(f);
            && (a.reasoning == [] || HasThought(own) ==> g == f)
            && (a.reasoning != [] && !HasThought(own) ==>
                  g == f[OutputKey := Arr(own + [ThoughtItem(Flatten(a.reasoning))])])
  {
    hide L.Concat, Flatten;
    L.ConcatIsFlatten(a.reasoning);
  }

  lemma TextGrafted(a: Acc, f: Fields)
    ensures var g, texts := GraftText(a, f), SpokenTexts(a.deltas, a.done);
            && (texts == [] ==> g == f)
            && (texts != [] ==> g == f[OutputKey := Arr([SpokenItem(Flatten(texts))] + Objects(OutputList(f)))])
  {
    hide L.Concat, Flatten, Objects;
    L.ConcatIsFlatten(TextParts(a));
    SpokenAre(a);
  }

  lemma CallsGrafted(a: Acc, f: Fields, own: seq<Json>)
    requires GraftCalls(a, f).Some? && SameCalls(OutputList(f), own)
    ensures GraftCalls(a, f).value
         == if a.calls == [] then f else f[OutputKey := Arr(OutputList(f) + AsItems(Unlisted(a.calls, own)))]
  {
    hide Existing, NewCalls, Unlisted, AsItems, SameCalls;
    if a.calls != [] {
      NewCallsMean(a.calls, OutputList(f));
      SameUnlisted(a.calls, OutputList(f), own);
    }
  }

  /** The list under the output key, if `put`; otherwise nothing changes. */
  lemma Put(f: Fields, put: bool, items: seq<Json>, k: Key)
    requires !put ==> items == OutputList(f)
    ensures var g := if put then f[OutputKey := Arr(items)] else f;
            && OutputList(g) == items
            && (k != OutputKey ==> Get(g, k) == Get(f, k))
            && Get(g, OutputKey) == if put then Arr(items) else Get(f, OutputKey)
  {}

  lemma AllGrafted(env: Env, a: Acc, f: Fields, k: Key)
    requires GraftCalls(a, GraftText(a, GraftReasoning(a, f))).Some?
    ensures var r, own := GraftCalls(a, GraftText(a, GraftReasoning(a, f))).value, OutputList(f);
            && (k != OutputKey ==> Get(r, k) == Get(f, k))
            && Get(r, OutputKey)
               == if NothingGrafted(a, own) then Get(f, OutputKey) else Arr(GraftedOutput(a, own))
  {
    hide *;
    var own, texts := OutputList(f), SpokenTexts(a.deltas, a.done);
    var g1 := GraftReasoning(a, f);
    var g2 := GraftText(a, g1);
    BeforeCalls(env, a, f);
    ThoughtGrafted(a, f);
    TextGrafted(a, g1);
    CallsGrafted(a, g2, own);
    NoneUnlisted(env, own);
    NoItems();
    var thinks := a.reasoning != [] && !HasThought(own);
    var thought := own + if thinks then [ThoughtItem(Flatten(a.reasoning))] else [];
    assert own + [] == own;
    Put(f, thinks, thought, k);
    assert OutputList(g1) == thought;
    var spoken := if texts == [] then thought else [SpokenItem(Flatten(texts))] + Objects(thought);
    Put(g1, texts != [], spoken, k);
    assert OutputList(g2) == spoken;
    assert spoken + [] == spoken;
    Put(g2, a.calls != [], spoken + AsItems(Unlisted(a.calls, own)), k);
    GraftedIs(a, own, thought, spoken);
  }

  lemma GraftedIs(a: Acc, own: seq<Json>, thought: seq<Json>, spoken: seq<Json>)
    requires thought == own + if a.reasoning == [] || HasThought(own) then [] else [ThoughtItem(Flatten(a.reasoning))]
    requires var texts := SpokenTexts(a.deltas, a.done);
             spoken == if texts == [] then thought else [SpokenItem(Flatten(texts))] + Objects(thought)
    ensures GraftedOutput(a, own) == spoken + AsItems(Unlisted(a.calls, own))
    ensures NothingGrafted(a, own)
       <==> (a.reasoning == [] || HasThought(own)) && SpokenTexts(a.deltas, a.done) == [] && a.calls == []
  {
    hide Flatten, Unlisted, AsItems, Objects, OnlyObjects, HasThought;
    ObjectsOnly(thought);
  }

  /** A response with the stream's error, if it has none of its own. */
  predicate Blamed(c: Json, error: Json, base: Json, k: Key) {
    if !c.Obj? then base == c
    else
      base.Obj?
      && var failed := error.Truthy() && !Get(c.fields, ErrorKey).Truthy();
         && (k !in {ErrorKey, StatusKey} ==> Get(base.fields, k) == Get(c.fields, k))
         && Get(base.fields, ErrorKey) == (if failed then error else Get(c.fields, ErrorKey))
         && Get(base.fields, StatusKey) == (if failed then Str("failed") else Get(c.fields, StatusKey))
         && OutputList(base.fields) == Own(c)
  }

  lemma IsBlamed(c: Json, error: Json, k: Key)
    ensures Blamed(c, error,
                   if error.Truthy() && c.Obj? && !Get(c.fields, ErrorKey).Truthy() then
                     Obj(c.fields[ErrorKey := error][StatusKey := Str("failed")])
                   else c, k)
  {
    hide Json.Truthy;
  }

  lemma BaseFields(a: Acc, k: Key)
    ensures var c := if a.completed.Some? then a.completed.value
                     else if a.last.Some? then a.last.value else EMPTY_RESPONSE;
            Blamed(c, a.error, BaseResponse(a), k)
  {
    hide Blamed, Json.Truthy;
    IsBlamed(if a.completed.Some? then a.completed.value else if a.last.Some? then a.last.value else EMPTY_RESPONSE,
             a.error, k);
  }

  /** The assembled response: the fields of the one that was received, or of an empty one, with the
      grafted output, and with the stream's error where it has none of its own. */
  lemma AssembledResponse(env: Env, a: Acc, k: Key)
    ensures var c := if a.completed.Some? then a.completed.value
                     else if a.last.Some? then a.last.value else EMPTY_RESPONSE;
            && (!c.Obj? ==> Assembled(a) == Some(c))
            && (c.Obj? && Assembled(a).Some? ==>
                  Assembled(a).value.Obj?
                  && var f := Assembled(a).value.fields;
                     var failed := a.error.Truthy() && !Get(c.fields, ErrorKey).Truthy();
                     && (k !in {OutputKey, ErrorKey, StatusKey} ==> Get(f, k) == Get(c.fields, k))
                     && Get(f, ErrorKey) == (if failed then a.error else Get(c.fields, ErrorKey))
                     && Get(f, StatusKey) == (if failed then Str("failed") else Get(c.fields, StatusKey))
                     && Get(f, OutputKey)
                        == if NothingGrafted(a, Own(c)) then Get(c.fields, OutputKey)
                           else Arr(GraftedOutput(a, Own(c))))
  {
    hide GraftText, GraftReasoning, GraftCalls, GraftedOutput, NothingGrafted, BaseResponse, Assembled, Own, OutputList,
         Json.Truthy, Get;
    BaseFields(a, k);
    BaseFields(a, OutputKey);
    AssembledCases(a);
    var base := BaseResponse(a);
    if base.Obj? && GraftCalls(a, GraftText(a, GraftReasoning(a, base.fields))).Some? {
      AllGrafted(env, a, base.fields, k);
      AllGrafted(env, a, base.fields, ErrorKey);
      AllGrafted(env, a, base.fields, StatusKey);
    }
  }

  lemma AssembledCases(a: Acc)
    ensures !BaseResponse(a).Obj? ==> Assembled(a) == Some(BaseResponse(a))
    ensures BaseResponse(a).Obj? ==>
              var r := GraftCalls(a, GraftText(a, GraftReasoning(a, BaseResponse(a).fields)));
              Assembled(a) == if r.None? then None else Some(Obj(r.value))
  {
    hide BaseResponse, GraftCalls, GraftText, GraftReasoning;
  }

  lemma NotBare(a: Acc, f: Fields)
    requires a.calls != []
    ensures !BareAndUnreadable(a, f)
  {}

  lemma Appended(text: string, own: Option<Message>, calls: seq<ToolCall>)
    ensures own.None? ==> Both(Some(Message(text, [])), own) == None
    ensures own.None? ==> Both(Both(Some(Message(text, [])), own), Some(Message("", calls))) == None
    ensures own.Some? ==>
              Both(Both(Some(Message(text, [])), own), Some(Message("", calls)))
              == Some(Message(text + own.value.content, own.value.toolCalls + calls))
    ensures own.Some? && calls == [] ==>
              Both(Some(Message(text, [])), own) == Some(Message(text + own.value.content, own.value.toolCalls + calls))
  {
    if own.Some? {
      assert text + own.value.content + "" == text + own.value.content;
      assert [] + own.value.toolCalls == own.value.toolCalls;
      assert own.value.toolCalls + [] == own.value.toolCalls;
    }
  }

  // ---- What a response's output reads as -----------------------------------

  predicate IsText(c: Json) {
    c.Obj? && (Get(c.fields, TypeKey) == Str("output_text") || Get(c.fields, TypeKey) == Str("text"))
  }

  /** The texts of a message item's parts, in order. */
  function PartTexts(parts: seq<Json>): seq<string> {
    if parts == [] then []
    else (if IsText(parts[0]) then NonEmpty(Get(parts[0].fields, TextKey)) else []) + PartTexts(parts[1..])
  }

  function ItemTexts(item: Json): seq<string> {
    if item.Obj? && Get(item.fields, TypeKey) == Str("message") && Get(item.fields, ContentKey).Arr? then
      PartTexts(item.fields[ContentKey].items)
    else []
  }

  /** All texts of the output's messages, in order. */
  function OutputTexts(items: seq<Json>): seq<string> {
    if items == [] then [] else ItemTexts(items[0]) + OutputTexts(items[1..])
  }

  /** The named calls of the output, in order. */
  function OutputCalls(items: seq<Json>): seq<Fields> {
    if items == [] then [] else (if Calls(items[0]) then [items[0].fields] else []) + OutputCalls(items[1..])
  }

  /** A text that is a true value but no string. */
  predicate BadPart(c: Json) {
    IsText(c) && Get(c.fields, TextKey).Truthy() && !Get(c.fields, TextKey).Str?
  }

  /** A message whose content cannot be iterated, or holds such a text. */
  predicate BadItem(item: Json) {
    item.Obj? && Get(item.fields, TypeKey) == Str("message") && ContentKey in item.fields
    && var content := item.fields[ContentKey];
       content.Null? || content.Bool? || content.Num? || (content.Arr? && exists c :: c in content.items && BadPart(c))
  }

  /** These calls, told in order. */
  ghost predicate CallsTold(env: Env, fs: seq<Fields>, calls: seq<ToolCall>) {
    |calls| == |fs| && forall k | 0 <= k < |fs| :: CallMeans(env, Obj(fs[k]), calls[k])
  }

  lemma {:induction false} PartTextsSnoc(parts: seq<Json>, last: Json)
    ensures PartTexts(parts + [last])
         == PartTexts(parts) + if IsText(last) then NonEmpty(Get(last.fields, TextKey)) else []
    decreases |parts|
  {
    hide NonEmpty;
    if parts == [] {
      assert [] + [last] == [last] && [last][1..] == [];
      assert forall t: seq<string> :: t + [] == t == [] + t;
    } else {
      assert (parts + [last])[1..] == parts[1..] + [last];
      PartTextsSnoc(parts[1..], last);
      var head := if IsText(parts[0]) then NonEmpty(Get(parts[0].fields, TextKey)) else [];
      Assoc(head, PartTexts(parts[1..]), if IsText(last) then NonEmpty(Get(last.fields, TextKey)) else []);
    }
  }

  lemma {:induction false} PartTextMeans(parts: seq<Json>)
    ensures PartText(parts).None? <==> exists c :: c in parts && BadPart(c)
    ensures PartText(parts).Some? ==> PartText(parts).value == Flatten(PartTexts(parts))
    decreases |parts|
  {
    hide PartTexts, Flatten;
    if parts == [] {
      NothingFlat();
    } else {
      var front, last := parts[..|parts| - 1], parts[|parts| - 1];
      assert parts == front + [last];
      PartTextMeans(front);
      PartTextsSnoc(front, last);
      assert forall c :: c in parts <==> c in front || c == last;
      assert last in parts && (BadPart(last) <==> IsTextPart(last) && !last.fields[TextKey].Str?);
      var more := if IsText(last) then NonEmpty(Get(last.fields, TextKey)) else [];
      if more != [] {
        FlattenSnoc(PartTexts(front), more[0]);
        assert more == [more[0]];
      } else {
        assert PartTexts(front) + [] == PartTexts(front);
      }
    }
  }

  lemma NothingFlat()
    ensures Flatten<char>([]) == "" && PartTexts([]) == []
  {}

  lemma ReadItemMeans(env: Env, item: Json)
    ensures var r := ReadItem(env, Message("", []), item);
            && (r.None? <==> BadItem(item))
            && (r.Some? ==>
                  r.value == Message(Flatten(ItemTexts(item)), if Calls(item) then [CallOf(env, item.fields)] else []))
  {
    hide CallOf, PartText, PartTexts, Flatten, BadPart;
    NothingFlat();
    assert forall t: string :: "" + t == t;
    assert forall c: ToolCall :: [] + [c] == [c];
    if item.Obj? && Get(item.fields, TypeKey) == Str("message") {
      var content := GetOr(item.fields, ContentKey, Arr([]));
      if content.Arr? { PartTextMeans(content.items); }
      PartTextMeans([]);
    }
  }

  lemma CallToldCons(env: Env, f: Fields, fs: seq<Fields>, calls: seq<ToolCall>)
    requires CallsTold(env, fs, calls)
    ensures CallsTold(env, [f] + fs, [CallOf(env, f)] + calls)
  {
    CallOfMeans(env, Obj(f));
    hide CallOf, CallMeans;
  }

  /** An output list read: its texts and calls in order, or an exception exactly when some message
      in it cannot be read. */
  lemma {:induction false} OutputMeans(env: Env, items: seq<Json>)
    ensures var m := ReadItems(env, items);
            && (m.None? <==> exists item :: item in items && BadItem(item))
            && (m.Some? ==>
                  m.value.content == Flatten(OutputTexts(items))
                  && CallsTold(env, OutputCalls(items), m.value.toolCalls))
    decreases |items|
  {
    hide ReadItem, BadItem, ItemTexts, Flatten, CallOf, CallsTold;
    if items == [] {
      NothingFlat();
      assert CallsTold(env, [], []) by { NothingCalled(env); }
    } else {
      assert items == [items[0]] + items[1..];
      ReadAppend(env, [items[0]], items[1..]);
      ReadOne(env, items[0]);
      ReadItemMeans(env, items[0]);
      OutputMeans(env, items[1..]);
      hide ReadItems;
      FlattenAppend(ItemTexts(items[0]), OutputTexts(items[1..]));
      var m := ReadItems(env, items[1..]);
      if m.Some? {
        if Calls(items[0]) {
          CallToldCons(env, items[0].fields, OutputCalls(items[1..]), m.value.toolCalls);
        } else {
          assert [] + m.value.toolCalls == m.value.toolCalls;
          assert [] + OutputCalls(items[1..]) == OutputCalls(items[1..]);
        }
      }
    }
  }

  lemma NothingCalled(env: Env)
    ensures CallsTold(env, [], [])
  {}

  lemma {:induction false} CallsOfMeans(env: Env, fs: seq<Fields>)
    ensures CallsTold(env, fs, CallsOf(env, fs))
    decreases |fs|
  {
    hide CallOf, CallMeans;
    if fs != [] {
      CallsOfMeans(env, fs[..|fs| - 1]);
      CallOfMeans(env, Obj(fs[|fs| - 1]));
    }
  }

  lemma CallsToldAppend(env: Env, a: seq<Fields>, b: seq<Fields>, x: seq<ToolCall>, y: seq<ToolCall>)
    requires CallsTold(env, a, x) && CallsTold(env, b, y)
    ensures CallsTold(env, a + b, x + y)
  {
    hide CallMeans;
  }

  /** No two of these calls carry the same id. */
  predicate NoRepeat(fs: seq<Fields>) {
    forall i, j | 0 <= i < j < |fs| && IdOf(Obj(fs[i])).Truthy() && IdOf(Obj(fs[j])).Truthy() ::
      KeyOf(IdOf(Obj(fs[i]))) != KeyOf(IdOf(Obj(fs[j])))
  }

  lemma {:induction false} UnlistedFacts(calls: seq<Fields>, output: seq<Json>)
    ensures forall f | f in Unlisted(calls, output) ::
              f in calls && (IdOf(Obj(f)) == Null || !Listed(output, KeyIn(Obj(f))))
    ensures NoRepeat(calls) ==> NoRepeat(Unlisted(calls, output))
    decreases |calls|
  {
    hide Listed, KeyOf, IdOf;
    if calls != [] {
      var front, f := calls[..|calls| - 1], calls[|calls| - 1];
      UnlistedFacts(front, output);
      if NoRepeat(calls) {
        assert NoRepeat(front);
        forall x | x in front && IdOf(Obj(x)).Truthy() && IdOf(Obj(f)).Truthy()
          ensures KeyOf(IdOf(Obj(x))) != KeyOf(IdOf(Obj(f)))
        {
          var i :| 0 <= i < |front| && front[i] == x;
          assert calls[i] == x;
        }
      }
    }
  }

  lemma {:induction false} OutputCallsAreIn(items: seq<Json>)
    ensures forall f | f in OutputCalls(items) :: Obj(f) in items && IsCallItem(Obj(f))
    decreases |items|
  {
    if items != [] {
      OutputCallsAreIn(items[1..]);
      assert items == [items[0]] + items[1..];
    }
  }

  /** The message never carries an id twice unless the output or the stream did. */
  lemma NoCallTwice(calls: seq<Fields>, output: seq<Json>)
    requires NoRepeat(calls) && NoRepeat(OutputCalls(output))
    ensures NoRepeat(OutputCalls(output) + Unlisted(calls, output))
  {
    UnlistedFacts(calls, output);
    OutputCallsAreIn(output);
    hide Unlisted, OutputCalls, KeyOf, IdOf, IsCallItem;
    var a, b := OutputCalls(output), Unlisted(calls, output);
    forall i, j | 0 <= i < |a| && 0 <= j < |b| && IdOf(Obj(b[j])).Truthy()
      ensures KeyOf(IdOf(Obj(a[i]))) != KeyOf(IdOf(Obj(b[j])))
    {
      assert a[i] in a && b[j] in b;
      assert Obj(a[i]) in output && KeyIn(Obj(a[i])) == KeyOf(IdOf(Obj(a[i])));
    }
  }

  /** The text parts the message starts with: the deltas, or else the last text reported as done. */
  function SpokenTexts(deltas: seq<string>, done: seq<string>): seq<string> {
    if deltas != [] then deltas else if done != [] then [done[|done| - 1]] else []
  }

  lemma {:induction false} DoneCallsAreCalls(evs: seq<(string, Json)>)
    ensures forall f | f in Gathered(evs, DoneCalls) :: IsFunctionCall(Obj(f))
    decreases |evs|
  {
    if evs != [] { DoneCallsAreCalls(evs[..|evs| - 1]); }
  }

  /** For every byte string: the accumulators hold what each event gave under its literal name, and
      the message is the spoken texts followed by those of the final output, and the output's
      calls followed by the accumulated ones it does not list. */
  lemma BufferedMeans(env: Env, bytes: seq<Byte>) returns (evs: seq<(string, Json)>)
    ensures var acc := ConsumeAll(env, L.BufferedDispatches(env.text, bytes));
            var m := Buffered(env, bytes);
            && Gathers(env, L.BufferedDispatches(env.text, bytes), evs, acc)
            && (acc.None? ==> m.None?)
            && (acc.Some? ==>
                  var a := acc.value;
                  var output := Own(Chosen(a));
                  && (m.None? <==> !Chosen(a).Obj? || BareAndUnreadable(a, Chosen(a).fields)
                                   || (exists item :: item in output && BadItem(item))
                                   || (a.calls != [] && !AllHashable(a.calls, output)))
                  && (m.Some? ==>
                        && m.value.content == Flatten(SpokenTexts(a.deltas, a.done)) + Flatten(OutputTexts(output))
                        && CallsTold(env, OutputCalls(output) + Unlisted(a.calls, output), m.value.toolCalls)
                        && (NoRepeat(a.calls) && NoRepeat(OutputCalls(output)) ==>
                              NoRepeat(OutputCalls(output) + Unlisted(a.calls, output)))))
  {
    var ds := L.BufferedDispatches(env.text, bytes);
    evs := GatherOf(env, ds);
    var acc := ConsumeAll(env, ds);
    hide *;
    BufferedIs(env, bytes);
    if acc.Some? {
      var a := acc.value;
      HeldCalls(env, ds, evs, acc);
      AssembledMessage(env, a);
      var output := Own(Chosen(a));
      OutputMeans(env, output);
      var more := Unlisted(a.calls, output);
      CallsOfMeans(env, more);
      if ReadItems(env, output).Some? {
        CallsToldAppend(env, OutputCalls(output), more, ReadItems(env, output).value.toolCalls, CallsOf(env, more));
      }
      L.ConcatIsFlatten(TextParts(a));
      SpokenAre(a);
      if NoRepeat(a.calls) && NoRepeat(OutputCalls(output)) { NoCallTwice(a.calls, output); }
    }
  }

  lemma SpokenAre(a: Acc)
    ensures TextParts(a) == SpokenTexts(a.deltas, a.done)
  {}

  lemma HeldCalls(env: Env, ds: seq<L.Dispatch>, evs: seq<(string, Json)>, acc: Option<Acc>)
    requires Gathers(env, ds, evs, acc) && acc.Some?
    ensures forall f | f in acc.value.calls :: IsFunctionCall(Obj(f))
  {
    hide Reads, Unreadable, DoneTexts, DeltaTexts, DoneCalls, Finals, Responses, Errors;
    DoneCallsAreCalls(evs);
    hide Gathered;
  }

  lemma BufferedIs(env: Env, bytes: seq<Byte>)
    ensures var acc := ConsumeAll(env, L.BufferedDispatches(env.text, bytes));
            Buffered(env, bytes) == if acc.None? then None else MessageOf(env, acc.value)
  {
    hide ConsumeAll, Assembled, ToOpenAi, L.BufferedDispatches;
  }

  // ---- Agreement with the streaming consumer -------------------------------

  /** The text delta itself is a non-empty string, or it is empty and the event nests no text
      in its item either. */
  predicate PlainDelta(f: Fields) {
    var delta, item := GetOr(f, DeltaKey, Str("")), Get(f, ItemKey);
    if delta.Truthy() then delta.Str?
    else if !item.Obj? then true
    else
      var content := GetOr(item.fields, ContentKey, Arr([]));
      !content.Arr? || content == Arr([])
      || (content.items[0].Obj? && !GetOr(content.items[0].fields, TextKey, Str("")).Truthy())
  }

  /** The events the agreement is about: nothing fails or raises, and text deltas are plain. */
  predicate Quiet(e: Event) {
    var data := e.data;
    data.Obj? && e.kind != ErrorEvent && e.kind != Failed && e.kind != Incomplete
    && (e.kind == TextDelta ==> PlainDelta(data.fields))
    && (e.kind == Completed ==> GetOr(data.fields, RespKey, data).Obj?)
    && (e.kind == ItemDone ==>
          var item := Get(data.fields, ItemKey);
          item.Obj? ==>
            if IsFunctionCall(item) then Hashable(CallIdOf(item.fields))
            else Elements(Get(item.fields, ContentKey)).Some? && Elements(Get(item.fields, SummaryKey)).Some?)
  }

  ghost predicate QuietStream(env: Env, ds: seq<L.Dispatch>) {
    forall d | d in ds :: Resolve(env, d).Some? && Quiet(Resolve(env, d).value)
  }

  /** The text sent in content deltas. */
  function StreamedText(chunks: seq<Chunk>): string {
    if chunks == [] then ""
    else
      var d := chunks[|chunks| - 1].delta;
      StreamedText(chunks[..|chunks| - 1]) + if d.Content? && d.text.Str? then d.text.s else ""
  }

  /** The calls sent in tool deltas. */
  function StreamedCalls(chunks: seq<Chunk>): seq<ToolCall> {
    if chunks == [] then []
    else
      var d := chunks[|chunks| - 1].delta;
      StreamedCalls(chunks[..|chunks| - 1]) + if d.Tool? then [d.call] else []
  }

  /** Accumulators and chunks after the same events. */
  ghost predicate Matches(env: Env, c: Converted, acc: Option<Acc>) {
    && !c.raised && acc.Some?
    && StreamedText(c.out) == L.Concat(acc.value.deltas)
    && StreamedCalls(c.out) == CallsOf(env, acc.value.calls)
    && acc.value.error == Null
    && (forall t | t in acc.value.done :: t != "")
    && (forall f | f in acc.value.calls :: IsFunctionCall(Obj(f)) && Hashable(CallIdOf(f)))
  }

  lemma StreamedSnoc(chunks: seq<Chunk>, c: Chunk)
    ensures StreamedText(chunks + [c])
         == StreamedText(chunks) + if c.delta.Content? && c.delta.text.Str? then c.delta.text.s else ""
    ensures StreamedCalls(chunks + [c]) == StreamedCalls(chunks) + if c.delta.Tool? then [c.delta.call] else []
  {
    assert (chunks + [c])[..|chunks|] == chunks;
  }

  lemma ConcatSnoc(parts: seq<string>, p: string)
    ensures L.Concat(parts + [p]) == L.Concat(parts) + p
  {
    assert (parts + [p])[..|parts|] == parts;
  }

  lemma AddChunk(chunks: seq<Chunk>, c: Chunk)
    requires !c.delta.Tool? && !c.delta.Content?
    ensures StreamedText(chunks + [c]) == StreamedText(chunks) && StreamedCalls(chunks + [c]) == StreamedCalls(chunks)
  {
    StreamedSnoc(chunks, c);
    assert StreamedText(chunks) + "" == StreamedText(chunks);
    assert StreamedCalls(chunks) + [] == StreamedCalls(chunks);
  }

  lemma TextDeltaMatches(env: Env, c: Converted, acc: Acc, e: Event)
    requires Matches(env, c, Some(acc)) && Quiet(e) && e.kind == TextDelta
    ensures var r := Convert(env, e, c.ledger);
            r.Some? && Matches(env, Converted(c.out + r.value.0, r.value.1, false), Consume(acc, e))
  {
    hide Resolve, CallsOf, L.Concat, StreamedText, StreamedCalls;
    var f := e.data.fields;
    if GetOr(f, DeltaKey, Str("")).Truthy() {
      var text := f[DeltaKey].s;
      var chunk := Chunk(Model(f), Content(f[DeltaKey]), None);
      assert Convert(env, e, c.ledger) == Some(([chunk], c.ledger));
      StreamedSnoc(c.out, chunk);
      assert StreamedCalls(c.out) + [] == StreamedCalls(c.out);
      ConcatSnoc(acc.deltas, text);
      assert TextIn(e.data, DeltaKey) == [text];
    } else {
      var chunk := Chunk(Model(f), NoDelta, None);
      assert Convert(env, e, c.ledger) == Some(([chunk], c.ledger)) by { EmptyDelta(env, e, c.ledger); }
      AddChunk(c.out, chunk);
      assert TextIn(e.data, DeltaKey) == [] && acc.deltas + [] == acc.deltas;
    }
  }

  lemma EmptyDelta(env: Env, e: Event, l: Ledger)
    requires e.kind == TextDelta && e.data.Obj? && PlainDelta(e.data.fields)
    requires !GetOr(e.data.fields, DeltaKey, Str("")).Truthy()
    ensures Convert(env, e, l) == Some(([Chunk(Model(e.data.fields), NoDelta, None)], l))
  {}

  /** Accumulated texts are never empty. */
  lemma {:induction false} TextsFilled(items: seq<Json>)
    ensures forall t | t in TextsOf(items) :: t != ""
    decreases |items|
  {
    if items != [] { TextsFilled(items[..|items| - 1]); }
  }

  lemma DoneFilled(a: Acc, e: Event)
    requires forall t | t in a.done :: t != ""
    ensures Consume(a, e).Some? ==> forall t | t in Consume(a, e).value.done :: t != ""
  {
    hide TextsOf, ResponseOf, WithStatus, IsFunctionCall;
    if e.kind == ItemDone && e.data.Obj? && Get(e.data.fields, ItemKey).Obj? {
      var parts := Elements(Get(Get(e.data.fields, ItemKey).fields, ContentKey));
      if parts.Some? { TextsFilled(parts.value); }
    }
  }

  lemma ToolCallMatches(env: Env, c: Converted, acc: Acc, e: Event)
    requires Matches(env, c, Some(acc)) && Quiet(e) && IsToolEvent(e)
    ensures var r := Convert(env, e, c.ledger);
            r.Some? && Matches(env, Converted(c.out + r.value.0, r.value.1, false), Consume(acc, e))
  {
    hide CallsOf, L.Concat, StreamedText, StreamedCalls, IsFunctionCall;
    var item := Get(e.data.fields, ItemKey);
    assert IsFunctionCall(item) ==> item.Obj? by { ItemIsObject(item); }
    var f := item.fields;
    var r := Convert(env, e, c.ledger);
    assert r == ToolChunk(env, Model(e.data.fields), f, c.ledger);
    var chunk := r.value.0[0];
    assert r.value.0 == [chunk] && chunk.delta.Tool? && chunk.delta.call == CallOf(env, f);
    hide CallOf, ToolChunk;
    StreamedSnoc(c.out, chunk);
    assert StreamedText(c.out) + "" == StreamedText(c.out);
    CallsSnoc(env, acc.calls, f);
    assert Obj(f) == item;
  }

  lemma ItemIsObject(item: Json)
    ensures IsFunctionCall(item) ==> item.Obj?
  {}

  /** Any other quiet event moves neither the text nor the calls, on either side. */
  lemma OtherMatches(env: Env, c: Converted, acc: Acc, e: Event)
    requires Matches(env, c, Some(acc)) && Quiet(e) && !IsToolEvent(e) && e.kind != TextDelta
    ensures var r := Convert(env, e, c.ledger);
            r.Some? && Matches(env, Converted(c.out + r.value.0, r.value.1, false), Consume(acc, e))
  {
    hide CallsOf, L.Concat, StreamedText, StreamedCalls, CallOf, TextsOf, TextIn;
    DoneFilled(acc, e);
    var r := Convert(env, e, c.ledger);
    if r.value.0 == [] {
      assert c.out + [] == c.out;
    } else {
      assert r.value.0 == [r.value.0[0]];
      AddChunk(c.out, r.value.0[0]);
    }
  }

  lemma {:induction false} QuietMatches(env: Env, ds: seq<L.Dispatch>)
    requires QuietStream(env, ds)
    ensures Matches(env, ConvertAll(env, ds), ConsumeAll(env, ds))
    decreases |ds|
  {
    if ds != [] {
      hide Resolve, Convert, Consume, Matches, Quiet, IsToolEvent;
      var front, d := ds[..|ds| - 1], ds[|ds| - 1];
      QuietMatches(env, front);
      var c, acc := ConvertAll(env, front), ConsumeAll(env, front);
      MatchesMeans(env, c, acc);
      var e := Resolve(env, d).value;
      if e.kind == TextDelta {
        TextDeltaMatches(env, c, acc.value, e);
      } else if IsToolEvent(e) {
        ToolCallMatches(env, c, acc.value, e);
      } else {
        OtherMatches(env, c, acc.value, e);
      }
    } else {
      assert Matches(env, Converted([], FRESH, false), Some(EMPTY));
    }
  }

  lemma MatchesMeans(env: Env, c: Converted, acc: Option<Acc>)
    requires Matches(env, c, acc)
    ensures !c.raised && acc.Some?
  {}

  lemma ConcatOne(t: string)
    ensures L.Concat([t]) == t && L.Concat([]) == ""
  {
    assert [t][..0] == [] && "" + t == t;
  }

  lemma {:induction false} NoneListed(calls: seq<Fields>)
    ensures Unlisted(calls, []) == calls
    decreases |calls|
  {
    hide KeyIn, IdOf;
    assert forall key :: !Listed([], key);
    hide Listed;
    if calls != [] {
      NoneListed(calls[..|calls| - 1]);
    }
  }

  lemma {:induction false} AllListed(calls: seq<Fields>, output: seq<Json>)
    requires forall f | f in calls :: IdOf(Obj(f)) != Null && Listed(output, KeyIn(Obj(f)))
    ensures Unlisted(calls, output) == []
    decreases |calls|
  {
    hide KeyIn, IdOf, Listed;
    if calls != [] {
      AllListed(calls[..|calls| - 1], output);
      assert calls[|calls| - 1] in calls;
    }
  }

  /** On a newline-terminated stream of quiet events, whatever output its final response brings:
      streaming raises nothing, buffering exactly where that output cannot be used. The buffered
      calls are the output's own and then the streamed ones it does not list. The buffered text
      is the streamed text exactly when the output has no text of its own, and some text came
      as deltas or none came at all; an output that repeats the streamed text doubles it. */
  lemma ConsumersAgree(env: Env, bytes: seq<Byte>)
    requires L.SplitLines(bytes).1 == []
    requires QuietStream(env, L.StreamedDispatches(env.text, bytes))
    ensures var (chunks, raised) := Streamed(env, bytes);
            var acc := ConsumeAll(env, L.StreamedDispatches(env.text, bytes));
            !raised && acc.Some? && CallsOf(env, acc.value.calls) == StreamedCalls(chunks)
    ensures var (chunks, raised) := Streamed(env, bytes);
            var m, a := Buffered(env, bytes), ConsumeAll(env, L.StreamedDispatches(env.text, bytes)).value;
            var output := Own(Chosen(a));
            var own := ReadItems(env, output);
            && (m.Some? <==> Chosen(a).Obj? && !BareAndUnreadable(a, Chosen(a).fields) && own.Some?
                             && (a.calls != [] ==> AllHashable(a.calls, output)))
            && (m.Some? ==>
                  && m.value.toolCalls == own.value.toolCalls + CallsOf(env, Unlisted(a.calls, output))
                  && (output == [] ==> m.value.toolCalls == StreamedCalls(chunks))
                  && ((forall f | f in a.calls :: IdOf(Obj(f)) != Null && Listed(output, KeyIn(Obj(f)))) ==>
                        m.value.toolCalls == own.value.toolCalls)
                  && (m.value.content == StreamedText(chunks)
                      <==> own.value.content == "" && (a.deltas != [] || a.done == []))
                  && (a.deltas != [] && own.value.content == StreamedText(chunks) ==>
                        m.value.content == StreamedText(chunks) + StreamedText(chunks)))
  {
    hide ConvertAll, ConsumeAll, Assembled, ToOpenAi, WithRole, BaseResponse, L.SplitLines, Quiet, Resolve,
         L.Lines, StreamedText, StreamedCalls, CallsOf, L.Concat, ReadItems, Unlisted, AllHashable, Chosen, Listed,
         BareAndUnreadable, IsFunctionCall, IdOf, KeyIn;
    var ds := L.StreamedDispatches(env.text, bytes);
    L.SameDispatches(env.text, bytes);
    QuietMatches(env, ds);
    RoleAddsNothing(ConvertAll(env, ds).out);
    var a := ConsumeAll(env, ds).value;
    AssembledMessage(env, a);
    var output := Own(Chosen(a));
    if a.deltas == [] && a.done != [] {
      assert a.done[|a.done| - 1] in a.done;
      ConcatOne(a.done[|a.done| - 1]);
    }
    if output == [] {
      NoneListed(a.calls);
      ReadNothing(env);
    }
    if forall f | f in a.calls :: IdOf(Obj(f)) != Null && Listed(output, KeyIn(Obj(f))) {
      AllListed(a.calls, output);
      NoneUnlisted(env, output);
    }
    if ReadItems(env, output).Some? { SameText(L.Concat(TextParts(a)), ReadItems(env, output).value.content); }
  }

  lemma SameText(a: string, b: string)
    ensures a + b == a <==> b == ""
  {
    assert |a + b| == |a| + |b|;
  }

  lemma {:induction false} RoleAddsNothing(chunks: seq<Chunk>)
    ensures StreamedText(WithRole(chunks)) == StreamedText(chunks)
    ensures StreamedCalls(WithRole(chunks)) == StreamedCalls(chunks)
    decreases |chunks|
  {
    hide StreamedText, StreamedCalls;
    if chunks != [] {
      var front, last := chunks[..|chunks| - 1], chunks[|chunks| - 1];
      RoleAddsNothing(front);
      assert chunks == front + [last];
      WithRoleSnoc(front, last);
      StreamedSnoc(front, last);
      if front == [] {
        AddChunk([], RoleChunk(last));
        StreamedSnoc([] + [RoleChunk(last)], last);
        assert WithRole(chunks) == ([] + [RoleChunk(last)]) + [last];
      } else {
        assert WithRole(front) + [] == WithRole(front);
        StreamedSnoc(WithRole(front), last);
      }
    }
  }
}
