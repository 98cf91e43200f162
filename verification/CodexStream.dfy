/**
 The streaming consumer of a Codex event stream (app/codex_adapter.py,
 `responses_sse_to_openai_sse`): the conversion of its events and the tool-call index
 ledger. The events and calls described here are also those of the buffering consumer.

 Ids, timestamps, usage numbers and the reasoning text of the final message are left
 out of chunks and messages. An operation that raises in Python gives None here.
 */
module CodexStream {
  import opened Prelude
  import opened Json
  import L = SseLines

  /** `loads` fails on text that is not JSON; `pyStr` is `str` on non-strings. */
  datatype Env = Env(text: L.Text, loads: string -> Option<Json>, dumps: Json -> string, pyStr: Json -> string)

  // ---- Events --------------------------------------------------------------

  datatype Kind =
    | TextDelta | TextDone | PartDone | ReasoningDelta | ReasoningDone | ItemDone
    | Completed | Done | Failed | Incomplete | ErrorEvent | Ignored

  function KindOf(name: string): Kind {
    if name == "response.output_text.delta" then TextDelta
    else if name == "response.output_text.done" then TextDone
    else if name == "response.content_part.done" then PartDone
    else if name == "response.reasoning_summary_text.delta" || name == "response.reasoning_text.delta" then
      ReasoningDelta
    else if name == "response.reasoning_summary_text.done" || name == "response.reasoning_text.done" then ReasoningDone
    else if name == "response.output_item.done" then ItemDone
    else if name == "response.completed" then Completed
    else if name == "response.done" then Done
    else if name == "response.failed" then Failed
    else if name == "response.incomplete" then Incomplete
    else if name == "error" then ErrorEvent
    else Ignored
  }

  datatype Event = Event(name: string, kind: Kind, data: Json)

  /** The event's data, and its name from the `event:` field or from `type`. */
  function Resolve(env: Env, d: L.Dispatch): Option<Event> {
    var parsed := env.loads(d.data);
    var data := if parsed.Some? then parsed.value else Obj(map[]);
    if d.event.Some? && d.event.value != "" then
      var name := env.text.strip(d.event.value); Some(Event(name, KindOf(name), data))
    else
      var t := if data.Obj? then Get(data.fields, TypeKey) else Null;
      if t.Str? then var name := env.text.strip(t.s); Some(Event(name, KindOf(name), data))
      else if t.Truthy() then None
      else var name := env.text.strip(""); Some(Event(name, KindOf(name), data))
  }

  /** A finished tool call: an id only when there is a true one. */
  datatype ToolCall = ToolCall(id: Option<Json>, name: Json, arguments: string)

  function FirstTrue(a: Json, b: Json): Json {
    if a.Truthy() then a else b
  }

  function CallOf(env: Env, f: map<Key, Json>): ToolCall {
    var args := GetOr(f, ArgumentsKey, Str(""));
    var id := FirstTrue(Get(f, CallIdKey), Get(f, IdKey));
    ToolCall(
      if id.Truthy() then Some(id) else None,
      Get(f, NameKey),
      if args.Str? then args.s else if args.Null? then "{}" else env.dumps(args))
  }

  predicate IsFunctionCall(item: Json) {
    item.Obj? && Get(item.fields, TypeKey) == Str("function_call") && Get(item.fields, NameKey).Truthy()
  }

  // ---- The streaming converter ---------------------------------------------

  datatype Delta =
    | Role | Content(text: Json) | NoDelta | ReasoningText(reasoning: string) | Tool(index: nat, call: ToolCall)

  datatype Chunk = Chunk(model: Json, delta: Delta, finish: Option<string>)

  /** Call ids seen, with their index, and the next free index. */
  datatype Ledger = Ledger(index: map<Json, nat>, next: nat)

  const FRESH := Ledger(map[], 0)

  /** Dictionary keys: `True` and `1` are the same key, and so are `False` and `0`; lists and
      dicts are none. */
  function KeyOf(id: Json): Json {
    if id.Bool? then Num(if id.b then 1.0 else 0.0) else id
  }

  lemma KeysEqualExactly(a: Json, b: Json)
    ensures KeyOf(a) == KeyOf(b)
       <==> a == b || (a.Bool? && b == Num(if a.b then 1.0 else 0.0)) || (b.Bool? && a == Num(if b.b then 1.0 else 0.0))
  {}

  predicate Hashable(id: Json) {
    !id.Arr? && !id.Obj?
  }

  function Model(f: map<Key, Json>): Json {
    GetOr(f, ModelKey, Str("codex"))
  }

  function StrOf(env: Env, j: Json): string {
    if j.Str? then j.s else env.pyStr(j)
  }

  const UPSTREAM_ERROR := "[BSL] upstream error: "

  function ErrorChunks(model: Json, message: string): seq<Chunk> {
    [Chunk(model, Content(Str(UPSTREAM_ERROR + message)), None), Chunk(model, NoDelta, Some("error"))]
  }

  function ToolChunk(env: Env, model: Json, f: map<Key, Json>, l: Ledger): Option<(seq<Chunk>, Ledger)> {
    var call := CallOf(env, f);
    if call.id.None? then Some(([Chunk(model, Tool(l.next, call), None)], l.(next := l.next + 1)))
    else if !Hashable(call.id.value) then None
    else
      var key := KeyOf(call.id.value);
      if key in l.index then Some(([Chunk(model, Tool(l.index[key], call), None)], l))
      else Some(([Chunk(model, Tool(l.next, call), None)], Ledger(l.index[key := l.next], l.next + 1)))
  }

  /** `_codex_event_to_openai_chunk`: the chunks of one event and the ledger after it. */
  function Convert(env: Env, e: Event, l: Ledger): Option<(seq<Chunk>, Ledger)> {
    match e.kind
    case TextDelta =>
      if !e.data.Obj? then None
      else
        var f := e.data.fields;
        var delta := GetOr(f, DeltaKey, Str(""));
        var item := Get(f, ItemKey);
        if delta.Truthy() || !item.Obj? || !GetOr(item.fields, ContentKey, Arr([])).Arr?
           || GetOr(item.fields, ContentKey, Arr([])) == Arr([]) then
          Some(([Chunk(Model(f), if delta.Truthy() then Content(delta) else NoDelta, None)], l))
        else
          var first := item.fields[ContentKey].items[0];
          if !first.Obj? then None
          else
            var text := GetOr(first.fields, TextKey, Str(""));
            Some(([Chunk(Model(f), if text.Truthy() then Content(text) else NoDelta, None)], l))
    case ReasoningDelta =>
      if e.data.Obj? && Get(e.data.fields, DeltaKey).Str? && Get(e.data.fields, DeltaKey).s != "" then
        Some(([Chunk(Model(e.data.fields), ReasoningText(Get(e.data.fields, DeltaKey).s), None)], l))
      else Some(([], l))
    case ErrorEvent =>
      var err := if e.data.Obj? && Get(e.data.fields, ErrorKey).Obj? then Get(e.data.fields, ErrorKey) else e.data;
      var message :=
        if err.Obj? then
          var m := FirstTrue(Get(err.fields, MessageKey), Get(err.fields, CodeKey));
          if m.Truthy() then StrOf(env, m) else "error"
        else if err.Truthy() then StrOf(env, err) else "error";
      Some((ErrorChunks(if e.data.Obj? then Model(e.data.fields) else Str("codex"), message), l))
    case Failed => FailureChunks(env, e, ErrorKey, MessageKey, l)
    case Incomplete => FailureChunks(env, e, DetailsKey, ReasonKey, l)
    case Completed =>
      if !e.data.Obj? || !GetOr(e.data.fields, RespKey, e.data).Obj? then None
      else
        var f := GetOr(e.data.fields, RespKey, e.data).fields;
        var output := Get(f, OutputKey);
        var calls := output.Arr?
                     && exists o | o in output.items :: o.Obj? && Get(o.fields, TypeKey) == Str("function_call");
        Some(([Chunk(Model(f), NoDelta, Some(if calls then "tool_calls" else "stop"))], l))
    case ItemDone =>
      if !e.data.Obj? then None
      else
        var item := Get(e.data.fields, ItemKey);
        if IsFunctionCall(item) then ToolChunk(env, Model(e.data.fields), item.fields, l) else Some(([], l))
    case _ => Some(([], l))
  }

  function FailureChunks(env: Env, e: Event, details: Key, reason: Key, l: Ledger): Option<(seq<Chunk>, Ledger)> {
    if !e.data.Obj? then None
    else
      var resp := GetOr(e.data.fields, RespKey, e.data);
      var f := if resp.Obj? then resp.fields else map[];
      var d := Get(f, details);
      var m := if d.Obj? then Get(d.fields, reason) else Null;
      Some((ErrorChunks(Model(f), if m.Truthy() then StrOf(env, m) else e.name), l))
  }

  /** All events so far: the chunks they gave, and whether one of them raised. */
  datatype Converted = Converted(out: seq<Chunk>, ledger: Ledger, raised: bool)

  function ConvertOne(env: Env, c: Converted, d: L.Dispatch): Converted {
    if c.raised then c
    else
      match Resolve(env, d)
      case None => c.(raised := true)
      case Some(e) =>
        match Convert(env, e, c.ledger)
        case None => c.(raised := true)
        case Some((chunks, ledger)) => Converted(c.out + chunks, ledger, false)
  }

  function ConvertAll(env: Env, ds: seq<L.Dispatch>): Converted {
    if ds == [] then Converted([], FRESH, false)
    else ConvertOne(env, ConvertAll(env, ds[..|ds| - 1]), ds[|ds| - 1])
  }

  function RoleChunk(c: Chunk): Chunk {
    Chunk(c.model, Role, None)
  }

  /** The role chunk goes out once, just before the first other chunk. */
  function WithRole(chunks: seq<Chunk>): seq<Chunk> {
    if chunks == [] then [] else [RoleChunk(chunks[0])] + chunks
  }

  /** What the converter sends for a byte string, and whether it ended by raising. */
  function Streamed(env: Env, bytes: seq<Byte>): (seq<Chunk>, bool) {
    var c := ConvertAll(env, L.StreamedDispatches(env.text, bytes));
    (WithRole(c.out), c.raised)
  }

  lemma ConvertSnoc(env: Env, ds: seq<L.Dispatch>, d: L.Dispatch)
    ensures ConvertAll(env, ds + [d]) == ConvertOne(env, ConvertAll(env, ds), d)
  {
    hide ConvertOne;
    assert (ds + [d])[..|ds|] == ds;
  }

  lemma {:induction false} RaisedStays(env: Env, ds: seq<L.Dispatch>, more: seq<L.Dispatch>)
    requires ConvertAll(env, ds).raised
    ensures ConvertAll(env, ds + more) == ConvertAll(env, ds)
    decreases |more|
  {
    if more == [] {
      assert ds + [] == ds;
    } else {
      hide Resolve, Convert;
      var front, last := more[..|more| - 1], more[|more| - 1];
      RaisedStays(env, ds, front);
      assert ds + more == (ds + front) + [last];
      ConvertSnoc(env, ds + front, last);
    }
  }

  /** Once raised, the rest of the stream changes nothing. */
  lemma RaisedIsFinal(env: Env, lines: seq<seq<Byte>>, more: seq<seq<Byte>>)
    requires ConvertAll(env, L.Lines(env.text, lines).sent).raised
    ensures ConvertAll(env, L.Flushed(L.Lines(env.text, lines + more)))
         == ConvertAll(env, L.Lines(env.text, lines).sent)
  {
    L.SentGrows(env.text, lines, more);
    var sent, all := L.Lines(env.text, lines).sent, L.Flushed(L.Lines(env.text, lines + more));
    assert all == sent + all[|sent|..];
    RaisedStays(env, sent, all[|sent|..]);
  }

  // ---- The role chunk ------------------------------------------------------

  lemma {:induction false} ConvertedHasNoRole(env: Env, ds: seq<L.Dispatch>)
    ensures forall c | c in ConvertAll(env, ds).out :: c.delta != Role
    decreases |ds|
  {
    hide KindOf, CallOf, ErrorChunks;
    if ds != [] {
      var front, d := ds[..|ds| - 1], ds[|ds| - 1];
      ConvertedHasNoRole(env, front);
      var e := Resolve(env, d);
      if e.Some? { ConvertHasNoRole(env, e.value, ConvertAll(env, front).ledger); }
      hide Resolve, Convert;
    }
  }

  lemma ConvertHasNoRole(env: Env, e: Event, l: Ledger)
    ensures var r := Convert(env, e, l); r.Some? ==> forall c | c in r.value.0 :: c.delta != Role
  {
    hide CallOf, StrOf, Model;
  }

  /** The role goes out exactly once: first, and right before another chunk. */
  lemma RoleFirstAndOnce(env: Env, bytes: seq<Byte>)
    ensures var out := Streamed(env, bytes).0;
            out == [] || (|out| >= 2 && out[0].delta == Role && forall i | 0 < i < |out| :: out[i].delta != Role)
  {
    ConvertedHasNoRole(env, L.StreamedDispatches(env.text, bytes));
    hide ConvertAll, L.StreamedDispatches;
    var out := ConvertAll(env, L.StreamedDispatches(env.text, bytes)).out;
    forall i | 0 < i < |WithRole(out)| ensures WithRole(out)[i].delta != Role {
      assert WithRole(out)[i] == out[i - 1] && out[i - 1] in out;
    }
  }

  // ---- The index ledger ----------------------------------------------------

  /** The tool deltas of a list of chunks, in order. */
  function Tools(chunks: seq<Chunk>): seq<Delta> {
    if chunks == [] then []
    else
      var last := chunks[|chunks| - 1].delta;
      Tools(chunks[..|chunks| - 1]) + if last.Tool? then [last] else []
  }

  /** Two tool deltas name the same call. */
  predicate SameCall(a: Delta, b: Delta)
    requires a.Tool? && b.Tool?
  {
    a.call.id.Some? && b.call.id.Some? && KeyOf(a.call.id.value) == KeyOf(b.call.id.value)
  }

  /** What the ledger knows of the tool deltas sent so far. */
  ghost predicate Tracks(l: Ledger, ts: seq<Delta>) {
    && (forall k | k in l.index :: l.index[k] < l.next)
    && (forall k, m | k in l.index && m in l.index && l.index[k] == l.index[m] :: k == m)
    && (forall t | t in ts :: t.Tool? && t.index < l.next)
    && (forall t | t in ts && t.call.id.Some? ::
          KeyOf(t.call.id.value) in l.index && l.index[KeyOf(t.call.id.value)] == t.index)
    && (forall t, k | t in ts && t.call.id.None? && k in l.index :: l.index[k] != t.index)
  }

  ghost predicate IndexedByCall(ts: seq<Delta>) {
    && (forall t | t in ts :: t.Tool?)
    && (forall i, j | 0 <= i < j < |ts| :: ts[i].index == ts[j].index <==> SameCall(ts[i], ts[j]))
  }

  lemma ToolsAppendOne(chunks: seq<Chunk>, c: Chunk)
    ensures Tools(chunks + [c]) == Tools(chunks) + if c.delta.Tool? then [c.delta] else []
  {
    assert (chunks + [c])[..|chunks|] == chunks;
  }

  lemma {:induction false} ToolsSkip(chunks: seq<Chunk>, more: seq<Chunk>)
    requires forall c | c in more :: !c.delta.Tool?
    ensures Tools(chunks + more) == Tools(chunks)
    decreases |more|
  {
    if more == [] {
      assert chunks + [] == chunks;
    } else {
      var front, last := more[..|more| - 1], more[|more| - 1];
      ToolsSkip(chunks, front);
      assert chunks + more == (chunks + front) + [last];
      ToolsAppendOne(chunks + front, last);
    }
  }

  /** The events that send a tool delta. */
  predicate IsToolEvent(e: Event) {
    e.kind == ItemDone && e.data.Obj? && IsFunctionCall(Get(e.data.fields, ItemKey))
  }

  lemma OtherEvents(env: Env, e: Event, l: Ledger)
    requires !IsToolEvent(e) && Convert(env, e, l).Some?
    ensures var (chunks, l1) := Convert(env, e, l).value; l1 == l && forall c | c in chunks :: !c.delta.Tool?
  {
    hide CallOf, StrOf, Model, ToolChunk;
  }

  lemma IndexedSnoc(ts: seq<Delta>, t: Delta)
    requires IndexedByCall(ts) && t.Tool?
    requires forall i | 0 <= i < |ts| :: ts[i].index == t.index <==> SameCall(ts[i], t)
    ensures IndexedByCall(ts + [t])
  {
    hide SameCall;
  }

  lemma LedgerStep(env: Env, model: Json, f: map<Key, Json>, l: Ledger, ts: seq<Delta>)
    requires Tracks(l, ts) && IndexedByCall(ts) && ToolChunk(env, model, f, l).Some?
    ensures var (chunks, l1) := ToolChunk(env, model, f, l).value;
            && |chunks| == 1 && chunks[0].delta.Tool?
            && Tracks(l1, ts + [chunks[0].delta]) && IndexedByCall(ts + [chunks[0].delta])
  {
    hide CallOf;
    var (chunks, l1) := ToolChunk(env, model, f, l).value;
    var t := chunks[0].delta;
    assert forall x | x in ts :: x.Tool?;
    forall i | 0 <= i < |ts| ensures ts[i].index == t.index <==> SameCall(ts[i], t) {
      assert ts[i] in ts;
    }
    IndexedSnoc(ts, t);
    hide IndexedByCall, SameCall;
  }

  predicate At(t: Delta, index: int) {
    t.Tool? && t.index == index
  }

  /** What the ledger knows beyond `Tracks`: its indexes are all in use. */
  ghost predicate InUse(l: Ledger, ts: seq<Delta>) {
    && (forall k | k in l.index :: exists t :: t in ts && Carries(t, k))
    && (l.next > 0 ==> exists t :: t in ts && At(t, l.next - 1))
  }

  predicate Carries(t: Delta, key: Json) {
    t.Tool? && t.call.id.Some? && KeyOf(t.call.id.value) == key
  }

  lemma ToolChunkIs(env: Env, model: Json, f: map<Key, Json>, l: Ledger)
    requires ToolChunk(env, model, f, l).Some?
    ensures var (chunks, l1) := ToolChunk(env, model, f, l).value;
            var call := CallOf(env, f);
            var known := call.id.Some? && KeyOf(call.id.value) in l.index;
            var index := if known then l.index[KeyOf(call.id.value)] else l.next;
            && chunks == [Chunk(model, Tool(index, call), None)]
            && l1.next == (if known then l.next else l.next + 1)
            && l1.index == if known || call.id.None? then l.index else l.index[KeyOf(call.id.value) := l.next]
  {
    hide CallOf;
  }

  lemma StaysInUse(env: Env, model: Json, f: map<Key, Json>, l: Ledger, ts: seq<Delta>)
    requires InUse(l, ts) && ToolChunk(env, model, f, l).Some?
    ensures var (chunks, l1) := ToolChunk(env, model, f, l).value; InUse(l1, ts + [chunks[0].delta])
  {
    hide CallOf;
    ToolChunkIs(env, model, f, l);
    hide ToolChunk;
    var (chunks, l1) := ToolChunk(env, model, f, l).value;
    var t := chunks[0].delta;
    assert (ts + [t])[|ts|] == t && forall x | x in ts :: x in ts + [t];
    forall k | k in l1.index ensures exists x :: x in ts + [t] && Carries(x, k) {
      if k in l.index {
        var x :| x in ts && Carries(x, k);
      } else {
        assert Carries(t, k);
      }
    }
    if l1.next == l.next {
      if l.next > 0 { var x :| x in ts && At(x, l.next - 1); }
    } else {
      assert t in ts + [t] && At(t, l1.next - 1);
    }
  }

  ghost predicate Sound(c: Converted) {
    Tracks(c.ledger, Tools(c.out)) && IndexedByCall(Tools(c.out)) && InUse(c.ledger, Tools(c.out))
  }

  lemma SoundStep(env: Env, c: Converted, d: L.Dispatch)
    requires Sound(c)
    ensures Sound(ConvertOne(env, c, d))
  {
    hide Resolve, ToolChunk, Tracks, IndexedByCall, InUse;
    var e := Resolve(env, d);
    if !c.raised && e.Some? && Convert(env, e.value, c.ledger).Some? {
      var (chunks, l1) := Convert(env, e.value, c.ledger).value;
      if IsToolEvent(e.value) {
        var f := Get(e.value.data.fields, ItemKey).fields;
        assert ToolChunk(env, Model(e.value.data.fields), f, c.ledger) == Some((chunks, l1));
        hide Convert;
        LedgerStep(env, Model(e.value.data.fields), f, c.ledger, Tools(c.out));
        StaysInUse(env, Model(e.value.data.fields), f, c.ledger, Tools(c.out));
        assert chunks == [chunks[0]];
        ToolsAppendOne(c.out, chunks[0]);
      } else {
        OtherEvents(env, e.value, c.ledger);
        hide Convert;
        ToolsSkip(c.out, chunks);
      }
    }
  }

  lemma {:induction false} LedgerTracks(env: Env, ds: seq<L.Dispatch>)
    ensures Sound(ConvertAll(env, ds))
    decreases |ds|
  {
    hide ConvertOne;
    if ds != [] {
      LedgerTracks(env, ds[..|ds| - 1]);
      SoundStep(env, ConvertAll(env, ds[..|ds| - 1]), ds[|ds| - 1]);
    }
  }

  /** Over any stream, two tool deltas share an index exactly when they carry the same
      call id; a delta without an id shares its index with none. */
  lemma IndexesIdentifyCalls(env: Env, bytes: seq<Byte>)
    ensures IndexedByCall(Tools(Streamed(env, bytes).0))
  {
    var ds := L.StreamedDispatches(env.text, bytes);
    LedgerTracks(env, ds);
    hide ConvertAll, L.StreamedDispatches, IndexedByCall, Tracks, InUse;
    ToolsWithRole(ConvertAll(env, ds).out);
  }

  lemma {:induction false} ToolsWithRole(chunks: seq<Chunk>)
    ensures Tools(WithRole(chunks)) == Tools(chunks)
    decreases |chunks|
  {
    if chunks != [] {
      var front, last := chunks[..|chunks| - 1], chunks[|chunks| - 1];
      ToolsWithRole(front);
      assert chunks == front + [last];
      WithRoleSnoc(front, last);
      if front == [] {
        assert WithRole(chunks) == ([] + [RoleChunk(last)]) + [last];
        ToolsAppendOne([], RoleChunk(last));
        ToolsAppendOne([] + [RoleChunk(last)], last);
        assert [] + [last] == [last];
        ToolsAppendOne([], last);
      } else {
        assert WithRole(front) + [] == WithRole(front);
        ToolsAppendOne(WithRole(front), last);
        ToolsAppendOne(front, last);
      }
    }
  }

  // ---- What each event becomes ---------------------------------------------

  /** Name and data of a dispatched event: the `event:` field or else `type`; data that is no
      JSON reads as an empty object. A `type` that is a true value but no string has no name. */
  predicate Reads(env: Env, d: L.Dispatch, name: string, data: Json) {
    && data == (if env.loads(d.data).Some? then env.loads(d.data).value else Obj(map[]))
    && if d.event.Some? && d.event.value != "" then name == env.text.strip(d.event.value)
       else if data.Obj? && TypeKey in data.fields && data.fields[TypeKey].Truthy() then
         data.fields[TypeKey].Str? && name == env.text.strip(data.fields[TypeKey].s)
       else name == env.text.strip("")
  }

  /** The events whose conversion raises. */
  predicate Raises(name: string, data: Json) {
    var f := if data.Obj? then data.fields else map[];
    if name == "response.output_text.delta" then
      var item := Get(f, ItemKey);
      !data.Obj?
      || (!Get(f, DeltaKey).Truthy() && item.Obj? && Get(item.fields, ContentKey).Arr?
          && item.fields[ContentKey].items != [] && !item.fields[ContentKey].items[0].Obj?)
    else if name == "response.completed" then !data.Obj? || (RespKey in f && !f[RespKey].Obj?)
    else if name == "response.failed" || name == "response.incomplete" then !data.Obj?
    else if name == "response.output_item.done" then
      !data.Obj? || (Calls(Get(f, ItemKey)) && (IdOf(Get(f, ItemKey)).Arr? || IdOf(Get(f, ItemKey)).Obj?)
                     && IdOf(Get(f, ItemKey)).Truthy())
    else false
  }

  /** A function call item with a name. */
  predicate Calls(item: Json) {
    item.Obj? && Get(item.fields, TypeKey) == Str("function_call") && Get(item.fields, NameKey).Truthy()
  }

  function IdOf(item: Json): Json
    requires item.Obj?
  {
    if Get(item.fields, CallIdKey).Truthy() then Get(item.fields, CallIdKey) else Get(item.fields, IdKey)
  }

  /** The call an item stands for. */
  predicate CallMeans(env: Env, item: Json, call: ToolCall)
    requires item.Obj?
  {
    var arguments := Get(item.fields, ArgumentsKey);
    && call.name == Get(item.fields, NameKey)
    && call.id == (if IdOf(item).Truthy() then Some(IdOf(item)) else None)
    && call.arguments == (if arguments.Str? then arguments.s
                          else if ArgumentsKey !in item.fields then ""
                          else if arguments.Null? then "{}"
                          else env.dumps(arguments))
  }

  /** The index of a call after these: that of the same call before, or else the next free one. */
  ghost predicate Numbered(ts: seq<Delta>, call: ToolCall, index: nat) {
    if exists t :: t in ts && SameId(t, call) then forall t | t in ts && SameId(t, call) :: t.index == index
    else (forall t | t in ts :: t.Tool? ==> t.index < index) && (index > 0 ==> exists t :: t in ts && At(t, index - 1))
  }

  predicate SameId(t: Delta, call: ToolCall) {
    t.Tool? && t.call.id.Some? && call.id.Some? && KeyOf(t.call.id.value) == KeyOf(call.id.value)
  }

  /** The visible error text and the finish that follows it. */
  function Failure(model: Json, message: string): seq<Chunk> {
    [Chunk(model, Content(Str("[BSL] upstream error: " + message)), None), Chunk(model, NoDelta, Some("error"))]
  }

  function FailureText(env: Env, m: Json, otherwise: string): string {
    if !m.Truthy() then otherwise else if m.Str? then m.s else env.pyStr(m)
  }

  /** What an event that does not raise becomes, after the chunks sent before it. */
  ghost predicate Means(env: Env, name: string, data: Json, before: seq<Chunk>, got: seq<Chunk>) {
    var f := if data.Obj? then data.fields else map[];
    var model := GetOr(f, ModelKey, Str("codex"));
    var resp := if RespKey in f then f[RespKey] else data;
    var r := if resp.Obj? then resp.fields else map[];
    if name == "response.output_text.delta" then
      got == [Chunk(model, if Get(f, DeltaKey).Truthy() then Content(Get(f, DeltaKey))
                           else if NestedText(f).Truthy() then Content(NestedText(f)) else NoDelta, None)]
    else if name == "response.reasoning_summary_text.delta" || name == "response.reasoning_text.delta" then
      var delta := Get(f, DeltaKey);
      got == if delta.Str? && delta.s != "" then [Chunk(model, ReasoningText(delta.s), None)] else []
    else if name == "response.output_item.done" then
      if Calls(Get(f, ItemKey)) then
        && |got| == 1 && got[0].model == model && got[0].finish == None && got[0].delta.Tool?
        && CallMeans(env, f[ItemKey], got[0].delta.call)
        && Numbered(Tools(before), got[0].delta.call, got[0].delta.index)
      else got == []
    else if name == "response.completed" then
      var calls := Get(r, OutputKey).Arr?
                   && exists o :: o in r[OutputKey].items && o.Obj? && Get(o.fields, TypeKey) == Str("function_call");
      got == [Chunk(GetOr(r, ModelKey, Str("codex")), NoDelta, Some(if calls then "tool_calls" else "stop"))]
    else if name == "response.failed" || name == "response.incomplete" then
      var details := Get(r, if name == "response.failed" then ErrorKey else DetailsKey);
      var m := if details.Obj? then Get(details.fields, if name == "response.failed" then MessageKey else ReasonKey)
               else Null;
      got == Failure(GetOr(r, ModelKey, Str("codex")), FailureText(env, m, name))
    else if name == "error" then
      var err := if Get(f, ErrorKey).Obj? then f[ErrorKey] else data;
      var m := if !err.Obj? then err
               else if Get(err.fields, MessageKey).Truthy() then Get(err.fields, MessageKey)
               else Get(err.fields, CodeKey);
      got == Failure(model, FailureText(env, m, "error"))
    else got == []
  }

  /** The text of the first entry of an item's content. */
  function NestedText(f: map<Key, Json>): Json {
    var item := Get(f, ItemKey);
    if item.Obj? && Get(item.fields, ContentKey).Arr? && item.fields[ContentKey].items != []
       && item.fields[ContentKey].items[0].Obj? then
      Get(item.fields[ContentKey].items[0].fields, TextKey)
    else Null
  }

  lemma ResolveReads(env: Env, d: L.Dispatch)
    ensures var e := Resolve(env, d);
            && (e.Some? ==> Reads(env, d, e.value.name, e.value.data) && e.value.kind == KindOf(e.value.name))
            && (forall name, data | Reads(env, d, name, data) ::
                  e.Some? && e.value.name == name && e.value.data == data)
  {
    hide KindOf;
  }

  lemma CallNumbered(env: Env, model: Json, f: map<Key, Json>, l: Ledger, ts: seq<Delta>)
    requires Tracks(l, ts) && InUse(l, ts) && ToolChunk(env, model, f, l).Some?
    ensures var t := ToolChunk(env, model, f, l).value.0[0].delta; t.Tool? && Numbered(ts, t.call, t.index)
  {
    hide CallOf;
    ToolChunkIs(env, model, f, l);
    hide ToolChunk;
    var t := ToolChunk(env, model, f, l).value.0[0].delta;
    if t.call.id.Some? && KeyOf(t.call.id.value) in l.index {
      var x :| x in ts && Carries(x, KeyOf(t.call.id.value));
      assert SameId(x, t.call);
    }
  }

  lemma CallOfMeans(env: Env, item: Json)
    requires item.Obj?
    ensures CallMeans(env, item, CallOf(env, item.fields))
  {}

  /** The conversion of an event with this kind raises, or means, as its name says. */
  ghost predicate Converts(env: Env, e: Event, l: Ledger, before: seq<Chunk>) {
    var r := Convert(env, e, l);
    && (r.None? <==> Raises(e.name, e.data))
    && (r.Some? ==> Means(env, e.name, e.data, before, r.value.0))
  }

  lemma ToolEventMeans(env: Env, e: Event, l: Ledger, before: seq<Chunk>)
    requires e.name == "response.output_item.done" && e.kind == ItemDone
    requires Tracks(l, Tools(before)) && InUse(l, Tools(before))
    ensures Converts(env, e, l, before)
  {
    hide Tracks, InUse, CallMeans, Numbered, Tools;
    if e.data.Obj? && Calls(Get(e.data.fields, ItemKey)) {
      var item := Get(e.data.fields, ItemKey);
      CallOfMeans(env, item);
      if ToolChunk(env, Model(e.data.fields), item.fields, l).Some? {
        CallNumbered(env, Model(e.data.fields), item.fields, l, Tools(before));
        ToolChunkIs(env, Model(e.data.fields), item.fields, l);
      }
    }
  }

  lemma TextEventMeans(env: Env, e: Event, l: Ledger, before: seq<Chunk>)
    requires e.name == "response.output_text.delta" && e.kind == TextDelta
    ensures Converts(env, e, l, before)
  {
    hide Numbered, Tools;
  }

  lemma FinishMeans(env: Env, e: Event, l: Ledger, before: seq<Chunk>)
    requires e.name == "response.completed" && e.kind == Completed
    ensures Converts(env, e, l, before)
  {
    hide Numbered, Tools;
  }

  lemma FailureMeans(env: Env, e: Event, l: Ledger, before: seq<Chunk>)
    requires (e.name == "response.failed" && e.kind == Failed)
          || (e.name == "response.incomplete" && e.kind == Incomplete)
    ensures Converts(env, e, l, before)
  {
    hide Numbered, Tools;
  }

  lemma ErrorMeans(env: Env, e: Event, l: Ledger, before: seq<Chunk>)
    requires e.name == "error" && e.kind == ErrorEvent
    ensures Converts(env, e, l, before)
  {
    hide Numbered, Tools;
  }

  lemma ReasoningMeans(env: Env, e: Event, l: Ledger, before: seq<Chunk>)
    requires e.name == "response.reasoning_summary_text.delta" || e.name == "response.reasoning_text.delta"
    requires e.kind == ReasoningDelta
    ensures Converts(env, e, l, before)
  {
    hide Numbered, Tools;
  }

  /** The names whose events are converted. */
  const CONVERTED: set<string> :=
    {"response.output_text.delta", "response.output_item.done", "response.completed", "response.failed",
     "response.incomplete", "error", "response.reasoning_summary_text.delta", "response.reasoning_text.delta"}

  lemma IgnoredMeans(env: Env, e: Event, l: Ledger, before: seq<Chunk>)
    requires e.kind == KindOf(e.name) && e.name !in CONVERTED
    ensures Converts(env, e, l, before)
  {
    hide ToolChunk, CallMeans, Numbered, Tools;
  }

  lemma EventMeans(env: Env, e: Event, l: Ledger, before: seq<Chunk>)
    requires e.kind == KindOf(e.name) && Tracks(l, Tools(before)) && InUse(l, Tools(before))
    ensures Converts(env, e, l, before)
  {
    hide Converts, Tracks, InUse, Tools;
    if e.name !in CONVERTED {
      IgnoredMeans(env, e, l, before);
    } else if e.name == "response.output_text.delta" {
      TextEventMeans(env, e, l, before);
    } else if e.name == "response.output_item.done" {
      ToolEventMeans(env, e, l, before);
    } else if e.name == "response.completed" {
      FinishMeans(env, e, l, before);
    } else if e.name == "response.failed" || e.name == "response.incomplete" {
      FailureMeans(env, e, l, before);
    } else if e.name == "error" {
      ErrorMeans(env, e, l, before);
    } else {
      ReasoningMeans(env, e, l, before);
    }
  }

  /** The events of a stream, read one by one, and the chunks each one became: up to the first
      that raises, or to the end. */
  ghost predicate Story(env: Env, ds: seq<L.Dispatch>, evs: seq<(string, Json)>, parts: seq<seq<Chunk>>, raised: bool) {
    && |evs| == |parts| <= |ds|
    && (forall i | 0 <= i < |evs| ::
          && Reads(env, ds[i], evs[i].0, evs[i].1) && !Raises(evs[i].0, evs[i].1)
          && Means(env, evs[i].0, evs[i].1, Flatten(parts[..i]), parts[i]))
    && (raised <==> |evs| < |ds|)
    && (raised ==> forall name, data | Reads(env, ds[|evs|], name, data) :: Raises(name, data))
  }

  ghost predicate Tells(env: Env, ds: seq<L.Dispatch>, evs: seq<(string, Json)>, parts: seq<seq<Chunk>>) {
    var c := ConvertAll(env, ds);
    && Story(env, ds, evs, parts, c.raised) && c.out == Flatten(parts)
  }

  lemma StorySnoc(env: Env, ds: seq<L.Dispatch>, d: L.Dispatch, evs: seq<(string, Json)>, parts: seq<seq<Chunk>>,
                  e: (string, Json), part: seq<Chunk>)
    requires Story(env, ds, evs, parts, false)
    requires Reads(env, d, e.0, e.1) && !Raises(e.0, e.1) && Means(env, e.0, e.1, Flatten(parts), part)
    ensures Story(env, ds + [d], evs + [e], parts + [part], false)
  {
    hide Reads, Raises, Means, Flatten;
    forall i | 0 <= i <= |evs| ensures (parts + [part])[..i] == parts[..i] {}
    assert parts[..|parts|] == parts;
  }

  lemma StoryEnds(env: Env, ds: seq<L.Dispatch>, d: L.Dispatch, evs: seq<(string, Json)>, parts: seq<seq<Chunk>>,
                  raised: bool)
    requires Story(env, ds, evs, parts, raised)
    requires !raised ==> forall name, data | Reads(env, d, name, data) :: Raises(name, data)
    ensures Story(env, ds + [d], evs, parts, true)
  {
    hide Reads, Raises, Means, Flatten;
  }

  lemma {:induction false} StoryOf(env: Env, ds: seq<L.Dispatch>)
    returns (evs: seq<(string, Json)>, parts: seq<seq<Chunk>>)
    ensures Tells(env, ds, evs, parts)
    decreases |ds|
  {
    evs, parts := [], [];
    if ds == [] {
      NothingTold(env);
    } else {
      hide Convert, Resolve, Story, Tracks, InUse, Reads, Raises, Means, Flatten, Tools;
      var front, d := ds[..|ds| - 1], ds[|ds| - 1];
      assert ds == front + [d];
      evs, parts := StoryOf(env, front);
      var c := ConvertAll(env, front);
      LedgerTracks(env, front);
      ResolveReads(env, d);
      var e := Resolve(env, d);
      if c.raised || e.None? {
        StoryEnds(env, front, d, evs, parts, c.raised);
      } else {
        EventMeans(env, e.value, c.ledger, c.out);
        var r := Convert(env, e.value, c.ledger);
        if r.None? {
          StoryEnds(env, front, d, evs, parts, false);
        } else {
          StorySnoc(env, front, d, evs, parts, (e.value.name, e.value.data), r.value.0);
          FlattenSnoc(parts, r.value.0);
          evs, parts := evs + [(e.value.name, e.value.data)], parts + [r.value.0];
        }
      }
    }
  }

  lemma NothingTold(env: Env)
    ensures Tells(env, [], [], [])
  {}

  /** For every byte string: event by event, up to the first that raises, each becomes the chunks
      its literal name calls for, and they go out in order behind one role chunk. */
  lemma StreamMeans(env: Env, bytes: seq<Byte>) returns (evs: seq<(string, Json)>, parts: seq<seq<Chunk>>)
    ensures var (chunks, raised) := Streamed(env, bytes);
            var all := Flatten(parts);
            && Story(env, L.StreamedDispatches(env.text, bytes), evs, parts, raised)
            && chunks == if all == [] then [] else [Chunk(all[0].model, Role, None)] + all
  {
    hide Story, ConvertAll, Flatten, L.StreamedDispatches;
    evs, parts := StoryOf(env, L.StreamedDispatches(env.text, bytes));
  }

  /** For every list of events, written with either line end and followed by any unfinished line:
      what is sent is the story of exactly those events that carry data. */
  lemma WrittenStreamMeans(env: Env, encode: string -> seq<Byte>, crlf: bool, events: seq<seq<L.Field>>,
                           tail: seq<Byte>)
    returns (evs: seq<(string, Json)>, parts: seq<seq<Chunk>>)
    requires L.Encodes(env.text, encode) && L.AllWritable(events) && 10 !in tail
    ensures var (chunks, raised) := Streamed(env, L.Written(encode, crlf, events) + tail);
            var all := Flatten(parts);
            && Story(env, L.Sent(env.text, events), evs, parts, raised)
            && chunks == if all == [] then [] else [Chunk(all[0].model, Role, None)] + all
  {
    hide *;
    L.WrittenIsRead(env.text, encode, crlf, events, tail);
    evs, parts := StreamMeans(env, L.Written(encode, crlf, events) + tail);
  }

  // ---- The streaming loop --------------------------------------------------

  lemma WithRoleSnoc(a: seq<Chunk>, c: Chunk)
    ensures WithRole(a + [c]) == WithRole(a) + (if a == [] then [RoleChunk(c)] else []) + [c]
  {
    if a != [] { assert (a + [c])[0] == a[0]; }
  }

  /** Sends the chunks of one converted event, with the role chunk if none went out before. */
  method Send(out: seq<Chunk>, chunks: seq<Chunk>, ghost before: seq<Chunk>) returns (r: seq<Chunk>)
    requires out == WithRole(before)
    ensures r == WithRole(before + chunks)
  {
    r := out;
    var first := out == [];
    assert before + chunks[..0] == before;
    hide WithRole, RoleChunk;
    for k := 0 to |chunks|
      invariant r == WithRole(before + chunks[..k]) && first == (before + chunks[..k] == [])
    {
      ghost var sent := before + chunks[..k];
      assert before + chunks[..k + 1] == sent + [chunks[k]];
      WithRoleSnoc(sent, chunks[k]);
      if first {
        r := r + [RoleChunk(chunks[k])];
        first := false;
      } else {
        assert r + [] == r;
      }
      r := r + [chunks[k]];
    }
    assert chunks[..|chunks|] == chunks;
  }

  /** The streaming converter over any chunks: a function of their concatenation alone. */
  method ResponsesSseToOpenAiSse(env: Env, chunks: seq<seq<Byte>>) returns (out: seq<Chunk>, raised: bool)
    ensures (out, raised) == Streamed(env, Flatten(chunks))
  {
    hide L.SplitLines, L.FindLf, L.Lines, L.Decoded, L.Concat, L.ReadTo;
    hide ConvertAll, Resolve, Convert, Flatten, WithRole;
    var buf: seq<Byte> := [];
    var currentEvent: Option<string> := None;
    var data: seq<string> := [];
    var ledger := FRESH;
    out := [];
    ghost var lines: seq<seq<Byte>> := [];
    ghost var sent: seq<L.Dispatch> := [];
    L.ReadStarts(chunks);
    Starts(env);
    for i := 0 to |chunks|
      invariant L.ReadTo(chunks, i, lines, buf)
      invariant L.FindLf(buf) == |buf|
      invariant L.Lines(env.text, lines) == L.State(currentEvent, data, sent)
      invariant var c := ConvertAll(env, sent); !c.raised && c.ledger == ledger && out == WithRole(c.out)
    {
      L.ReadChunk(chunks, i, lines, buf);
      buf := buf + chunks[i];
      while L.FindLf(buf) < |buf|
        invariant L.ReadTo(chunks, i + 1, lines, buf)
        invariant L.Lines(env.text, lines) == L.State(currentEvent, data, sent)
        invariant var c := ConvertAll(env, sent); !c.raised && c.ledger == ledger && out == WithRole(c.out)
        decreases |buf|
      {
        var idx := L.FindLf(buf);
        L.ReadLine(chunks, i + 1, lines, buf);
        L.LinesSnoc(env.text, lines, buf[..idx]);
        var line := L.Decoded(env.text, buf[..idx]);
        lines := lines + [buf[..idx]];
        buf := buf[idx + 1..];
        if L.EVENT <= line {
          currentEvent := Some(env.text.strip(line[6..]));
        } else if L.DATA <= line {
          data := data + [L.DropSpace(line[5..])];
        } else if line == "" {
          if data != [] {
            var d := L.Dispatch(currentEvent, L.Concat(data));
            ConvertSnoc(env, sent, d);
            ghost var c := ConvertAll(env, sent);
            sent := sent + [d];
            var e := Resolve(env, d);
            if e.None? { StopsHere(env, chunks, i + 1, lines, buf); return out, true; }
            var converted := Convert(env, e.value, ledger);
            if converted.None? { StopsHere(env, chunks, i + 1, lines, buf); return out, true; }
            out := Send(out, converted.value.0, c.out);
            ledger := converted.value.1;
          }
          currentEvent, data := None, [];
        }
      }
    }
    L.ReadEnds(chunks, lines, buf);
    raised := false;
    if data != [] {
      var d := L.Dispatch(currentEvent, L.Concat(data));
      ConvertSnoc(env, sent, d);
      var e := Resolve(env, d);
      if e.None? { return out, true; }
      var converted := Convert(env, e.value, ledger);
      if converted.None? { return out, true; }
      out := Send(out, converted.value.0, ConvertAll(env, sent).out);
    }
  }

  lemma Starts(env: Env)
    ensures L.Lines(env.text, []) == L.State(None, [], [])
    ensures ConvertAll(env, []) == Converted([], FRESH, false)
    ensures WithRole([]) == []
    ensures L.FindLf([]) == 0
  {}

  lemma StopsHere(env: Env, chunks: seq<seq<Byte>>, i: nat, lines: seq<seq<Byte>>, buf: seq<Byte>)
    requires i <= |chunks| && L.ReadTo(chunks, i, lines, buf)
    requires ConvertAll(env, L.Lines(env.text, lines).sent).raised
    ensures var c := ConvertAll(env, L.Lines(env.text, lines).sent);
            Streamed(env, Flatten(chunks)) == (WithRole(c.out), true)
  {
    hide L.SplitLines, L.Lines, ConvertAll, WithRole;
    RaisedIsFinal(env, lines, L.SplitLines(buf + Flatten(chunks[i..])).0);
  }
}
