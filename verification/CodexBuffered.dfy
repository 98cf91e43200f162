/**
 The buffering consumer (app/codex_adapter.py, `assemble_responses_from_sse`) and the
 message built from its result (`responses_json_to_openai`).
 */
module CodexBuffered {
  import opened Prelude
  import opened Json
  import opened CodexStream
  import L = SseLines

  type Fields = map<Key, Json>

  // ---- Consuming events ----------------------------------------------------

  /** The accumulators of the assembler. */
  datatype Acc = Acc(completed: Option<Json>, last: Option<Json>, deltas: seq<string>, done: seq<string>,
                     reasoning: seq<string>, calls: seq<Fields>, error: Json)

  const EMPTY := Acc(None, None, [], [], [], [], Null)

  function TextIn(j: Json, k: Key): seq<string> {
    if j.Obj? && Get(j.fields, k).Str? && Get(j.fields, k).s != "" then [Get(j.fields, k).s] else []
  }

  /** The non-empty `text` strings of a list's objects. */
  function TextsOf(items: seq<Json>): seq<string> {
    if items == [] then [] else TextsOf(items[..|items| - 1]) + TextIn(items[|items| - 1], TextKey)
  }

  /** The response an event carries, or its whole data, or an empty object. */
  function ResponseOf(data: Json): Json {
    var r := if data.Obj? then Get(data.fields, RespKey) else Null;
    if r.Truthy() then r else if data.Obj? then data else Obj(map[])
  }

  function WithStatus(r: Json, status: string): Json
    requires r.Obj?
  {
    if Get(r.fields, StatusKey).Truthy() then r else Obj(r.fields[StatusKey := Str(status)])
  }

  function ConsumeItem(a: Acc, data: Json): Option<Acc> {
    var item := if data.Obj? then Get(data.fields, ItemKey) else Null;
    if !item.Obj? then Some(a)
    else if IsFunctionCall(item) then Some(a.(calls := a.calls + [item.fields]))
    else if Get(item.fields, TypeKey) == Str("message") then
      var parts := Elements(Get(item.fields, ContentKey));
      if parts.None? then None else Some(a.(done := a.done + TextsOf(parts.value)))
    else if Get(item.fields, TypeKey) == Str("reasoning") then
      var parts := Elements(Get(item.fields, SummaryKey));
      if parts.None? then None else Some(a.(reasoning := a.reasoning + TextsOf(parts.value)))
    else Some(a)
  }

  /** `_consume`: one event into the accumulators; None when it raises. */
  function Consume(acc: Acc, e: Event): Option<Acc> {
    var data := e.data;
    var a := if data.Obj? && Get(data.fields, RespKey).Obj? then acc.(last := Some(data.fields[RespKey])) else acc;
    match e.kind
    case TextDelta => Some(a.(deltas := a.deltas + TextIn(data, DeltaKey)))
    case TextDone => Some(a.(done := a.done + TextIn(data, TextKey)))
    case PartDone => Some(a.(done := a.done + if data.Obj? then TextIn(Get(data.fields, PartKey), TextKey) else []))
    case ReasoningDelta => Some(a.(reasoning := a.reasoning + TextIn(data, DeltaKey)))
    case ReasoningDone => Some(if a.reasoning == [] then a.(reasoning := TextIn(data, TextKey)) else a)
    case ItemDone => ConsumeItem(a, data)
    case Completed => Some(a.(completed := Some(ResponseOf(data))))
    case Done => Some(a.(completed := Some(ResponseOf(data))))
    case Failed =>
      Some(if ResponseOf(data).Obj? then a.(completed := Some(WithStatus(ResponseOf(data), "failed"))) else a)
    case Incomplete =>
      Some(if ResponseOf(data).Obj? then a.(completed := Some(WithStatus(ResponseOf(data), "incomplete"))) else a)
    case ErrorEvent =>
      var err := if data.Obj? then Get(data.fields, ErrorKey) else Null;
      Some(a.(error := if err.Truthy() then err else data))
    case Ignored => Some(a)
  }

  function ConsumeOne(env: Env, acc: Option<Acc>, d: L.Dispatch): Option<Acc> {
    if acc.None? then None
    else
      match Resolve(env, d)
      case None => None
      case Some(e) => Consume(acc.value, e)
  }

  function ConsumeAll(env: Env, ds: seq<L.Dispatch>): Option<Acc> {
    if ds == [] then Some(EMPTY) else ConsumeOne(env, ConsumeAll(env, ds[..|ds| - 1]), ds[|ds| - 1])
  }

  // ---- The completed response ----------------------------------------------

  function OutputList(f: Fields): seq<Json> {
    if Get(f, OutputKey).Arr? then Get(f, OutputKey).items else []
  }

  predicate IsReasoning(o: Json) {
    o.Obj? && Get(o.fields, TypeKey) == Str("reasoning")
  }

  function Objects(items: seq<Json>): seq<Json> {
    if items == [] then []
    else Objects(items[..|items| - 1]) + if items[|items| - 1].Obj? then [items[|items| - 1]] else []
  }

  function ReasoningItem(texts: seq<string>): Json {
    Obj(map[TypeKey := Str("reasoning"),
            SummaryKey := Arr([Obj(map[TypeKey := Str("summary_text"), TextKey := Str(L.Concat(texts))])])])
  }

  function MessageItem(texts: seq<string>): Json {
    Obj(map[IdKey := Str("msg-bsl-assembled"), TypeKey := Str("message"), OtherKey("role") := Str("assistant"),
            StatusKey := Str("completed"),
            ContentKey := Arr([Obj(map[TypeKey := Str("output_text"), TextKey := Str(L.Concat(texts)),
                                       OtherKey("annotations") := Arr([])])])])
  }

  function CallIdOf(f: Fields): Json {
    FirstTrue(Get(f, CallIdKey), Get(f, IdKey))
  }

  /** The accumulated calls not already in `existing`; None for an unhashable id. */
  function NewCalls(calls: seq<Fields>, existing: set<Json>): Option<seq<Json>> {
    if calls == [] then Some([])
    else
      var front, f := NewCalls(calls[..|calls| - 1], existing), calls[|calls| - 1];
      var key := CallIdOf(f);
      if front.None? || !Hashable(key) then None
      else Some(front.value + if key == Null || KeyOf(key) !in existing then [Obj(f)] else [])
  }

  function Existing(output: seq<Json>): Option<set<Json>> {
    if output == [] then Some({})
    else
      var front, o := Existing(output[..|output| - 1]), output[|output| - 1];
      if front.None? then None
      else if o.Obj? && Get(o.fields, TypeKey) == Str("function_call") then
        if Hashable(CallIdOf(o.fields)) then Some(front.value + {KeyOf(CallIdOf(o.fields))}) else None
      else front
  }

  function GraftReasoning(a: Acc, f: Fields): Fields {
    var output := OutputList(f);
    if a.reasoning == [] || exists o | o in output :: IsReasoning(o) then f
    else f[OutputKey := Arr(output + [ReasoningItem(a.reasoning)])]
  }

  /** Text sent as deltas, or else the last text reported as done. */
  function TextParts(a: Acc): seq<string> {
    if a.deltas == [] && a.done != [] then [a.done[|a.done| - 1]] else a.deltas
  }

  function GraftText(a: Acc, f: Fields): Fields {
    if TextParts(a) == [] then f
    else f[OutputKey := Arr([MessageItem(TextParts(a))] + Objects(OutputList(f)))]
  }

  function GraftCalls(a: Acc, f: Fields): Option<Fields> {
    if a.calls == [] then Some(f)
    else
      var output := OutputList(f);
      var existing := Existing(output);
      if existing.None? then None
      else
        var added := NewCalls(a.calls, existing.value);
        if added.None? then None else Some(f[OutputKey := Arr(output + added.value)])
  }

  const NOTHING_RECEIVED := Obj(map[IdKey := Str("codex-empty"), OutputKey := Arr([]), OtherKey("usage") := Obj(map[]),
                                    StatusKey := Str("completed")])

  /** The response object before anything is grafted onto it. */
  function BaseResponse(a: Acc): Json {
    var base := if a.completed.Some? then a.completed.value
                else if a.last.Some? then a.last.value
                else NOTHING_RECEIVED;
    if a.error.Truthy() && base.Obj? && !Get(base.fields, ErrorKey).Truthy() then
      Obj(base.fields[ErrorKey := a.error][StatusKey := Str("failed")])
    else base
  }

  function Assembled(a: Acc): Option<Json> {
    var base := BaseResponse(a);
    if !base.Obj? then Some(base)
    else
      match GraftCalls(a, GraftText(a, GraftReasoning(a, base.fields)))
      case None => None
      case Some(f) => Some(Obj(f))
  }

  // ---- The final message ---------------------------------------------------

  datatype Message = Message(content: string, toolCalls: seq<ToolCall>)

  predicate IsTextPart(c: Json) {
    c.Obj? && (Get(c.fields, TypeKey) == Str("output_text") || Get(c.fields, TypeKey) == Str("text"))
    && GetOr(c.fields, TextKey, Str("")).Truthy()
  }

  /** The text of a message item's parts; None when a true text is not a string. */
  function PartText(parts: seq<Json>): Option<string> {
    if parts == [] then Some("")
    else
      var front, c := PartText(parts[..|parts| - 1]), parts[|parts| - 1];
      if front.None? then None
      else if !IsTextPart(c) then front
      else if c.fields[TextKey].Str? then Some(front.value + c.fields[TextKey].s) else None
  }

  function ReadItem(env: Env, m: Message, item: Json): Option<Message> {
    if !item.Obj? then Some(m)
    else if Get(item.fields, TypeKey) == Str("message") then
      var content := GetOr(item.fields, ContentKey, Arr([]));
      if Iterated(content).None? then None
      else
        var text := PartText(Iterated(content).value);
        if text.None? then None else Some(m.(content := m.content + text.value))
    else if IsFunctionCall(item) then Some(m.(toolCalls := m.toolCalls + [CallOf(env, item.fields)]))
    else Some(m)
  }

  function ReadItems(env: Env, items: seq<Json>): Option<Message> {
    if items == [] then Some(Message("", []))
    else
      match ReadItems(env, items[..|items| - 1])
      case None => None
      case Some(m) => ReadItem(env, m, items[|items| - 1])
  }

  /** `responses_json_to_openai`: content and tool calls of the chat message. */
  function ToOpenAi(env: Env, resp: Json): Option<Message> {
    if !resp.Obj? then None
    else
      var output := GetOr(resp.fields, OutputKey, Arr([]));
      if Iterated(output).None? then None else ReadItems(env, Iterated(output).value)
  }

  method ResponsesJsonToOpenAi(env: Env, resp: Json) returns (m: Option<Message>)
    ensures m == ToOpenAi(env, resp)
  {
    if !resp.Obj? { return None; }
    var output := GetOr(resp.fields, OutputKey, Arr([]));
    if Iterated(output).None? { return None; }
    var items := Iterated(output).value;
    var textParts: string := "";
    var toolCalls: seq<ToolCall> := [];
    hide ReadItem, PartText, CallOf;
    for i := 0 to |items|
      invariant ReadItems(env, items[..i]) == Some(Message(textParts, toolCalls))
    {
      assert items[..i + 1][..i] == items[..i];
      var r := ReadItem(env, Message(textParts, toolCalls), items[i]);
      if r.None? {
        ReadFails(env, items, i + 1);
        return None;
      }
      textParts, toolCalls := r.value.content, r.value.toolCalls;
    }
    assert items[..|items|] == items;
    m := Some(Message(textParts, toolCalls));
  }

  lemma ReadFails(env: Env, items: seq<Json>, k: nat)
    requires k <= |items| && ReadItems(env, items[..k]).None?
    ensures ReadItems(env, items).None?
    decreases |items| - k
  {
    hide ReadItem;
    if k == |items| {
      assert items[..k] == items;
    } else {
      assert items[..k + 1][..k] == items[..k];
      ReadFails(env, items, k + 1);
    }
  }

  /** The chat message of a byte string; None when some step raises. */
  function Buffered(env: Env, bytes: seq<Byte>): Option<Message> {
    match ConsumeAll(env, L.BufferedDispatches(env.text, bytes))
    case None => None
    case Some(acc) =>
      match Assembled(acc)
      case None => None
      case Some(resp) => ToOpenAi(env, resp)
  }

  /** One line into the buffering consumer's state. */
  method ProcessLine(env: Env, line: string, event: Option<string>, data: seq<string>, acc: Option<Acc>,
                     ghost sent: seq<L.Dispatch>)
    returns (event': Option<string>, data': seq<string>, acc': Option<Acc>)
    requires acc == ConsumeAll(env, sent)
    ensures var next := L.Line(env.text, L.State(event, data, sent), line);
            event' == next.event && data' == next.data && acc' == ConsumeAll(env, next.sent)
  {
    hide L.Concat, ConsumeOne;
    event', data', acc' := event, data, acc;
    if L.EVENT <= line {
      event' := Some(env.text.strip(line[6..]));
    } else if L.DATA <= line {
      data' := data + [L.DropSpace(line[5..])];
    } else if line == "" {
      if data != [] {
        var d := L.Dispatch(event, L.Concat(data));
        assert (sent + [d])[..|sent|] == sent;
        acc' := ConsumeOne(env, acc, d);
      }
      event', data' := None, [];
    }
  }

  /** The buffering consumer over any chunks: a function of their concatenation alone. */
  method AssembleResponsesFromSse(env: Env, chunks: seq<seq<Byte>>) returns (m: Option<Message>)
    ensures m == Buffered(env, Flatten(chunks))
  {
    hide L.SplitLines, L.FindLf, L.Lines, L.Line, L.Decoded, ConsumeAll, ConsumeOne, L.Concat, L.ReadTo,
         Flatten, Assembled, ToOpenAi;
    var buf: seq<Byte> := [];
    var currentEvent: Option<string> := None;
    var data: seq<string> := [];
    var acc := Some(EMPTY);
    ghost var lines: seq<seq<Byte>> := [];
    ghost var sent: seq<L.Dispatch> := [];
    L.ReadStarts(chunks);
    NothingRead(env);
    for i := 0 to |chunks|
      invariant L.ReadTo(chunks, i, lines, buf)
      invariant L.FindLf(buf) == |buf|
      invariant L.Lines(env.text, lines) == L.State(currentEvent, data, sent)
      invariant acc == ConsumeAll(env, sent)
    {
      L.ReadChunk(chunks, i, lines, buf);
      buf := buf + chunks[i];
      while L.FindLf(buf) < |buf|
        invariant L.ReadTo(chunks, i + 1, lines, buf)
        invariant L.Lines(env.text, lines) == L.State(currentEvent, data, sent)
        invariant acc == ConsumeAll(env, sent)
        decreases |buf|
      {
        var idx := L.FindLf(buf);
        L.ReadLine(chunks, i + 1, lines, buf);
        L.LinesSnoc(env.text, lines, buf[..idx]);
        lines := lines + [buf[..idx]];
        ghost var next := L.Line(env.text, L.State(currentEvent, data, sent), L.Decoded(env.text, buf[..idx]));
        currentEvent, data, acc := ProcessLine(env, L.Decoded(env.text, buf[..idx]), currentEvent, data, acc, sent);
        sent := next.sent;
        buf := buf[idx + 1..];
      }
    }
    L.ReadEnds(chunks, lines, buf);
    if buf != [] {
      L.LinesSnoc(env.text, lines, buf);
      lines := lines + [buf];
      ghost var next := L.Line(env.text, L.State(currentEvent, data, sent), L.Decoded(env.text, buf));
      currentEvent, data, acc := ProcessLine(env, L.Decoded(env.text, buf), currentEvent, data, acc, sent);
      sent := next.sent;
    }
    if data != [] {
      var d := L.Dispatch(currentEvent, L.Concat(data));
      ConsumeSnoc(env, sent, d);
      acc := ConsumeOne(env, acc, d);
    }
    if acc.None? { return None; }
    var resp := Assembled(acc.value);
    if resp.None? { return None; }
    m := ResponsesJsonToOpenAi(env, resp.value);
  }

  lemma ConsumeSnoc(env: Env, ds: seq<L.Dispatch>, d: L.Dispatch)
    ensures ConsumeAll(env, ds + [d]) == ConsumeOne(env, ConsumeAll(env, ds), d)
  {
    hide ConsumeOne;
    assert (ds + [d])[..|ds|] == ds;
  }

  lemma NothingRead(env: Env)
    ensures L.Lines(env.text, []) == L.State(None, [], [])
    ensures ConsumeAll(env, []) == Some(EMPTY)
    ensures L.FindLf([]) == 0
  {}
}
