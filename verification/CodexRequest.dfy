/**
 Two ways from a chat history to Responses input: the direct converter
 (app/codex_adapter.py, `openai_to_responses`) and the canonical path
 (app/normalizer_v2.py, `_ingress_openai_chat` then `_egress_responses`), and
 exactly which messages they agree on.
 */
module CodexRequest {
  import opened Prelude
  import R = Responses

  /** The value of an "arguments" key; `Json` is a value that is neither null nor a string,
      given by its `json.dumps` text. */
  datatype Arg = Absent | Null | Str(text: string) | Json(text: string)

  /** Name and arguments may sit at the top of a call or inside its `function`. */
  datatype ToolCall = ToolCall(id: Option<string>, callId: Option<string>, fnName: Option<string>,
                               topName: Option<string>, fnArguments: Arg, topArguments: Arg)

  /** Content is a string; absent content reads as empty, an absent role as "". */
  datatype ChatMessage = ChatMessage(role: string, content: string, toolCallId: Option<string>,
                                     toolCalls: seq<ToolCall>)

  predicate Filled(s: Option<string>) {
    s.Some? && s.value != ""
  }

  // ---- The direct converter ------------------------------------------------

  datatype DirectItem =
    | Said(role: string, content: string)
    | Call(callId: string, name: string, arguments: string)
    | Output(callId: string, output: string)

  const TOOL_RESULT := "[tool result]\n"

  function CallName(tc: ToolCall): Option<string> {
    if Filled(tc.fnName) then tc.fnName else tc.topName
  }

  function CallId(tc: ToolCall, idx: nat): string {
    if Filled(tc.id) then tc.id.value else if Filled(tc.callId) then tc.callId.value else "call_" + Decimal(idx)
  }

  /** The arguments the direct converter sends. */
  function Arguments(tc: ToolCall): string {
    match if tc.fnArguments.Absent? then tc.topArguments else tc.fnArguments
    case Str(text) => text
    case Json(text) => text
    case _ => "{}"
  }

  /** The calls from the `idx`-th on; one without a name is skipped. */
  function DirectCalls(digest: string -> string, calls: seq<ToolCall>, idx: nat): seq<DirectItem>
    requires idx <= |calls|
    decreases |calls| - idx
  {
    if idx == |calls| then []
    else
      var rest := DirectCalls(digest, calls, idx + 1);
      if !Filled(CallName(calls[idx])) then rest
      else [Call(R.Bound(digest, CallId(calls[idx], idx)), CallName(calls[idx]).value, Arguments(calls[idx]))] + rest
  }

  function DirectMessage(digest: string -> string, m: ChatMessage): seq<DirectItem> {
    if m.role == "system" then []
    else if m.role == "tool" || m.role == "function" then
      if Filled(m.toolCallId) then [Output(R.Bound(digest, m.toolCallId.value), m.content)]
      else [Said("user", TOOL_RESULT + m.content)]
    else if m.role == "assistant" then
      if m.toolCalls == [] then [Said("assistant", m.content)]
      else (if m.content != "" then [Said("assistant", m.content)] else []) + DirectCalls(digest, m.toolCalls, 0)
    else [Said(if m.role == "developer" then "developer" else "user", m.content)]
  }

  function Direct(digest: string -> string, ms: seq<ChatMessage>): seq<DirectItem> {
    if ms == [] then [] else Direct(digest, ms[..|ms| - 1]) + DirectMessage(digest, ms[|ms| - 1])
  }

  /** The `tool_calls` loop of an assistant message. */
  method ToolCallItems(digest: string -> string, calls: seq<ToolCall>) returns (items: seq<DirectItem>)
    ensures items == DirectCalls(digest, calls, 0)
  {
    hide R.Bound, Decimal, CallId, CallName;
    items := [];
    for idx := 0 to |calls|
      invariant DirectCalls(digest, calls, 0) == items + DirectCalls(digest, calls, idx)
    {
      var tc := calls[idx];
      if Filled(CallName(tc)) {
        var args := tc.fnArguments;
        if args.Absent? { args := tc.topArguments; }
        var text := "{}";
        if args.Str? || args.Json? { text := args.text; }
        var item := Call(R.Bound(digest, CallId(tc, idx)), CallName(tc).value, text);
        Assoc(items, [item], DirectCalls(digest, calls, idx + 1));
        items := items + [item];
      }
    }
    assert items + [] == items;
  }

  lemma DirectTakes(digest: string -> string, ms: seq<ChatMessage>, i: nat)
    requires i < |ms|
    ensures Direct(digest, ms[..i + 1]) == Direct(digest, ms[..i]) + DirectMessage(digest, ms[i])
  {
    hide DirectMessage;
    assert ms[..i + 1][..i] == ms[..i];
  }

  /** The texts of the system messages, in order. */
  function SystemTexts(ms: seq<ChatMessage>): seq<string> {
    if ms == [] then []
    else
      var last := ms[|ms| - 1];
      SystemTexts(ms[..|ms| - 1]) + if last.role == "system" then [last.content] else []
  }

  const BLANK_LINE := "\n\n"

  function JoinLines(texts: seq<string>): string {
    if texts == [] then ""
    else if |texts| == 1 then texts[0]
    else JoinLines(texts[..|texts| - 1]) + BLANK_LINE + texts[|texts| - 1]
  }

  lemma SystemTakes(ms: seq<ChatMessage>, i: nat)
    requires i < |ms|
    ensures SystemTexts(ms[..i + 1]) == SystemTexts(ms[..i]) + if ms[i].role == "system" then [ms[i].content] else []
  {
    assert ms[..i + 1][..i] == ms[..i];
  }

  method OpenAiToResponses(digest: string -> string, ms: seq<ChatMessage>)
    returns (input: seq<DirectItem>, instructions: Option<string>)
    ensures input == Direct(digest, ms)
    ensures instructions == if SystemTexts(ms) == [] then None else Some(JoinLines(SystemTexts(ms)))
  {
    assert Direct(digest, []) == [] && SystemTexts([]) == [] && ms[..0] == [] && ms[..|ms|] == ms;
    hide R.Bound, Direct, DirectCalls, SystemTexts;
    input := [];
    var systemTexts: seq<string> := [];
    for i := 0 to |ms|
      invariant input == Direct(digest, ms[..i]) && systemTexts == SystemTexts(ms[..i])
    {
      DirectTakes(digest, ms, i);
      SystemTakes(ms, i);
      assert systemTexts + [] == systemTexts;
      var m := ms[i];
      if m.role == "system" {
        assert input + [] == input;
        systemTexts := systemTexts + [m.content];
      } else if m.role == "tool" || m.role == "function" {
        if Filled(m.toolCallId) {
          input := input + [Output(R.Bound(digest, m.toolCallId.value), m.content)];
        } else {
          input := input + [Said("user", TOOL_RESULT + m.content)];
        }
      } else if m.role == "assistant" {
        if m.toolCalls != [] {
          var items := ToolCallItems(digest, m.toolCalls);
          if m.content != "" {
            Assoc(input, [Said("assistant", m.content)], items);
            input := input + [Said("assistant", m.content)];
          } else {
            assert [] + items == items;
          }
          input := input + items;
        } else {
          input := input + [Said("assistant", m.content)];
        }
      } else {
        input := input + [Said(if m.role == "developer" then "developer" else "user", m.content)];
      }
    }
    instructions := if systemTexts != [] then Some(JoinLines(systemTexts)) else None;
  }

  // ---- The canonical path --------------------------------------------------

  function TextParts(content: string): seq<R.Part> {
    if content == "" then [] else [R.Text(content)]
  }

  /** `raw_arguments`: only a string inside the function is kept. */
  function RawArguments(tc: ToolCall): Option<string> {
    if tc.fnArguments.Str? then Some(tc.fnArguments.text) else None
  }

  function Uses(calls: seq<ToolCall>): seq<R.Part> {
    if calls == [] then []
    else Uses(calls[..|calls| - 1]) + [var tc := calls[|calls| - 1]; R.ToolUse(tc.id, tc.fnName, RawArguments(tc))]
  }

  function ChatTurn(m: ChatMessage): seq<R.Turn> {
    if m.role == "system" || m.role == "developer" then []
    else if m.role == "tool" then [R.Turn("user", [R.ToolResult(m.toolCallId, R.Parts(TextParts(m.content)))])]
    else [R.Turn(R.RoleOf(m.role), TextParts(m.content) + Uses(m.toolCalls))]
  }

  function ChatTurns(ms: seq<ChatMessage>): seq<R.Turn> {
    if ms == [] then [] else ChatTurns(ms[..|ms| - 1]) + ChatTurn(ms[|ms| - 1])
  }

  predicate IsSystem(m: ChatMessage) {
    m.role == "system" || m.role == "developer"
  }

  function SystemParts(ms: seq<ChatMessage>): seq<R.Part> {
    if ms == [] then []
    else
      var last := ms[|ms| - 1];
      SystemParts(ms[..|ms| - 1]) + if IsSystem(last) then TextParts(last.content) else []
  }

  /** The `tool_calls` loop of the canonical path. */
  method ToolUseParts(calls: seq<ToolCall>) returns (parts: seq<R.Part>)
    ensures parts == Uses(calls)
  {
    parts := [];
    for j := 0 to |calls|
      invariant parts == Uses(calls[..j])
    {
      assert calls[..j + 1][..j] == calls[..j];
      var tc := calls[j];
      var raw := if tc.fnArguments.Str? then Some(tc.fnArguments.text) else None;
      parts := parts + [R.ToolUse(tc.id, tc.fnName, raw)];
    }
    assert calls[..|calls|] == calls;
  }

  method IngressOpenAiChat(ms: seq<ChatMessage>) returns (system: seq<R.Part>, turns: seq<R.Turn>)
    ensures system == SystemParts(ms) && turns == ChatTurns(ms)
  {
    hide Uses, TextParts;
    system, turns := [], [];
    for i := 0 to |ms|
      invariant system == SystemParts(ms[..i]) && turns == ChatTurns(ms[..i])
    {
      assert ms[..i + 1][..i] == ms[..i];
      assert system + [] == system;
      var m := ms[i];
      if m.role == "system" || m.role == "developer" {
        assert turns + [] == turns;
        system := system + TextParts(m.content);
      } else if m.role == "tool" {
        turns := turns + [R.Turn("user", [R.ToolResult(m.toolCallId, R.Parts(TextParts(m.content)))])];
      } else {
        var uses := ToolUseParts(m.toolCalls);
        turns := turns + [R.Turn(R.RoleOf(m.role), TextParts(m.content) + uses)];
      }
    }
    assert ms[..|ms|] == ms;
  }

  function Canonical(env: R.Env, ms: seq<ChatMessage>): seq<R.Item> {
    R.Egress(env, ChatTurns(ms), [])
  }

  // ---- What both say -------------------------------------------------------

  /** One thing the model is told, in either form; empty texts are not told. */
  datatype Beat = Text(role: string, text: string) | Called(id: Option<string>, name: Option<string>, arguments: string)
                | Returned(id: Option<string>, text: string) | Else(item: R.Item)

  function DirectBeat(item: DirectItem): seq<Beat> {
    match item
    case Said(role, text) => if text == "" then [] else [Text(role, text)]
    case Call(id, name, arguments) => [Called(Some(id), Some(name), arguments)]
    case Output(id, text) => [Returned(Some(id), text)]
  }

  function TextOf(ps: seq<R.ContentPart>): string {
    if ps == [] then "" else (if ps[0].InputText? then ps[0].text else "") + TextOf(ps[1..])
  }

  function ItemBeat(item: R.Item): seq<Beat> {
    match item
    case Message(role, Listed(ps)) => if TextOf(ps) == "" then [] else [Text(role, TextOf(ps))]
    case Call(id, name, Some(arguments)) => [Called(id, name, arguments)]
    case Output(id, Plain(text)) => [Returned(id, text)]
    case _ => [Else(item)]
  }

  function DirectBeats(items: seq<DirectItem>): seq<Beat> {
    if items == [] then [] else DirectBeat(items[0]) + DirectBeats(items[1..])
  }

  function ItemBeats(items: seq<R.Item>): seq<Beat> {
    if items == [] then [] else ItemBeat(items[0]) + ItemBeats(items[1..])
  }

  /** The call has its own id, its function a name, and arguments are a string inside the
      function, or missing, or an empty object. */
  predicate OrdinaryCall(tc: ToolCall) {
    && Filled(tc.id) && Filled(tc.fnName)
    && match tc.fnArguments
       case Str(_) => true
       case Null => true
       case Json(text) => text == "{}"
       case Absent => tc.topArguments.Absent? || tc.topArguments.Null? || tc.topArguments.text == "{}"
  }

  function CanonicalArguments(tc: ToolCall): string {
    if tc.fnArguments.Str? then tc.fnArguments.text else "{}"
  }

  /** The messages both paths read alike. */
  predicate Ordinary(m: ChatMessage) {
    if m.role == "system" then true
    else if m.role == "developer" then m.content == ""
    else if m.role == "tool" then Filled(m.toolCallId)
    else if m.role == "function" then false
    else if m.role == "assistant" then forall tc | tc in m.toolCalls :: OrdinaryCall(tc)
    else m.toolCalls == [] && (m.role == "user" || m.role == "" || m.content == "")
  }

  function CalledBeats(digest: string -> string, calls: seq<ToolCall>): seq<Beat> {
    if calls == [] then []
    else
      [Called(R.BoundId(digest, calls[0].id), calls[0].fnName, CanonicalArguments(calls[0]))]
      + CalledBeats(digest, calls[1..])
  }

  function TextBeat(role: string, text: string): seq<Beat> {
    if text == "" then [] else [Text(role, text)]
  }

  function CanonicalTold(digest: string -> string, m: ChatMessage): seq<Beat> {
    if m.role == "system" || m.role == "developer" then []
    else if m.role == "tool" then [Returned(R.BoundId(digest, m.toolCallId), m.content)]
    else TextBeat(R.RoleOf(m.role), m.content) + CalledBeats(digest, m.toolCalls)
  }

  lemma {:induction false} DirectBeatsAppend(a: seq<DirectItem>, b: seq<DirectItem>)
    ensures DirectBeats(a + b) == DirectBeats(a) + DirectBeats(b)
    decreases |a|
  {
    if a == [] {
      assert a + b == b;
    } else {
      assert (a + b)[1..] == a[1..] + b;
      DirectBeatsAppend(a[1..], b);
    }
  }

  lemma {:induction false} ItemBeatsAppend(a: seq<R.Item>, b: seq<R.Item>)
    ensures ItemBeats(a + b) == ItemBeats(a) + ItemBeats(b)
    decreases |a|
  {
    hide ItemBeat;
    if a == [] {
      assert a + b == b;
    } else {
      assert (a + b)[1..] == a[1..] + b;
      ItemBeatsAppend(a[1..], b);
    }
  }

  lemma DirectOne(item: DirectItem)
    ensures DirectBeats([item]) == DirectBeat(item)
  {
    hide DirectBeat;
    assert [item][1..] == [];
    assert DirectBeat(item) + [] == DirectBeat(item);
  }

  lemma ItemOne(item: R.Item)
    ensures ItemBeats([item]) == ItemBeat(item)
  {
    hide ItemBeat;
    assert [item][1..] == [];
    assert ItemBeat(item) + [] == ItemBeat(item);
  }

  // ---- The canonical path, message by message ------------------------------

  lemma {:induction false} NoReasoningLeft(env: R.Env, role: string, parts: seq<R.Part>, buffered: seq<R.Part>)
    requires forall p | p in buffered :: R.Buffered(p)
    ensures R.EgressTurn(env, role, parts, buffered, []).1 == []
    decreases |parts|
  {
    hide R.Flush;
    if parts != [] {
      if R.Buffered(parts[0]) {
        NoReasoningLeft(env, role, parts[1..], buffered + [parts[0]]);
      } else {
        NoReasoningLeft(env, role, parts[1..], []);
      }
    }
  }

  lemma {:induction false} NoReasoningAfter(env: R.Env, turns: seq<R.Turn>)
    ensures R.LeftAfter(env, turns, []) == []
    decreases |turns|
  {
    hide R.EgressTurn;
    if turns != [] {
      NoReasoningLeft(env, R.RoleOf(turns[0].role), turns[0].parts, []);
      NoReasoningAfter(env, turns[1..]);
    }
  }

  /** Tool uses leave one call each. */
  lemma {:induction false} UsesLeave(env: R.Env, role: string, calls: seq<ToolCall>)
    ensures ItemBeats(R.EgressTurn(env, role, Uses(calls), [], []).0) == CalledBeats(env.digest, calls)
    decreases |calls|
  {
    if calls != [] {
      hide R.BoundId, R.Flush, ItemBeats;
      UsesFirst(calls);
      var first := Uses(calls)[0];
      var rest := Uses(calls[1..]);
      UsesLeave(env, role, calls[1..]);
      var item := R.EgressOne(env, first, []).0;
      var items := R.EgressTurn(env, role, rest, [], []).0;
      assert R.Flush(role, []) == [] by { FlushNothing(role); }
      assert [] + [item] + items == [item] + items;
      ItemBeatsAppend([item], items);
      ItemOne(item);
    }
  }

  lemma FlushNothing(role: string)
    ensures R.Flush(role, []) == []
  {}

  lemma {:induction false} UsesFirst(calls: seq<ToolCall>)
    requires calls != []
    ensures |Uses(calls)| == |calls|
    ensures Uses(calls)[0] == R.ToolUse(calls[0].id, calls[0].fnName, RawArguments(calls[0]))
    ensures Uses(calls)[1..] == Uses(calls[1..])
    decreases |calls|
  {
    var n := |calls| - 1;
    if n > 0 {
      UsesFirst(calls[..n]);
      assert calls[..n][1..] == calls[1..][..n - 1];
    }
  }

  lemma UsesAreCalls(calls: seq<ToolCall>)
    ensures |Uses(calls)| == |calls| && (calls != [] ==> Uses(calls)[0].ToolUse?)
  {
    if calls != [] { UsesFirst(calls); }
  }

  lemma SpokenTurn(env: R.Env, role: string, text: string, calls: seq<ToolCall>)
    ensures ItemBeats(R.EgressTurn(env, role, TextParts(text) + Uses(calls), [], []).0)
         == TextBeat(role, text) + CalledBeats(env.digest, calls)
  {
    UsesLeave(env, role, calls);
    var uses := Uses(calls);
    if text == "" {
      assert [] + uses == uses;
    } else {
      hide Uses, CalledBeats, ItemBeats;
      var said := R.Text(text);
      var parts := [said] + uses;
      assert parts[1..] == uses && [] + [said] == [said];
      assert uses != [] ==> !R.Buffered(uses[0]) by { UsesAreCalls(calls); }
      FlushLater(env, role, said, uses);
      var flushed := R.Flush(role, [said]);
      ItemBeatsAppend(flushed, R.EgressTurn(env, role, uses, [], []).0);
      FlushedText(role, text);
    }
  }

  lemma FlushedText(role: string, text: string)
    requires text != ""
    ensures ItemBeats(R.Flush(role, [R.Text(text)])) == TextBeat(role, text)
  {
    var parts := [R.Text(text)];
    assert parts[1..] == [];
    var listed := [R.InputText(text)];
    assert R.EgressContent(parts) == listed;
    assert listed[1..] == [] && TextOf(listed) == text + "" == text;
    ItemOne(R.Message(role, R.Listed(listed)));
  }

  /** A buffered text leaves before the tool uses that follow it. */
  lemma FlushLater(env: R.Env, role: string, said: R.Part, uses: seq<R.Part>)
    requires R.Buffered(said)
    requires uses != [] ==> !R.Buffered(uses[0])
    ensures R.EgressTurn(env, role, [said] + uses, [], []).0
         == R.Flush(role, [said]) + R.EgressTurn(env, role, uses, [], []).0
  {
    hide R.Flush, R.EgressOne;
    var parts := [said] + uses;
    assert parts[1..] == uses && [] + [said] == [said];
    FlushNothing(role);
    var flushed := R.Flush(role, [said]);
    if uses == [] {
      assert flushed + [] == flushed;
    } else {
      var (item, left) := R.EgressOne(env, uses[0], []);
      var items := R.EgressTurn(env, role, uses[1..], [], left).0;
      assert flushed + [item] + items == flushed + ([] + [item] + items);
    }
  }

  lemma CanonicalMessage(env: R.Env, m: ChatMessage)
    ensures ItemBeats(R.Egress(env, ChatTurn(m), [])) == CanonicalTold(env.digest, m)
  {
    if m.role == "system" || m.role == "developer" {
      R.EgressNothing(env, []);
    } else if m.role == "tool" {
      var result := R.ToolResult(m.toolCallId, R.Parts(TextParts(m.content)));
      hide R.EgressTurn, R.Egress;
      R.OneTurn(env, R.Turn("user", [result]), []);
      R.SinglePart(env, "user", result, []);
      var parts := TextParts(m.content);
      if m.content != "" { assert parts[1..] == []; }
      assert R.JoinText(parts) == m.content;
      ItemOne(R.EgressOne(env, result, []).0);
    } else {
      hide R.EgressTurn, R.Egress, TextParts, Uses, ItemBeats, CalledBeats;
      var turn := R.Turn(R.RoleOf(m.role), TextParts(m.content) + Uses(m.toolCalls));
      R.OneTurn(env, turn, []);
      SpokenTurn(env, R.RoleOf(m.role), m.content, m.toolCalls);
    }
  }

  // ---- Agreement -----------------------------------------------------------

  /** One call: the same beat exactly when it is ordinary. */
  lemma CallAgrees(digest: string -> string, tc: ToolCall, idx: nat)
    requires Filled(CallName(tc))
    ensures (Some(R.Bound(digest, CallId(tc, idx))) == R.BoundId(digest, tc.id) && CallName(tc) == tc.fnName
             && Arguments(tc) == CanonicalArguments(tc))
       <==> OrdinaryCall(tc)
  {
    hide Decimal;
    assert R.Bound(digest, CallId(tc, idx)) != "";
    assert tc.id == Some("") ==> R.BoundId(digest, tc.id) == Some("");
  }

  /** Call lists: the same beats exactly when every call is ordinary. */
  lemma {:induction false} CallsAgree(digest: string -> string, calls: seq<ToolCall>, idx: nat)
    requires idx <= |calls|
    ensures var direct, canonical := DirectBeats(DirectCalls(digest, calls, idx)), CalledBeats(digest, calls[idx..]);
            && |direct| <= |canonical|
            && (direct == canonical <==> forall k | idx <= k < |calls| :: OrdinaryCall(calls[k]))
    decreases |calls| - idx
  {
    if idx < |calls| {
      CallsAgree(digest, calls, idx + 1);
      var tc := calls[idx];
      if Filled(CallName(tc)) { CallAgrees(digest, tc, idx); }
      hide R.Bound, R.BoundId, CallId, Arguments, CanonicalArguments, OrdinaryCall, DirectBeats;
      var rest := DirectCalls(digest, calls, idx + 1);
      assert calls[idx..][1..] == calls[idx + 1..];
      var one := Called(R.BoundId(digest, tc.id), tc.fnName, CanonicalArguments(tc));
      var later := CalledBeats(digest, calls[idx + 1..]);
      assert CalledBeats(digest, calls[idx..]) == [one] + later;
      if Filled(CallName(tc)) {
        var item := Call(R.Bound(digest, CallId(tc, idx)), CallName(tc).value, Arguments(tc));
        DirectBeatsAppend([item], rest);
        DirectOne(item);
        ConsInjective(DirectBeat(item)[0], DirectBeats(rest), one, later);
      }
    }
  }

  lemma ConsInjective<T>(x: T, a: seq<T>, y: T, b: seq<T>)
    ensures [x] + a == [y] + b <==> x == y && a == b
  {
    if [x] + a == [y] + b {
      assert ([x] + a)[0] == x && ([y] + b)[0] == y;
      assert ([x] + a)[1..] == a && ([y] + b)[1..] == b;
    }
  }

  lemma CalledLength(digest: string -> string, calls: seq<ToolCall>)
    ensures |CalledBeats(digest, calls)| == |calls|
    ensures forall b | b in CalledBeats(digest, calls) :: b.Called?
  {}

  /** A message is told alike on both paths exactly when it is ordinary. */
  lemma MessageAgreesExactly(env: R.Env, m: ChatMessage)
    ensures DirectBeats(DirectMessage(env.digest, m)) == ItemBeats(R.Egress(env, ChatTurn(m), []))
       <==> Ordinary(m)
  {
    CanonicalMessage(env, m);
    hide ItemBeats, R.Egress, ChatTurn;
    if m.role == "assistant" {
      AssistantAgrees(env.digest, m);
    } else {
      OtherAgrees(env.digest, m);
    }
  }

  lemma OtherAgrees(digest: string -> string, m: ChatMessage)
    requires m.role != "assistant"
    ensures DirectBeats(DirectMessage(digest, m)) == CanonicalTold(digest, m) <==> Ordinary(m)
  {
    hide CalledBeats, R.Bound, DirectBeats, DirectCalls;
    var direct := DirectMessage(digest, m);
    assert DirectBeats(direct) == if direct == [] then [] else DirectBeat(direct[0]) by {
      if direct == [] { NoBeats(); } else { assert direct == [direct[0]]; DirectOne(direct[0]); }
    }
    var text, called := TextBeat(R.RoleOf(m.role), m.content), CalledBeats(digest, m.toolCalls);
    CalledLength(digest, m.toolCalls);
    assert |text + called| == |text| + |called|;
    assert m.content == "" ==> text + called == called;
    assert m.toolCalls == [] ==> text + called == text;
    assert text != [] ==> (text + called)[0] == text[0];
    assert called != [] ==> called[0] in called;
  }

  lemma NoBeats()
    ensures DirectBeats([]) == []
  {}

  lemma AssistantAgrees(digest: string -> string, m: ChatMessage)
    requires m.role == "assistant"
    ensures DirectBeats(DirectMessage(digest, m)) == CanonicalTold(digest, m) <==> Ordinary(m)
  {
    CallsAgree(digest, m.toolCalls, 0);
    assert m.toolCalls[0..] == m.toolCalls;
    assert (forall k | 0 <= k < |m.toolCalls| :: OrdinaryCall(m.toolCalls[k])) <==> Ordinary(m);
    hide DirectCalls, CalledBeats, DirectBeats, OrdinaryCall;
    var said := Said("assistant", m.content);
    DirectOne(said);
    var calls, called := DirectCalls(digest, m.toolCalls, 0), CalledBeats(digest, m.toolCalls);
    if m.toolCalls == [] {
      CalledLength(digest, m.toolCalls);
      assert TextBeat("assistant", m.content) + [] == TextBeat("assistant", m.content);
    } else if m.content == "" {
      assert [] + calls == calls && [] + called == called;
    } else {
      DirectBeatsAppend([said], calls);
      ConsInjective(DirectBeat(said)[0], DirectBeats(calls), DirectBeat(said)[0], called);
    }
  }

  // ---- What the direct path tells ------------------------------------------

  /** An id of up to 64 characters stays; a longer one keeps 51 and ends in its digest. */
  function ShortId(digest: string -> string, id: string): string {
    if |id| > 64 then id[..51] + "_" + digest(id) else id
  }

  /** The named calls from the `idx`-th on: each with its own id, or else one by its position. */
  function CallsTold(digest: string -> string, calls: seq<ToolCall>, idx: nat): seq<Beat>
    requires idx <= |calls|
    decreases |calls| - idx
  {
    if idx == |calls| then []
    else
      var tc := calls[idx];
      var name := if tc.fnName.Some? && tc.fnName.value != "" then tc.fnName else tc.topName;
      var id := if tc.id.Some? && tc.id.value != "" then tc.id.value
                else if tc.callId.Some? && tc.callId.value != "" then tc.callId.value
                else "call_" + Decimal(idx);
      var arguments := if tc.fnArguments.Absent? then tc.topArguments else tc.fnArguments;
      (if name.None? || name.value == "" then []
       else [Called(Some(ShortId(digest, id)), name,
                    if arguments.Str? || arguments.Json? then arguments.text else "{}")])
      + CallsTold(digest, calls, idx + 1)
  }

  function MessageTold(digest: string -> string, m: ChatMessage): seq<Beat> {
    if m.role == "system" then []
    else if m.role == "tool" || m.role == "function" then
      if m.toolCallId.Some? && m.toolCallId.value != "" then
        [Returned(Some(ShortId(digest, m.toolCallId.value)), m.content)]
      else [Text("user", "[tool result]\n" + m.content)]
    else
      (if m.content == "" then []
       else [Text(if m.role == "assistant" || m.role == "developer" then m.role else "user", m.content)])
      + if m.role == "assistant" then CallsTold(digest, m.toolCalls, 0) else []
  }

  lemma {:induction false} CallsAreTold(digest: string -> string, calls: seq<ToolCall>, idx: nat)
    requires idx <= |calls|
    ensures DirectBeats(DirectCalls(digest, calls, idx)) == CallsTold(digest, calls, idx)
    decreases |calls| - idx
  {
    hide DirectBeats, Decimal;
    if idx == |calls| {
      NoBeats();
    } else {
      CallsAreTold(digest, calls, idx + 1);
      var tc := calls[idx];
      if Filled(CallName(tc)) {
        var item := Call(R.Bound(digest, CallId(tc, idx)), CallName(tc).value, Arguments(tc));
        DirectBeatsAppend([item], DirectCalls(digest, calls, idx + 1));
        DirectOne(item);
      } else {
        assert [] + CallsTold(digest, calls, idx + 1) == CallsTold(digest, calls, idx + 1);
      }
    }
  }

  /** What the direct path tells of any message: texts under their roles, results under their ids
      or as marked user texts, and the named calls. */
  lemma MessageIsTold(digest: string -> string, m: ChatMessage)
    ensures DirectBeats(DirectMessage(digest, m)) == MessageTold(digest, m)
  {
    hide DirectBeats, DirectCalls, CallsTold;
    var direct := DirectMessage(digest, m);
    NoBeats();
    if m.role == "assistant" {
      var said, calls := Said("assistant", m.content), DirectCalls(digest, m.toolCalls, 0);
      CallsAreTold(digest, m.toolCalls, 0);
      DirectBeatsAppend([said], calls);
      DirectOne(said);
      assert [] + calls == calls;
      if m.toolCalls == [] { NoCallsTold(digest, m.toolCalls); }
    } else if direct != [] {
      assert direct == [direct[0]];
      DirectOne(direct[0]);
    }
  }

  lemma {:induction false} CallsSayNothing(digest: string -> string, calls: seq<ToolCall>, idx: nat)
    requires idx <= |calls|
    ensures forall item | item in DirectCalls(digest, calls, idx) :: item.Call?
    decreases |calls| - idx
  {
    if idx < |calls| { CallsSayNothing(digest, calls, idx + 1); }
  }

  /** An empty text goes out exactly for a message without text that has nothing else to say. */
  lemma EmptyTextExactly(digest: string -> string, m: ChatMessage)
    ensures (exists item :: item in DirectMessage(digest, m) && item.Said? && item.content == "")
       <==> m.content == "" && m.role !in {"system", "tool", "function"}
            && (m.role == "assistant" ==> m.toolCalls == [])
  {
    hide DirectCalls, R.Bound;
    var direct := DirectMessage(digest, m);
    CallsSayNothing(digest, m.toolCalls, 0);
    if m.content == "" && direct != [] { assert direct[0] in direct; }
  }

  lemma NoCallsTold(digest: string -> string, calls: seq<ToolCall>)
    requires calls == []
    ensures CallsTold(digest, calls, 0) == [] && DirectCalls(digest, calls, 0) == []
  {}

  function AfterBlankLines(texts: seq<string>): seq<string> {
    if texts == [] then [] else AfterBlankLines(texts[..|texts| - 1]) + ["\n\n" + texts[|texts| - 1]]
  }

  /** The system texts are joined by blank lines. */
  lemma {:induction false} JoinedByBlankLines(texts: seq<string>)
    requires texts != []
    ensures JoinLines(texts) == texts[0] + Flatten(AfterBlankLines(texts[1..]))
    decreases |texts|
  {
    if |texts| == 1 {
      assert texts[0] + "" == texts[0];
    } else {
      var n := |texts| - 1;
      JoinedByBlankLines(texts[..n]);
      assert texts[..n][1..] == texts[1..][..n - 1];
      FlattenSnoc(AfterBlankLines(texts[1..][..n - 1]), "\n\n" + texts[n]);
      hide Flatten, AfterBlankLines;
      var front := Flatten(AfterBlankLines(texts[1..][..n - 1]));
      assert texts[0] + front + "\n\n" + texts[n] == texts[0] + (front + ("\n\n" + texts[n]));
    }
  }

  // ---- Whole histories -----------------------------------------------------

  function Told(env: R.Env, m: ChatMessage): seq<Beat> {
    DirectBeats(DirectMessage(env.digest, m))
  }

  function Meant(env: R.Env, m: ChatMessage): seq<Beat> {
    ItemBeats(R.Egress(env, ChatTurn(m), []))
  }

  lemma HistorySnoc(env: R.Env, ms: seq<ChatMessage>, m: ChatMessage)
    ensures DirectBeats(Direct(env.digest, ms + [m])) == DirectBeats(Direct(env.digest, ms)) + Told(env, m)
    ensures ItemBeats(Canonical(env, ms + [m])) == ItemBeats(Canonical(env, ms)) + Meant(env, m)
  {
    hide DirectMessage, ChatTurn, DirectBeats, ItemBeats, R.Egress;
    assert (ms + [m])[..|ms|] == ms;
    DirectBeatsAppend(Direct(env.digest, ms), DirectMessage(env.digest, m));
    R.EgressAppend(env, ChatTurns(ms), ChatTurn(m), []);
    NoReasoningAfter(env, ChatTurns(ms));
    ItemBeatsAppend(R.Egress(env, ChatTurns(ms), []), R.Egress(env, ChatTurn(m), []));
  }

  /** Texts of the user or the developer, and results under an id: what the direct path never
      says less often than the canonical one. */
  predicate Heard(b: Beat) {
    (b.Text? && (b.role == "user" || b.role == "developer")) || (b.Returned? && Filled(b.id))
  }

  function HeardIn(bs: seq<Beat>): nat {
    if bs == [] then 0 else (if Heard(bs[0]) then 1 else 0) + HeardIn(bs[1..])
  }

  lemma {:induction false} HeardAppend(a: seq<Beat>, b: seq<Beat>)
    ensures HeardIn(a + b) == HeardIn(a) + HeardIn(b)
    decreases |a|
  {
    hide Heard;
    if a == [] {
      assert a + b == b;
    } else {
      assert (a + b)[1..] == a[1..] + b;
      HeardAppend(a[1..], b);
    }
  }

  predicate AllOrdinary(ms: seq<ChatMessage>) {
    forall m | m in ms :: Ordinary(m)
  }

  predicate AllTame(ms: seq<ChatMessage>) {
    forall m | m in ms :: Tame(m)
  }

  lemma AllSnoc(ms: seq<ChatMessage>, m: ChatMessage)
    ensures AllOrdinary(ms + [m]) <==> AllOrdinary(ms) && Ordinary(m)
    ensures AllTame(ms + [m]) <==> AllTame(ms) && Tame(m)
  {
    hide Ordinary, Tame;
    assert forall x :: x in ms + [m] <==> x in ms || x == m;
  }

  /** A message the direct path gives no heard beat of its own. */
  predicate Tame(m: ChatMessage) {
    if m.role == "system" || m.role == "assistant" then true
    else if m.role == "tool" then Filled(m.toolCallId)
    else if m.role == "function" then false
    else m.content == "" || m.role == "user" || m.role == ""
  }

  lemma {:induction false} CallsUnheard(digest: string -> string, calls: seq<ToolCall>, idx: nat)
    requires idx <= |calls|
    ensures HeardIn(CalledBeats(digest, calls[idx..])) == 0
    ensures HeardIn(DirectBeats(DirectCalls(digest, calls, idx))) == 0
    decreases |calls| - idx
  {
    if idx < |calls| {
      hide R.Bound, R.BoundId, CallId, Arguments, CanonicalArguments, CallName;
      assert calls[idx..][1..] == calls[idx + 1..];
      CallsUnheard(digest, calls, idx + 1);
      var direct, rest := DirectCalls(digest, calls, idx), DirectCalls(digest, calls, idx + 1);
      var called := CalledBeats(digest, calls[idx..]);
      assert called[1..] == CalledBeats(digest, calls[idx + 1..]);
      if direct != rest {
        assert direct[1..] == rest;
        assert DirectBeats(direct)[1..] == DirectBeats(rest);
      }
    }
  }

  lemma HeardOne(b: Beat)
    ensures HeardIn([b]) == if Heard(b) then 1 else 0
    ensures HeardIn([]) == 0
  {
    assert [b][1..] == [];
  }

  lemma BoundFilled(digest: string -> string, id: Option<string>)
    ensures Filled(R.BoundId(digest, id)) <==> Filled(id)
  {}

  lemma HeardMeant(env: R.Env, m: ChatMessage)
    ensures HeardIn(Meant(env, m))
         == if m.role == "tool" then (if Filled(m.toolCallId) then 1 else 0)
            else if (m.role == "user" || m.role == "") && m.content != "" then 1 else 0
  {
    CanonicalMessage(env, m);
    CallsUnheard(env.digest, m.toolCalls, 0);
    assert m.toolCalls[0..] == m.toolCalls;
    BoundFilled(env.digest, m.toolCallId);
    hide ItemBeats, R.Egress, ChatTurn, CalledBeats, DirectCalls, HeardIn, R.Bound, R.BoundId;
    var text, called := TextBeat(R.RoleOf(m.role), m.content), CalledBeats(env.digest, m.toolCalls);
    HeardAppend(text, called);
    HeardOne(Text(R.RoleOf(m.role), m.content));
    HeardOne(Returned(R.BoundId(env.digest, m.toolCallId), m.content));
  }

  lemma HeardTold(env: R.Env, m: ChatMessage)
    ensures HeardIn(Told(env, m))
         == if m.role == "system" || m.role == "assistant" then 0
            else if m.role == "tool" || m.role == "function" || m.content != "" then 1 else 0
  {
    hide DirectBeats, DirectCalls, HeardIn;
    var direct := DirectMessage(env.digest, m);
    HeardOne(Text("assistant", m.content));
    if m.role == "assistant" {
      CallsUnheard(env.digest, m.toolCalls, 0);
      var said, calls := Said("assistant", m.content), DirectCalls(env.digest, m.toolCalls, 0);
      DirectBeatsAppend([said], calls);
      DirectOne(said);
      HeardAppend(DirectBeat(said), DirectBeats(calls));
      assert [] + calls == calls;
    } else if direct == [] {
      NoBeats();
    } else {
      var item := direct[0];
      assert direct == [item];
      DirectOne(item);
      HeardItem(item);
    }
  }

  /** What is heard of a text or a result. */
  lemma HeardItem(item: DirectItem)
    requires !item.Call?
    ensures HeardIn(DirectBeat(item))
         == if item.Said? then
              (if item.content != "" && (item.role == "user" || item.role == "developer") then 1 else 0)
            else if item.callId != "" then 1 else 0
  {
    if DirectBeat(item) != [] { HeardOne(DirectBeat(item)[0]); }
  }

  /** Of one message the direct path says at least as many heard beats, and the same number
      exactly for a tame one. */
  lemma HeardOfMessage(env: R.Env, m: ChatMessage)
    ensures HeardIn(Told(env, m)) >= HeardIn(Meant(env, m))
    ensures HeardIn(Told(env, m)) == HeardIn(Meant(env, m)) <==> Tame(m)
  {
    hide Told, Meant, HeardIn;
    HeardMeant(env, m);
    HeardTold(env, m);
  }

  lemma {:induction false} HeardOfHistory(env: R.Env, ms: seq<ChatMessage>)
    ensures HeardIn(DirectBeats(Direct(env.digest, ms))) >= HeardIn(ItemBeats(Canonical(env, ms)))
    ensures (HeardIn(DirectBeats(Direct(env.digest, ms))) == HeardIn(ItemBeats(Canonical(env, ms))))
            <==> AllTame(ms)
    decreases |ms|
  {
    if ms == [] {
      R.EgressNothing(env, []);
    } else {
      hide AllTame, Tame, HeardIn, Told, Meant, Direct, DirectBeats, ItemBeats, Canonical;
      var front, last := ms[..|ms| - 1], ms[|ms| - 1];
      assert ms == front + [last];
      AllSnoc(front, last);
      HeardOfHistory(env, front);
      HistorySnoc(env, front, last);
      HeardOfMessage(env, last);
      HeardAppend(DirectBeats(Direct(env.digest, front)), Told(env, last));
      HeardAppend(ItemBeats(Canonical(env, front)), Meant(env, last));
    }
  }

  /** Of a tame message the direct path says no more than the canonical one. */
  lemma TameSaysNoMore(env: R.Env, m: ChatMessage)
    requires Tame(m)
    ensures |Told(env, m)| <= |Meant(env, m)|
  {
    CanonicalMessage(env, m);
    CallsAgree(env.digest, m.toolCalls, 0);
    assert m.toolCalls[0..] == m.toolCalls;
    hide ItemBeats, R.Egress, ChatTurn, DirectBeats, CalledBeats, DirectCalls, R.Bound, R.BoundId, OrdinaryCall, Filled;
    if m.role == "assistant" {
      AssistantSays(env.digest, m);
    } else {
      OneSaid(env.digest, m);
    }
  }

  lemma AssistantSays(digest: string -> string, m: ChatMessage)
    requires m.role == "assistant"
    ensures |DirectBeats(DirectMessage(digest, m))|
         == (if m.content == "" then 0 else 1) + |DirectBeats(DirectCalls(digest, m.toolCalls, 0))|
  {
    hide DirectBeats;
    var said, calls := Said("assistant", m.content), DirectCalls(digest, m.toolCalls, 0);
    DirectBeatsAppend([said], calls);
    DirectOne(said);
    NoBeats();
    hide DirectCalls;
    assert [] + calls == calls;
    if m.toolCalls == [] { assert [said] + calls == [said]; }
  }

  lemma OneSaid(digest: string -> string, m: ChatMessage)
    requires m.role != "assistant"
    ensures |DirectBeats(DirectMessage(digest, m))|
         <= if m.role == "system" || (m.role != "tool" && m.role != "function" && m.content == "") then 0 else 1
  {
    hide DirectBeats, R.Bound;
    var direct := DirectMessage(digest, m);
    if direct == [] {
      NoBeats();
    } else {
      assert direct == [direct[0]];
      DirectOne(direct[0]);
    }
  }

  lemma AppendInjective<T>(a: seq<T>, b: seq<T>, c: seq<T>, d: seq<T>)
    requires |a| <= |c| && |b| <= |d|
    ensures a + b == c + d <==> a == c && b == d
  {
    if a + b == c + d {
      assert |a| == |c|;
      assert (a + b)[..|a|] == a && (c + d)[..|a|] == c;
      assert (a + b)[|a|..] == b && (c + d)[|a|..] == d;
    }
  }

  lemma {:induction false} TameHistory(env: R.Env, ms: seq<ChatMessage>)
    requires AllTame(ms)
    ensures |DirectBeats(Direct(env.digest, ms))| <= |ItemBeats(Canonical(env, ms))|
    ensures DirectBeats(Direct(env.digest, ms)) == ItemBeats(Canonical(env, ms)) <==> AllOrdinary(ms)
    decreases |ms|
  {
    if ms == [] {
      R.EgressNothing(env, []);
    } else {
      hide AllTame, AllOrdinary, Tame, Ordinary, Direct, DirectBeats, ItemBeats, Canonical, DirectMessage,
           ChatTurn, R.Egress;
      var front, last := ms[..|ms| - 1], ms[|ms| - 1];
      assert ms == front + [last];
      AllSnoc(front, last);
      TameHistory(env, front);
      HistorySnoc(env, front, last);
      TameSaysNoMore(env, last);
      MessageAgreesExactly(env, last);
      AppendInjective(DirectBeats(Direct(env.digest, front)), Told(env, last),
                      ItemBeats(Canonical(env, front)), Meant(env, last));
    }
  }

  lemma OrdinaryIsTame(m: ChatMessage)
    requires Ordinary(m)
    ensures Tame(m)
  {}

  /** A history is told alike on both paths, the same texts, calls and results in the same
      order, exactly when each of its messages is ordinary: no two differences cancel out. */
  lemma HistoriesAgreeExactly(env: R.Env, ms: seq<ChatMessage>)
    ensures DirectBeats(Direct(env.digest, ms)) == ItemBeats(Canonical(env, ms)) <==> AllOrdinary(ms)
  {
    hide Direct, DirectBeats, ItemBeats, Canonical, HeardIn, Tame, Ordinary;
    HeardOfHistory(env, ms);
    if AllTame(ms) {
      TameHistory(env, ms);
    } else {
      var m :| m in ms && !Tame(m);
      if Ordinary(m) { OrdinaryIsTame(m); }
    }
  }

  // ---- Instructions --------------------------------------------------------

  /** The instruction text each path sends; the canonical one also holds developer texts. */
  function DirectInstructions(ms: seq<ChatMessage>): string {
    JoinLines(SystemTexts(ms))
  }

  function CanonicalInstructions(ms: seq<ChatMessage>): string {
    R.JoinText(SystemParts(ms))
  }

  function Run(texts: seq<string>): string {
    if texts == [] then "" else Run(texts[..|texts| - 1]) + texts[|texts| - 1]
  }

  lemma JoinTextParts(text: string)
    ensures R.JoinText(TextParts(text)) == text
  {
    if text != "" { assert [R.Text(text)][1..] == []; }
  }

  /** The texts of the system and developer messages, in order. */
  function PromptTexts(ms: seq<ChatMessage>): seq<string> {
    if ms == [] then []
    else
      var last := ms[|ms| - 1];
      PromptTexts(ms[..|ms| - 1]) + if last.role == "system" || last.role == "developer" then [last.content] else []
  }

  /** The canonical path joins them by nothing. */
  lemma {:induction false} PromptIsJoined(ms: seq<ChatMessage>)
    ensures CanonicalInstructions(ms) == Flatten(PromptTexts(ms))
    decreases |ms|
  {
    if ms != [] {
      hide R.JoinText, Flatten;
      var front, last := ms[..|ms| - 1], ms[|ms| - 1];
      PromptIsJoined(front);
      var more := if IsSystem(last) then TextParts(last.content) else [];
      R.JoinAppend(SystemParts(front), more);
      JoinTextParts(last.content);
      JoinTextParts("");
      FlattenSnoc(PromptTexts(front), last.content);
      assert PromptTexts(front) + [] == PromptTexts(front);
    } else {
      JoinTextParts("");
    }
  }

  lemma {:induction false} CanonicalRuns(ms: seq<ChatMessage>)
    requires forall m | m in ms :: m.role == "developer" ==> m.content == ""
    ensures CanonicalInstructions(ms) == Run(SystemTexts(ms))
    decreases |ms|
  {
    if ms != [] {
      hide R.JoinText;
      var front, last := ms[..|ms| - 1], ms[|ms| - 1];
      CanonicalRuns(front);
      var more := if IsSystem(last) then TextParts(last.content) else [];
      R.JoinAppend(SystemParts(front), more);
      JoinTextParts(last.content);
      JoinTextParts("");
      var texts := SystemTexts(front);
      assert (texts + [last.content])[..|texts|] == texts;
      assert texts + [] == texts && Run(texts) + "" == Run(texts);
    } else {
      JoinTextParts("");
    }
  }

  lemma {:induction false} JoinLength(texts: seq<string>)
    ensures |JoinLines(texts)| == |Run(texts)| + if |texts| <= 1 then 0 else 2 * (|texts| - 1)
    ensures |texts| <= 1 ==> JoinLines(texts) == Run(texts)
    decreases |texts|
  {
    if |texts| == 1 {
      assert texts[..0] == [] && Run(texts[..0]) == "" && "" + texts[0] == texts[0];
    } else if |texts| > 1 {
      JoinLength(texts[..|texts| - 1]);
    }
  }

  /** Both paths send the same request body, in messages, calls, results and instruction text,
      exactly when every message is ordinary and there is at most one system message. */
  lemma BodiesAgreeExactly(env: R.Env, ms: seq<ChatMessage>)
    ensures (DirectBeats(Direct(env.digest, ms)) == ItemBeats(Canonical(env, ms))
             && DirectInstructions(ms) == CanonicalInstructions(ms))
       <==> AllOrdinary(ms) && |SystemTexts(ms)| <= 1
  {
    HistoriesAgreeExactly(env, ms);
    if AllOrdinary(ms) {
      assert forall m | m in ms :: m.role == "developer" ==> m.content == "";
      hide DirectBeats, Direct, ItemBeats, Canonical, JoinLines, Run, SystemTexts, CanonicalInstructions;
      CanonicalRuns(ms);
      JoinLength(SystemTexts(ms));
    }
  }
}
