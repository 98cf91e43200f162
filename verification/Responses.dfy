/**
 Responses request bodies through the canonical form and back
 (app/normalizer_v2.py, `_ingress_responses` and `_egress_responses`): which
 items come back, and exactly when normalising twice is normalising once.

 A JSON value that is only carried along is its text (`Raw`). `dumps` stands for
 `json.dumps` and `digest` for the first 12 hexadecimal digits of a SHA-1.
 */
module Responses {
  import opened Prelude

  type Raw = string

  // ---- Data URLs -----------------------------------------------------------

  /** The position of the first `c`, or the length. */
  function Find(s: string, c: char): (i: nat)
    ensures i <= |s| && c !in s[..i]
    ensures i < |s| ==> s[i] == c
  {
    if s == "" || s[0] == c then 0 else 1 + Find(s[1..], c)
  }

  lemma {:induction false} FindIs(s: string, c: char, i: nat)
    requires i <= |s| && c !in s[..i] && (i < |s| ==> s[i] == c)
    ensures Find(s, c) == i
    decreases i
  {
    if i > 0 {
      assert s[0] in s[..i];
      assert s[1..][..i - 1] == s[..i][1..];
      FindIs(s[1..], c, i - 1);
    }
  }

  function NonEmpty(s: string): Option<string> {
    if s == "" then None else Some(s)
  }

  const SCHEME := "data:"
  const BASE64 := ";base64"

  /** `_split_data_url` on a URL that starts with "data:": payload and media type. */
  function SplitDataUrl(url: string): (Option<string>, Option<string>)
    requires SCHEME <= url
  {
    var comma := Find(url, ',');
    var payload := if comma < |url| then url[comma + 1..] else "";
    assert url[..5] == SCHEME && forall k | 0 <= k < 5 :: url[k] != ',';
    var header := url[5..comma];
    (NonEmpty(payload), NonEmpty(header[..Find(header, ';')]))
  }

  const OCTETS := "application/octet-stream"

  /** `x or fallback` on an optional string. */
  function Or(s: Option<string>, fallback: string): string {
    if s.Some? && s.value != "" then s.value else fallback
  }

  function Rebuilt(media: string, data: string): string {
    SCHEME + media + BASE64 + "," + data
  }

  function DataUrl(media: Option<string>, data: string): string {
    Rebuilt(Or(media, OCTETS), data)
  }

  // ---- Items and content ---------------------------------------------------

  datatype ContentPart =
    | InputText(text: string)
    | OutputText(text: string)
    | InputImage(url: Option<string>)
    | InputFile(data: Option<string>, mime: Option<string>, filename: Option<string>, fileId: Option<string>)
    | OtherPart(raw: Raw)

  datatype Content = NoContent | Plain(text: string) | Listed(parts: seq<ContentPart>) | Odd(raw: Raw)

  /** An entry of `input`; an empty role is a missing one. */
  datatype Item =
    | Message(role: string, content: Content)
    | Call(callId: Option<string>, name: Option<string>, arguments: Option<string>)
    | Output(callId: Option<string>, output: Content)
    | Reasoning(raw: Raw, text: string)
    | Other(raw: Raw)

  datatype Part =
    | Text(text: string)
    | Image(url: Option<string>, media: Option<string>, data: Option<string>)
    | Document(url: Option<string>, data: Option<string>, media: Option<string>,
               filename: Option<string>, fileId: Option<string>)
    | ToolUse(id: Option<string>, name: Option<string>, rawArguments: Option<string>)
    | ToolResult(id: Option<string>, content: Result)
    | Thinking(thinking: string)
    | Unknown(raw: Raw)

  datatype Result = Said(text: string) | Parts(parts: seq<Part>) | Nothing | Opaque(raw: Raw)

  datatype Turn = Turn(role: string, parts: seq<Part>)

  /** `bound_tool_call_id`: ids over 64 characters keep 51 and end in a digest. */
  function Bound(digest: string -> string, id: string): string {
    if |id| <= 64 then id else id[..51] + "_" + digest(id)
  }

  function BoundId(digest: string -> string, id: Option<string>): Option<string> {
    if id.Some? then Some(Bound(digest, id.value)) else None
  }

  // ---- Ingress -------------------------------------------------------------

  function IngressPart(p: ContentPart): Part {
    match p
    case InputText(t) => Text(t)
    case OutputText(t) => Text(t)
    case InputImage(url) =>
      if url.Some? && SCHEME <= url.value then
        var (data, media) := SplitDataUrl(url.value);
        Image(None, media, data)
      else Image(url, None, None)
    case InputFile(data, mime, filename, fileId) =>
      if data.Some? && SCHEME <= data.value then
        var (payload, media) := SplitDataUrl(data.value);
        Document(None, payload, if mime.Some? && mime.value != "" then mime else media, filename, None)
      else if data.Some? && "http" <= data.value then Document(data, None, mime, filename, None)
      else Document(None, data, mime, filename, fileId)
    case OtherPart(raw) => Unknown(raw)
  }

  function IngressParts(ps: seq<ContentPart>): (r: seq<Part>)
    ensures |r| == |ps|
  {
    if ps == [] then [] else [IngressPart(ps[0])] + IngressParts(ps[1..])
  }

  function IngressContent(c: Content): seq<Part> {
    match c
    case NoContent => []
    case Plain(t) => if t == "" then [] else [Text(t)]
    case Listed(ps) => IngressParts(ps)
    case Odd(raw) => [Unknown(raw)]
  }

  function IngressOutput(c: Content): Result {
    match c
    case NoContent => Nothing
    case Plain(t) => Said(t)
    case Listed(ps) => Parts(IngressParts(ps))
    case Odd(raw) => Opaque(raw)
  }

  function RoleOf(role: string): string {
    if role == "" then "user" else role
  }

  predicate IsSystem(item: Item) {
    item.Message? && (item.role == "system" || item.role == "developer")
  }

  /** The canonical message an item becomes; none for system text. */
  function IngressItem(item: Item): seq<Turn> {
    match item
    case Message(role, content) =>
      if IsSystem(item) then [] else [Turn(RoleOf(role), IngressContent(content))]
    case Call(id, name, arguments) => [Turn("assistant", [ToolUse(id, name, arguments)])]
    case Output(id, output) => [Turn("user", [ToolResult(id, IngressOutput(output))])]
    case Reasoning(_, text) => [Turn("assistant", [Thinking(text)])]
    case Other(raw) => [Turn("assistant", [Unknown(raw)])]
  }

  function SystemOf(item: Item): seq<Part> {
    if IsSystem(item) then IngressContent(item.content) else []
  }

  function RawOf(item: Item): seq<Raw> {
    if item.Reasoning? then [item.raw] else []
  }

  datatype Canonical = Canonical(system: seq<Part>, turns: seq<Turn>, reasoning: seq<Raw>)

  function Ingress(items: seq<Item>): Canonical {
    if items == [] then Canonical([], [], [])
    else
      var c := Ingress(items[..|items| - 1]);
      var last := items[|items| - 1];
      Canonical(c.system + SystemOf(last), c.turns + IngressItem(last), c.reasoning + RawOf(last))
  }

  lemma IngressTakes(items: seq<Item>, i: nat)
    requires i < |items|
    ensures var c, x := Ingress(items[..i]), items[i];
            Ingress(items[..i + 1])
            == Canonical(c.system + SystemOf(x), c.turns + IngressItem(x), c.reasoning + RawOf(x))
  {
    assert items[..i + 1][..i] == items[..i];
  }

  lemma IngressNothing(items: seq<Item>)
    requires items == []
    ensures Ingress(items) == Canonical([], [], [])
  {}

  /** Whose turn an item is in the canonical form: a message keeps its role, a result is the
      user's, and calls, reasoning and unknown items are the assistant's. */
  function Speaker(item: Item): Option<string> {
    match item
    case Message(role, _) =>
      if role == "system" || role == "developer" then None else Some(if role == "" then "user" else role)
    case Output(_, _) => Some("user")
    case _ => Some("assistant")
  }

  function Speakers(items: seq<Item>): seq<string> {
    if items == [] then []
    else
      var who := Speaker(items[|items| - 1]);
      Speakers(items[..|items| - 1]) + if who.Some? then [who.value] else []
  }

  lemma {:induction false} TurnsAreSpoken(items: seq<Item>)
    ensures var turns := Ingress(items).turns;
            |turns| == |Speakers(items)| && forall i | 0 <= i < |turns| :: turns[i].role == Speakers(items)[i]
    decreases |items|
  {
    if items != [] {
      TurnsAreSpoken(items[..|items| - 1]);
      hide IngressContent, IngressOutput;
    }
  }

  /** The `input` of a body: a plain string, a list, or anything else. */
  datatype Input = Prompt(text: string) | Entries(items: seq<Item>) | NoInput

  /** A non-empty string stands for one user message. */
  function ItemsOf(input: Input): seq<Item> {
    match input
    case Prompt(text) => if text == "" then [] else [Message("user", Plain(text))]
    case Entries(items) => items
    case NoInput => []
  }

  lemma PromptIsMessage(text: string)
    requires text != ""
    ensures Ingress([Message("user", Plain(text))]) == Canonical([], [Turn("user", [Text(text)])], [])
  {
    var items := [Message("user", Plain(text))];
    assert items[..0] == [];
    assert [] + [Turn("user", [Text(text)])] == [Turn("user", [Text(text)])];
  }

  method IngressResponses(input: Input) returns (c: Canonical)
    ensures c == Ingress(ItemsOf(input))
  {
    hide Ingress, IngressContent, IngressOutput;
    var system: seq<Part>, turns: seq<Turn>, reasoning: seq<Raw> := [], [], [];
    if input.Prompt? {
      if input.text != "" {
        turns := turns + [Turn("user", [Text(input.text)])];
        PromptIsMessage(input.text);
      } else {
        IngressNothing([]);
      }
      return Canonical(system, turns, reasoning);
    }
    if input.NoInput? {
      IngressNothing([]);
      return Canonical(system, turns, reasoning);
    }
    var items := input.items;
    assert Ingress(items[..0]) == Canonical([], [], []) by { IngressNothing(items[..0]); }
    for i := 0 to |items|
      invariant Canonical(system, turns, reasoning) == Ingress(items[..i])
    {
      IngressTakes(items, i);
      match items[i] {
        case Message(role, content) =>
          var parts := IngressContent(content);
          if role == "system" || role == "developer" {
            system := system + parts;
          } else {
            turns := turns + [Turn(RoleOf(role), parts)];
          }
        case Call(id, name, arguments) =>
          turns := turns + [Turn("assistant", [ToolUse(id, name, arguments)])];
        case Output(id, output) =>
          turns := turns + [Turn("user", [ToolResult(id, IngressOutput(output))])];
        case Reasoning(raw, text) =>
          turns := turns + [Turn("assistant", [Thinking(text)])];
          reasoning := reasoning + [raw];
        case Other(raw) =>
          turns := turns + [Turn("assistant", [Unknown(raw)])];
      }
    }
    assert items[..|items|] == items;
    c := Canonical(system, turns, reasoning);
  }

  // ---- Egress --------------------------------------------------------------

  function JoinText(parts: seq<Part>): string {
    if parts == [] then "" else (if parts[0].Text? then parts[0].text else "") + JoinText(parts[1..])
  }

  predicate Buffered(p: Part) {
    p.Text? || p.Image? || p.Document?
  }

  function EgressPart(p: Part): ContentPart
    requires Buffered(p)
  {
    match p
    case Text(t) => InputText(t)
    case Image(url, media, data) =>
      InputImage(if url.None? && data.Some? then Some(DataUrl(media, data.value)) else url)
    case Document(url, data, media, filename, fileId) =>
      InputFile(
        if data.Some? then Some(Or(url, DataUrl(media, data.value))) else url,
        media, filename, fileId)
  }

  function EgressContent(ps: seq<Part>): seq<ContentPart>
    requires forall p | p in ps :: Buffered(p)
  {
    if ps == [] then [] else [EgressPart(ps[0])] + EgressContent(ps[1..])
  }

  function Flush(role: string, buffered: seq<Part>): seq<Item>
    requires forall p | p in buffered :: Buffered(p)
  {
    if buffered == [] then [] else [Message(role, Listed(EgressContent(buffered)))]
  }

  function ResultText(dumps: Raw -> string, r: Result): string {
    match r
    case Said(t) => t
    case Parts(ps) => JoinText(ps)
    case Nothing => ""
    case Opaque(raw) => dumps(raw)
  }

  /** What stands for the functions the code calls out to; `summary` builds a
      reasoning item from a text when no original item is left to reuse. */
  datatype Env = Env(digest: string -> string, dumps: Raw -> string, summary: string -> Raw)

  /** A part that is not buffered, with the reasoning items still to hand out. */
  function EgressOne(env: Env, p: Part, left: seq<Raw>): (Item, seq<Raw>)
    requires !Buffered(p)
  {
    match p
    case ToolUse(id, name, raw) =>
      (Call(BoundId(env.digest, id), name, Some(if raw.Some? then raw.value else "{}")), left)
    case ToolResult(id, content) =>
      (Output(BoundId(env.digest, id), Plain(ResultText(env.dumps, content))), left)
    case Thinking(text) =>
      if left != [] then (Reasoning(left[0], text), left[1..]) else (Reasoning(env.summary(text), text), [])
    case Unknown(raw) => (Other(raw), left)
  }

  function EgressTurn(env: Env, role: string, parts: seq<Part>, buffered: seq<Part>, left: seq<Raw>)
    : (seq<Item>, seq<Raw>)
    requires forall p | p in buffered :: Buffered(p)
    decreases |parts|
  {
    if parts == [] then (Flush(role, buffered), left)
    else if Buffered(parts[0]) then EgressTurn(env, role, parts[1..], buffered + [parts[0]], left)
    else
      var (item, left1) := EgressOne(env, parts[0], left);
      var (items, left2) := EgressTurn(env, role, parts[1..], [], left1);
      (Flush(role, buffered) + [item] + items, left2)
  }

  function Egress(env: Env, turns: seq<Turn>, left: seq<Raw>): seq<Item>
    decreases |turns|
  {
    if turns == [] then []
    else
      var (items, left1) := EgressTurn(env, RoleOf(turns[0].role), turns[0].parts, [], left);
      items + Egress(env, turns[1..], left1)
  }

  /** Where the two loops of the egress stand. */
  ghost predicate EgressedTo(env: Env, turns: seq<Turn>, raws: seq<Raw>, items: seq<Item>,
                             i: nat, j: nat, buffered: seq<Part>, k: nat)
    requires i < |turns| && j <= |turns[i].parts| && k <= |raws|
    requires forall p | p in buffered :: Buffered(p)
  {
    var (now, left) := EgressTurn(env, RoleOf(turns[i].role), turns[i].parts[j..], buffered, raws[k..]);
    Egress(env, turns, raws) == items + (now + Egress(env, turns[i + 1..], left))
  }

  lemma EgressTakes(env: Env, turns: seq<Turn>, raws: seq<Raw>, items: seq<Item>,
                    i: nat, j: nat, buffered: seq<Part>, k: nat)
    requires i < |turns| && j < |turns[i].parts| && k <= |raws|
    requires forall p | p in buffered :: Buffered(p)
    requires EgressedTo(env, turns, raws, items, i, j, buffered, k)
    ensures var p := turns[i].parts[j];
            if Buffered(p) then EgressedTo(env, turns, raws, items, i, j + 1, buffered + [p], k)
            else
              var item := EgressOne(env, p, raws[k..]).0;
              EgressedTo(env, turns, raws, items + Flush(RoleOf(turns[i].role), buffered) + [item], i, j + 1, [],
                         if p.Thinking? && k < |raws| then k + 1 else k)
  {
    hide Egress, Flush;
    var parts, p := turns[i].parts, turns[i].parts[j];
    assert parts[j..][1..] == parts[j + 1..];
    if !Buffered(p) {
      var k' := if p.Thinking? && k < |raws| then k + 1 else k;
      var (item, left1) := EgressOne(env, p, raws[k..]);
      assert k < |raws| ==> raws[k..][1..] == raws[k + 1..];
      assert left1 == raws[k'..];
      var flushed := Flush(RoleOf(turns[i].role), buffered);
      var (more, left2) := EgressTurn(env, RoleOf(turns[i].role), parts[j + 1..], [], left1);
      var tail := Egress(env, turns[i + 1..], left2);
      assert items + (flushed + [item] + more + tail) == items + flushed + [item] + (more + tail);
    }
  }

  lemma EgressOpens(env: Env, turns: seq<Turn>, raws: seq<Raw>, items: seq<Item>, i: nat, k: nat)
    requires i < |turns| && k <= |raws|
    requires Egress(env, turns, raws) == items + Egress(env, turns[i..], raws[k..])
    ensures EgressedTo(env, turns, raws, items, i, 0, [], k)
  {
    hide EgressTurn;
    assert turns[i..][1..] == turns[i + 1..];
    assert turns[i].parts[0..] == turns[i].parts;
  }

  lemma EgressCloses(env: Env, turns: seq<Turn>, raws: seq<Raw>, items: seq<Item>, i: nat, buffered: seq<Part>, k: nat)
    requires i < |turns| && k <= |raws|
    requires forall p | p in buffered :: Buffered(p)
    requires EgressedTo(env, turns, raws, items, i, |turns[i].parts|, buffered, k)
    ensures Egress(env, turns, raws)
         == items + Flush(RoleOf(turns[i].role), buffered) + Egress(env, turns[i + 1..], raws[k..])
  {
    hide Egress, Flush;
    Assoc(items, Flush(RoleOf(turns[i].role), buffered), Egress(env, turns[i + 1..], raws[k..]));
  }

  method EgressResponses(env: Env, turns: seq<Turn>, raws: seq<Raw>) returns (items: seq<Item>)
    ensures items == Egress(env, turns, raws)
  {
    hide Egress, EgressedTo, EgressContent;
    items := [];
    var reasoningIdx := 0;
    var i := 0;
    assert turns[0..] == turns && raws[0..] == raws;
    while i < |turns|
      invariant 0 <= i <= |turns| && 0 <= reasoningIdx <= |raws|
      invariant Egress(env, turns, raws) == items + Egress(env, turns[i..], raws[reasoningIdx..])
    {
      var role := RoleOf(turns[i].role);
      var parts := turns[i].parts;
      var buffered: seq<Part> := [];
      EgressOpens(env, turns, raws, items, i, reasoningIdx);
      var j := 0;
      while j < |parts|
        invariant 0 <= j <= |parts| && 0 <= reasoningIdx <= |raws|
        invariant forall p | p in buffered :: Buffered(p)
        invariant EgressedTo(env, turns, raws, items, i, j, buffered, reasoningIdx)
      {
        EgressTakes(env, turns, raws, items, i, j, buffered, reasoningIdx);
        var part := parts[j];
        ghost var before, flushed := items, Flush(role, buffered);
        if Buffered(part) {
          buffered := buffered + [part];
        } else {
          if buffered != [] {
            items := items + [Message(role, Listed(EgressContent(buffered)))];
            buffered := [];
          }
          assert items == before + flushed;
          match part {
            case ToolUse(id, name, raw) =>
              items := items + [Call(BoundId(env.digest, id), name, Some(if raw.Some? then raw.value else "{}"))];
            case ToolResult(id, content) =>
              items := items + [Output(BoundId(env.digest, id), Plain(ResultText(env.dumps, content)))];
            case Thinking(text) =>
              if reasoningIdx < |raws| {
                items := items + [Reasoning(raws[reasoningIdx], text)];
                reasoningIdx := reasoningIdx + 1;
              } else {
                items := items + [Reasoning(env.summary(text), text)];
              }
            case Unknown(raw) =>
              items := items + [Other(raw)];
          }
        }
        j := j + 1;
      }
      EgressCloses(env, turns, raws, items, i, buffered, reasoningIdx);
      if buffered != [] {
        items := items + [Message(role, Listed(EgressContent(buffered)))];
      }
      i := i + 1;
    }
    assert turns[i..] == [];
    assert Egress(env, [], raws[reasoningIdx..]) == [] by { EgressNothing(env, raws[reasoningIdx..]); }
  }

  lemma EgressNothing(env: Env, left: seq<Raw>)
    ensures Egress(env, [], left) == []
  {}

  // ---- What comes back -----------------------------------------------------

  /** The body's content before or after one pass: the system text and the `input` list.
      `override` is a top-level `reasoning_items` key, which displaces the kept items. */
  datatype Body = Body(instructions: string, input: seq<Item>)

  function Normalised(env: Env, b: Body, override: Option<seq<Raw>>): Body {
    var c := Ingress(b.input);
    var system := (if b.instructions == "" then [] else [Text(b.instructions)]) + c.system;
    Body(JoinText(system), Egress(env, c.turns, if override.Some? then override.value else c.reasoning))
  }

  method Normalise(env: Env, instructions: string, input: Input, override: Option<seq<Raw>>) returns (out: Body)
    ensures out == Normalised(env, Body(instructions, ItemsOf(input)), override)
  {
    hide Ingress, Egress, JoinText;
    var c := IngressResponses(input);
    var system := (if instructions == "" then [] else [Text(instructions)]) + c.system;
    var items := EgressResponses(env, c.turns, if override.Some? then override.value else c.reasoning);
    out := Body(JoinText(system), items);
  }

  predicate KnownParts(c: Content) {
    !c.Odd? && (c.Listed? ==> forall p | p in c.parts :: !p.OtherPart?)
  }

  predicate Known(item: Item) {
    item.Message? ==> KnownParts(item.content)
  }

  function PartsOf(c: Content): seq<ContentPart> {
    match c
    case Plain(t) => if t == "" then [] else [InputText(t)]
    case Listed(ps) => ps
    case _ => []
  }

  /** A known content part, rewritten on its own. */
  function NormalPart(p: ContentPart): ContentPart {
    if p.OtherPart? then p else EgressPart(IngressPart(p))
  }

  function NormalParts(ps: seq<ContentPart>): (r: seq<ContentPart>)
    ensures |r| == |ps|
    ensures forall i | 0 <= i < |ps| :: r[i] == NormalPart(ps[i])
  {
    if ps == [] then [] else [NormalPart(ps[0])] + NormalParts(ps[1..])
  }

  /** What becomes of one item, without any canonical form or buffering in between:
      system text and empty messages vanish, everything else stays one item. */
  function NormalItem(env: Env, item: Item): seq<Item> {
    match item
    case Message(role, content) =>
      if IsSystem(item) || PartsOf(content) == [] then []
      else [Message(RoleOf(role), Listed(NormalParts(PartsOf(content))))]
    case Call(id, name, arguments) =>
      [Call(BoundId(env.digest, id), name, Some(if arguments.Some? then arguments.value else "{}"))]
    case Output(id, output) =>
      [Output(BoundId(env.digest, id), Plain(ResultText(env.dumps, IngressOutput(output))))]
    case Reasoning(_, _) => [item]
    case Other(_) => [item]
  }

  function NormalItems(env: Env, items: seq<Item>): seq<Item> {
    if items == [] then [] else NormalItems(env, items[..|items| - 1]) + NormalItem(env, items[|items| - 1])
  }

  lemma KnownIsBuffered(c: Content)
    requires KnownParts(c)
    ensures forall p | p in IngressContent(c) :: Buffered(p)
    ensures EgressContent(IngressContent(c)) == NormalParts(PartsOf(c))
    ensures IngressContent(c) == [] <==> PartsOf(c) == []
  {
    if c.Listed? { KnownListIsBuffered(c.parts); }
    if c.Plain? && c.text != "" {
      var one := [Text(c.text)];
      assert one[1..] == [] && [InputText(c.text)][1..] == [];
    }
  }

  lemma {:induction false} KnownListIsBuffered(ps: seq<ContentPart>)
    requires forall p | p in ps :: !p.OtherPart?
    ensures forall p | p in IngressParts(ps) :: Buffered(p)
    ensures EgressContent(IngressParts(ps)) == NormalParts(ps)
    decreases |ps|
  {
    hide EgressPart;
    if ps != [] {
      KnownListIsBuffered(ps[1..]);
      var rest := IngressParts(ps[1..]);
      assert IngressParts(ps) == [IngressPart(ps[0])] + rest;
      assert ([IngressPart(ps[0])] + rest)[1..] == rest;
    }
  }

  /** A run of buffered parts leaves as one message. */
  lemma {:induction false} BufferedRun(env: Env, role: string, parts: seq<Part>, buffered: seq<Part>, left: seq<Raw>)
    requires forall p | p in buffered :: Buffered(p)
    requires forall p | p in parts :: Buffered(p)
    ensures EgressTurn(env, role, parts, buffered, left) == (Flush(role, buffered + parts), left)
    decreases |parts|
  {
    hide Flush;
    if parts == [] {
      assert buffered + [] == buffered;
    } else {
      BufferedRun(env, role, parts[1..], buffered + [parts[0]], left);
      assert buffered + [parts[0]] + parts[1..] == buffered + parts;
    }
  }

  /** The turns of one item, on their own. */
  lemma ItemAlone(env: Env, item: Item, left: seq<Raw>)
    requires Known(item) && !IsSystem(item)
    ensures var turn := IngressItem(item)[0];
            IngressItem(item) == [turn]
            && EgressTurn(env, RoleOf(turn.role), turn.parts, [], RawOf(item) + left) == (NormalItem(env, item), left)
  {
    var turn := IngressItem(item)[0];
    var raws := RawOf(item) + left;
    assert [] + left == left;
    if item.Reasoning? { assert ([item.raw] + left)[1..] == left; }
    match item {
      case Message(role, content) =>
        KnownIsBuffered(content);
        hide EgressTurn, IngressContent;
        BufferedRun(env, RoleOf(role), turn.parts, [], raws);
        assert [] + turn.parts == turn.parts;
      case Call(id, name, arguments) => SinglePart(env, turn.role, turn.parts[0], raws);
      case Output(id, output) => SinglePart(env, turn.role, turn.parts[0], raws);
      case Reasoning(raw, text) => SinglePart(env, turn.role, turn.parts[0], raws);
      case Other(raw) => SinglePart(env, turn.role, turn.parts[0], raws);
    }
  }

  lemma SinglePart(env: Env, role: string, p: Part, left: seq<Raw>)
    requires !Buffered(p)
    ensures var (item, rest) := EgressOne(env, p, left);
            EgressTurn(env, role, [p], [], left) == ([item], rest)
  {
    hide EgressOne;
    assert [p][1..] == [];
    var (item, rest) := EgressOne(env, p, left);
    EmptyTurn(env, role, rest);
    assert [] + [item] + [] == [item];
  }

  lemma EmptyTurn(env: Env, role: string, left: seq<Raw>)
    ensures EgressTurn(env, role, [], [], left) == ([], left)
  {}

  lemma {:induction false} EgressAppend(env: Env, a: seq<Turn>, b: seq<Turn>, left: seq<Raw>)
    ensures Egress(env, a + b, left) == Egress(env, a, left) + Egress(env, b, LeftAfter(env, a, left))
    decreases |a|
  {
    hide EgressTurn;
    if a == [] {
      assert a + b == b && [] + Egress(env, b, left) == Egress(env, b, left);
    } else {
      var (items, left1) := EgressTurn(env, RoleOf(a[0].role), a[0].parts, [], left);
      assert (a + b)[1..] == a[1..] + b && (a + b)[0] == a[0];
      EgressAppend(env, a[1..], b, left1);
      Assoc(items, Egress(env, a[1..], left1), Egress(env, b, LeftAfter(env, a, left)));
    }
  }

  function LeftAfter(env: Env, turns: seq<Turn>, left: seq<Raw>): seq<Raw>
    decreases |turns|
  {
    if turns == [] then left
    else LeftAfter(env, turns[1..], EgressTurn(env, RoleOf(turns[0].role), turns[0].parts, [], left).1)
  }

  lemma OneTurn(env: Env, turn: Turn, left: seq<Raw>)
    ensures var (items, left1) := EgressTurn(env, RoleOf(turn.role), turn.parts, [], left);
            Egress(env, [turn], left) == items && LeftAfter(env, [turn], left) == left1
  {
    hide EgressTurn;
    assert [turn][1..] == [];
    var items := EgressTurn(env, RoleOf(turn.role), turn.parts, [], left).0;
    assert items + [] == items;
  }

  /** Ingress then egress, with later reasoning items still waiting, is item by item. */
  lemma {:induction false} ItemByItem(env: Env, items: seq<Item>, later: seq<Raw>)
    requires forall x | x in items :: Known(x)
    ensures var c := Ingress(items);
            && Egress(env, c.turns, c.reasoning + later) == NormalItems(env, items)
            && LeftAfter(env, c.turns, c.reasoning + later) == later
    decreases |items|
  {
    if items == [] {
      assert [] + later == later;
    } else {
      hide Egress, EgressTurn, IngressItem, NormalItem, LeftAfter;
      var front, last := items[..|items| - 1], items[|items| - 1];
      var c := Ingress(front);
      var raws := RawOf(last) + later;
      ItemByItem(env, front, raws);
      Assoc(c.reasoning, RawOf(last), later);
      EgressAppend(env, c.turns, IngressItem(last), c.reasoning + raws);
      LeftAppend(env, c.turns, IngressItem(last), c.reasoning + raws);
      LastItem(env, last, later);
    }
  }

  lemma {:induction false} LeftAppend(env: Env, a: seq<Turn>, b: seq<Turn>, left: seq<Raw>)
    ensures LeftAfter(env, a + b, left) == LeftAfter(env, b, LeftAfter(env, a, left))
    decreases |a|
  {
    hide EgressTurn;
    if a == [] {
      assert a + b == b;
    } else {
      assert (a + b)[1..] == a[1..] + b && (a + b)[0] == a[0];
      LeftAppend(env, a[1..], b, EgressTurn(env, RoleOf(a[0].role), a[0].parts, [], left).1);
    }
  }

  lemma LastItem(env: Env, item: Item, later: seq<Raw>)
    requires Known(item)
    ensures Egress(env, IngressItem(item), RawOf(item) + later) == NormalItem(env, item)
    ensures LeftAfter(env, IngressItem(item), RawOf(item) + later) == later
  {
    if IsSystem(item) {
      assert [] + later == later;
    } else {
      ItemAlone(env, item, later);
      hide EgressTurn, NormalItem, IngressContent;
      OneTurn(env, IngressItem(item)[0], RawOf(item) + later);
    }
  }

  /** One pass rewrites the input item by item, in place. */
  lemma ItemsKept(env: Env, b: Body)
    requires forall x | x in b.input :: Known(x)
    ensures Normalised(env, b, None).input == NormalItems(env, b.input)
  {
    hide Egress, Ingress, NormalItems;
    ItemByItem(env, b.input, []);
    var raws := Ingress(b.input).reasoning;
    assert raws + [] == raws;
  }

  /** The raw reasoning items of a list, in order. */
  function ReasoningOf(items: seq<Item>): seq<Raw> {
    if items == [] then [] else ReasoningOf(items[..|items| - 1]) + RawOf(items[|items| - 1])
  }

  lemma ReasoningSnoc(items: seq<Item>, last: Item)
    ensures ReasoningOf(items + [last]) == ReasoningOf(items) + RawOf(last)
  {
    assert (items + [last])[..|items|] == items;
  }

  lemma {:induction false} ReasoningOfNormal(env: Env, items: seq<Item>)
    ensures ReasoningOf(NormalItems(env, items)) == ReasoningOf(items)
    decreases |items|
  {
    if items != [] {
      hide ReasoningOf, NormalItem;
      var front, last := items[..|items| - 1], items[|items| - 1];
      assert items == front + [last];
      ReasoningOfNormal(env, front);
      ReasoningSnoc(front, last);
      var done, more := NormalItems(env, front), NormalItem(env, last);
      NormalItemShape(env, last);
      if more == [] {
        assert done + more == done;
        assert ReasoningOf(front) + [] == ReasoningOf(front);
      } else {
        assert more == [more[0]];
        ReasoningSnoc(done, more[0]);
      }
    } else {
      assert NormalItems(env, []) == [];
    }
  }

  lemma NormalItemShape(env: Env, item: Item)
    ensures var r := NormalItem(env, item);
            |r| <= 1 && (r == [] ==> RawOf(item) == []) && (|r| == 1 ==> RawOf(r[0]) == RawOf(item))
  {
    hide ResultText, IngressOutput, NormalParts;
  }

  /** The k-th reasoning item of the result is, verbatim, the k-th that came in. */
  lemma ReasoningKept(env: Env, b: Body)
    requires forall x | x in b.input :: Known(x)
    ensures ReasoningOf(Normalised(env, b, None).input) == ReasoningOf(b.input)
  {
    hide Normalised, NormalItems, ReasoningOf;
    ItemsKept(env, b);
    ReasoningOfNormal(env, b.input);
  }

  // ---- A top-level `reasoning_items` key -----------------------------------

  /** The texts of the reasoning items, in order. */
  function ReasoningTexts(items: seq<Item>): seq<string> {
    if items == [] then []
    else
      var last := items[|items| - 1];
      ReasoningTexts(items[..|items| - 1]) + if last.Reasoning? then [last.text] else []
  }

  /** What the `k`-th reasoning item becomes: the `k`-th entry of the key, or a new summary. */
  function Handed(env: Env, raws: seq<Raw>, k: nat, text: string): Raw {
    if k < |raws| then raws[k] else env.summary(text)
  }

  function ReplacedItem(env: Env, item: Item, raws: seq<Raw>, k: nat): Item {
    if item.Reasoning? then Reasoning(Handed(env, raws, k, item.text), item.text) else item
  }

  /** The items with each reasoning item replaced by what is handed out for it. */
  function Replaced(env: Env, items: seq<Item>, raws: seq<Raw>): seq<Item> {
    if items == [] then []
    else
      var front, last := items[..|items| - 1], items[|items| - 1];
      Replaced(env, front, raws) + [ReplacedItem(env, last, raws, |ReasoningOf(front)|)]
  }

  function Past(raws: seq<Raw>, n: nat): seq<Raw> {
    if n < |raws| then raws[n..] else []
  }

  lemma NewSummary(env: Env, raw: Raw, text: string)
    ensures var turns := IngressItem(Reasoning(raw, text));
            Egress(env, turns, []) == NormalItem(env, Reasoning(env.summary(text), text))
            && LeftAfter(env, turns, []) == []
  {
    hide EgressTurn;
    SinglePart(env, "assistant", Thinking(text), []);
    OneTurn(env, Turn("assistant", [Thinking(text)]), []);
  }

  lemma ReplacedLast(env: Env, last: Item, raws: seq<Raw>, n: nat)
    requires Known(last)
    ensures var turns := IngressItem(last);
            && Egress(env, turns, Past(raws, n)) == NormalItem(env, ReplacedItem(env, last, raws, n))
            && LeftAfter(env, turns, Past(raws, n)) == Past(raws, n + |RawOf(last)|)
  {
    hide Egress, LeftAfter, NormalItem;
    if !last.Reasoning? {
      LastItem(env, last, Past(raws, n));
      assert [] + Past(raws, n) == Past(raws, n);
    } else if n < |raws| {
      LastItem(env, Reasoning(raws[n], last.text), raws[n + 1..]);
      assert [raws[n]] + raws[n + 1..] == raws[n..];
      assert Past(raws, n + 1) == raws[n + 1..];
    } else {
      NewSummary(env, last.raw, last.text);
    }
  }

  lemma TurnsSnoc(items: seq<Item>, last: Item)
    ensures Ingress(items + [last]).turns == Ingress(items).turns + IngressItem(last)
  {
    hide IngressItem;
    assert (items + [last])[..|items|] == items;
  }

  lemma ReplacedSnoc(env: Env, items: seq<Item>, last: Item, raws: seq<Raw>)
    ensures Replaced(env, items + [last], raws)
         == Replaced(env, items, raws) + [ReplacedItem(env, last, raws, |ReasoningOf(items)|)]
  {
    hide ReplacedItem, ReasoningOf;
    assert (items + [last])[..|items|] == items;
  }

  lemma NormalSnoc(env: Env, items: seq<Item>, last: Item)
    ensures NormalItems(env, items + [last]) == NormalItems(env, items) + NormalItem(env, last)
  {
    hide NormalItem;
    assert (items + [last])[..|items|] == items;
  }

  lemma {:induction false} ReplacedItems(env: Env, items: seq<Item>, raws: seq<Raw>)
    requires forall x | x in items :: Known(x)
    ensures var turns := Ingress(items).turns;
            && Egress(env, turns, raws) == NormalItems(env, Replaced(env, items, raws))
            && LeftAfter(env, turns, raws) == Past(raws, |ReasoningOf(items)|)
    decreases |items|
  {
    hide *;
    if items == [] {
      NothingReplaced(env, raws);
    } else {
      var front, last := items[..|items| - 1], items[|items| - 1];
      assert items == front + [last];
      ReplacedItems(env, front, raws);
      var turns, n := Ingress(front).turns, |ReasoningOf(front)|;
      TurnsSnoc(front, last);
      EgressAppend(env, turns, IngressItem(last), raws);
      LeftAppend(env, turns, IngressItem(last), raws);
      ReplacedLast(env, last, raws, n);
      ReplacedSnoc(env, front, last, raws);
      NormalSnoc(env, Replaced(env, front, raws), ReplacedItem(env, last, raws, n));
      ReasoningSnoc(front, last);
    }
  }

  lemma NothingReplaced(env: Env, raws: seq<Raw>)
    ensures Egress(env, Ingress([]).turns, raws) == NormalItems(env, Replaced(env, [], raws))
    ensures LeftAfter(env, Ingress([]).turns, raws) == Past(raws, |ReasoningOf([])|)
  {
    hide EgressTurn;
    assert Past(raws, 0) == raws;
  }

  /** With such a key one pass still rewrites the input item by item, in place and in order, but
      takes the reasoning items from the key and invents summaries past its end. */
  lemma OverrideRewrites(env: Env, b: Body, raws: seq<Raw>)
    requires forall x | x in b.input :: Known(x)
    ensures Normalised(env, b, Some(raws)).input == NormalItems(env, Replaced(env, b.input, raws))
  {
    hide Egress, Ingress, NormalItems, Replaced, LeftAfter;
    ReplacedItems(env, b.input, raws);
  }

  lemma TextsSnoc(items: seq<Item>, last: Item)
    ensures ReasoningTexts(items + [last]) == ReasoningTexts(items) + if last.Reasoning? then [last.text] else []
  {
    assert (items + [last])[..|items|] == items;
  }

  /** What is handed out for each text. */
  predicate HandsOut(env: Env, raws: seq<Raw>, r: seq<Raw>, texts: seq<string>) {
    |r| == |texts| && forall k | 0 <= k < |r| :: r[k] == Handed(env, raws, k, texts[k])
  }

  lemma HandsOutSnoc(env: Env, raws: seq<Raw>, r: seq<Raw>, texts: seq<string>, item: Item)
    requires HandsOut(env, raws, r, texts)
    ensures HandsOut(env, raws, r + RawOf(ReplacedItem(env, item, raws, |r|)),
                     texts + if item.Reasoning? then [item.text] else [])
    ensures |RawOf(ReplacedItem(env, item, raws, |r|))| == |RawOf(item)|
  {
    hide Handed;
  }

  lemma {:induction false} ReasoningOfReplaced(env: Env, items: seq<Item>, raws: seq<Raw>)
    ensures |ReasoningOf(Replaced(env, items, raws))| == |ReasoningOf(items)|
    ensures HandsOut(env, raws, ReasoningOf(Replaced(env, items, raws)), ReasoningTexts(items))
    decreases |items|
  {
    hide *;
    if items == [] {
      NothingHandsOut(env, raws);
    } else {
      var front, last := items[..|items| - 1], items[|items| - 1];
      assert items == front + [last];
      ReasoningOfReplaced(env, front, raws);
      ReplacedSnoc(env, front, last, raws);
      ReasoningSnoc(front, last);
      TextsSnoc(front, last);
      var done := Replaced(env, front, raws);
      ReasoningSnoc(done, ReplacedItem(env, last, raws, |ReasoningOf(front)|));
      HandsOutSnoc(env, raws, ReasoningOf(done), ReasoningTexts(front), last);
    }
  }

  lemma NothingHandsOut(env: Env, raws: seq<Raw>)
    ensures ReasoningOf(Replaced(env, [], raws)) == [] && ReasoningOf([]) == [] && ReasoningTexts([]) == []
    ensures HandsOut(env, raws, [], [])
  {}

  /** The reasoning items survive such a key exactly when it agrees with them as far as it goes
      and the summaries invented past its end equal the items they stand for. */
  lemma OverrideKeepsExactly(env: Env, b: Body, raws: seq<Raw>)
    requires forall x | x in b.input :: Known(x)
    ensures var kept, texts := ReasoningOf(b.input), ReasoningTexts(b.input);
            && |kept| == |texts|
            && (ReasoningOf(Normalised(env, b, Some(raws)).input) == kept
                <==> forall k | 0 <= k < |kept| :: (if k < |raws| then raws[k] else env.summary(texts[k])) == kept[k])
  {
    hide Normalised, NormalItems, ReasoningOf, Replaced, ReasoningTexts;
    OverrideRewrites(env, b, raws);
    ReasoningOfNormal(env, Replaced(env, b.input, raws));
    ReasoningOfReplaced(env, b.input, raws);
  }

  /** So a key with another item loses the one that was kept. */
  lemma OverrideLosesReasoning(env: Env, raw: Raw, text: string, other: Raw)
    requires raw != other
    ensures var b := Body("", [Reasoning(raw, text)]);
            Normalised(env, b, Some([other])).input == [Reasoning(other, text)]
            && ReasoningOf(Normalised(env, b, Some([other])).input) != ReasoningOf(b.input)
  {
    var items := [Reasoning(raw, text)];
    assert items[..0] == [] && [Reasoning(other, text)][..0] == [];
    assert Ingress(items).turns == [] + [Turn("assistant", [Thinking(text)])];
    var turn := Turn("assistant", [Thinking(text)]);
    assert [] + [turn] == [turn];
    SinglePart(env, "assistant", Thinking(text), [other]);
    OneTurn(env, turn, [other]);
    assert [other][1..] == [];
    assert ReasoningOf([Reasoning(other, text)]) == [other];
    assert ReasoningOf(items) == [raw];
  }

  // ---- What each part keeps ------------------------------------------------

  /** A data URL: its media type, what follows that up to the comma, and its payload, if there is
      a comma. */
  predicate Splits(url: string, media: string, rest: string, data: Option<string>) {
    && url == "data:" + media + rest + (if data.Some? then "," + data.value else "")
    && ',' !in media && ';' !in media && ',' !in rest && (rest == "" || rest[0] == ';')
  }

  function Wrapped(media: string, data: string): string {
    "data:" + (if media == "" then "application/octet-stream" else media) + ";base64," + data
  }

  /** What comes back of a known part. A text is unchanged. A data URL keeps its payload and
      media type, and without a payload it is lost; any other image URL is unchanged. A file
      keeps its name; bare data becomes a data URL, and an `http` one stays. */
  ghost predicate PartKept(p: ContentPart, q: ContentPart) {
    match p
    case InputText(t) => q == InputText(t)
    case OutputText(t) => q == InputText(t)
    case InputImage(url) =>
      if url.Some? && "data:" <= url.value then
        q.InputImage? && forall media, rest, data | Splits(url.value, media, rest, data) ::
          q.url == if data.None? || data.value == "" then None else Some(Wrapped(media, data.value))
      else q == p
    case InputFile(data, mime, filename, fileId) =>
      && q.InputFile? && q.filename == filename
      && if data.None? then q == p
         else if "data:" <= data.value then
           q.fileId == None && forall media, rest, payload | Splits(data.value, media, rest, payload) ::
             && q.mime == (if mime.Some? && mime.value != "" then mime else if media == "" then None else Some(media))
             && q.data == if payload.None? || payload.value == "" then None
                          else Some(Wrapped(if q.mime.Some? then q.mime.value else "", payload.value))
         else if "http" <= data.value then q == p.(fileId := None)
         else q == p.(data := Some(Wrapped(if mime.Some? then mime.value else "", data.value)))
    case OtherPart(_) => true
  }

  lemma SplitMeans(url: string, media: string, rest: string, data: Option<string>)
    requires Splits(url, media, rest, data)
    ensures SplitDataUrl(url) == (if data.None? || data.value == "" then None else data,
                                  if media == "" then None else Some(media))
  {
    hide Find;
    var head := "data:" + media + rest;
    assert ',' !in "data:";
    assert url[..|head|] == head;
    FindIs(url, ',', |head|);
    if data.Some? { assert url[|head| + 1..] == data.value; }
    var header := media + rest;
    assert url[5..|head|] == header;
    assert header[..|media|] == media;
    FindIs(header, ';', |media|);
  }

  lemma PastScheme(url: string, comma: nat)
    requires "data:" <= url && comma <= |url| && (comma < |url| ==> url[comma] == ',')
    ensures comma >= 5
  {
    assert ',' !in "data:";
    assert forall k | 0 <= k < 5 :: url[k] == "data:"[k];
  }

  lemma Sliced(url: string, comma: nat)
    requires "data:" <= url && 5 <= comma <= |url| && ',' !in url[..comma] && (comma < |url| ==> url[comma] == ',')
    ensures ',' !in url[5..comma]
    ensures url == "data:" + url[5..comma] + if comma < |url| then "," + url[comma + 1..] else ""
  {
    assert url[..comma] == url[..5] + url[5..comma];
    var tail := if comma < |url| then "," + url[comma + 1..] else "";
    assert url[comma..] == tail;
    assert url == url[..comma] + url[comma..];
  }

  /** Every data URL is one of these. */
  lemma EveryUrlSplits(url: string) returns (media: string, rest: string, data: Option<string>)
    requires "data:" <= url
    ensures Splits(url, media, rest, data)
  {
    hide Find;
    var comma := Find(url, ',');
    PastScheme(url, comma);
    Sliced(url, comma);
    var header := url[5..comma];
    var semi := Find(header, ';');
    media, rest := header[..semi], header[semi..];
    data := if comma < |url| then Some(url[comma + 1..]) else None;
    assert header == media + rest;
    assert "data:" + header == "data:" + media + rest;
  }

  /** What a known part tells survives the way through the canonical form. */
  lemma PartComesBack(p: ContentPart)
    requires !p.OtherPart?
    ensures PartKept(p, NormalPart(p))
  {
    hide SplitDataUrl, Splits;
    if p.InputImage? && p.url.Some? && SCHEME <= p.url.value {
      forall media, rest, data | Splits(p.url.value, media, rest, data)
        ensures NormalPart(p).url == if data.None? || data.value == "" then None else Some(Wrapped(media, data.value))
      {
        SplitMeans(p.url.value, media, rest, data);
        if data.Some? { SameUrl(media, data.value); }
      }
    } else if p.InputFile? && p.data.Some? {
      SameUrl(if p.mime.Some? then p.mime.value else "", p.data.value);
      if SCHEME <= p.data.value { FileComesBack(p); }
    }
  }

  lemma FileComesBack(p: ContentPart)
    requires p.InputFile? && p.data.Some? && SCHEME <= p.data.value
    ensures PartKept(p, NormalPart(p))
  {
    hide SplitDataUrl, Splits;
    forall media, rest, payload | Splits(p.data.value, media, rest, payload)
      ensures var q := NormalPart(p);
              && q.mime == (if p.mime.Some? && p.mime.value != "" then p.mime
                            else if media == "" then None else Some(media))
              && q.data == if payload.None? || payload.value == "" then None
                           else Some(Wrapped(if q.mime.Some? then q.mime.value else "", payload.value))
    {
      SplitMeans(p.data.value, media, rest, payload);
      var mime := NormalPart(p).mime;
      if payload.Some? { SameUrl(if mime.Some? then mime.value else "", payload.value); }
    }
  }

  lemma SameUrl(media: string, data: string)
    ensures Wrapped(media, data) == DataUrl(Some(media), data)
    ensures Wrapped("", data) == DataUrl(None, data)
  {
    var m := if media == "" then "application/octet-stream" else media;
    assert ";base64" + "," == ";base64,";
    assert "data:" + m + (";base64" + ",") + data == "data:" + m + ";base64" + "," + data;
    assert "data:" + OCTETS + (";base64" + ",") + data == "data:" + OCTETS + ";base64" + "," + data;
  }

  /** The texts of a list's text parts, in order. */
  function TextsOf(ps: seq<ContentPart>): seq<string> {
    if ps == [] then []
    else (if ps[0].InputText? || ps[0].OutputText? then [ps[0].text] else []) + TextsOf(ps[1..])
  }

  /** The texts a content gives, in order. */
  function ContentTexts(c: Content): seq<string> {
    match c
    case Plain(t) => if t == "" then [] else [t]
    case Listed(ps) => TextsOf(ps)
    case _ => []
  }

  /** System and developer messages become instructions, and empty ones vanish. */
  predicate Carried(item: Item) {
    match item
    case Message(role, content) =>
      && role != "system" && role != "developer"
      && content != NoContent && content != Plain("") && content != Listed([])
    case _ => true
  }

  function CarriedItems(items: seq<Item>): seq<Item> {
    if items == [] then []
    else CarriedItems(items[..|items| - 1]) + if Carried(items[|items| - 1]) then [items[|items| - 1]] else []
  }

  /** The texts of the system and developer messages, in order. */
  function InstructionTexts(items: seq<Item>): seq<string> {
    if items == [] then []
    else
      var last := items[|items| - 1];
      InstructionTexts(items[..|items| - 1])
      + if last.Message? && (last.role == "system" || last.role == "developer") then ContentTexts(last.content) else []
  }

  predicate IdKept(env: Env, id: Option<string>, kept: Option<string>) {
    if id.Some? && |id.value| > 64 then kept == Some(id.value[..51] + "_" + env.digest(id.value)) else kept == id
  }

  /** What comes back of an item. */
  ghost predicate ItemKept(env: Env, item: Item, r: Item) {
    match item
    case Message(role, content) =>
      && r.Message? && r.role == (if role == "" then "user" else role) && r.content.Listed?
      && (content.Plain? ==> r.content.parts == [InputText(content.text)])
      && (content.Listed? ==>
            |r.content.parts| == |content.parts|
            && forall i | 0 <= i < |content.parts| :: PartKept(content.parts[i], r.content.parts[i]))
    case Call(id, name, arguments) =>
      r.Call? && IdKept(env, id, r.callId) && r.name == name
      && r.arguments == (if arguments.Some? then arguments else Some("{}"))
    case Output(id, output) =>
      && r.Output? && IdKept(env, id, r.callId)
      && r.output == Plain(if output.Plain? then output.text
                           else if output.Listed? then Flatten(TextsOf(output.parts))
                           else if output.Odd? then env.dumps(output.raw) else "")
    case _ => r == item
  }

  lemma {:induction false} JoinedTexts(ps: seq<ContentPart>)
    ensures JoinText(IngressParts(ps)) == Flatten(TextsOf(ps))
    decreases |ps|
  {
    hide SplitDataUrl;
    if ps != [] {
      JoinedTexts(ps[1..]);
      var first, rest := IngressPart(ps[0]), IngressParts(ps[1..]);
      assert IngressParts(ps) == [first] + rest && ([first] + rest)[1..] == rest;
      var more := TextsOf(ps[1..]);
      if ps[0].InputText? || ps[0].OutputText? {
        assert ([ps[0].text] + more)[1..] == more;
      } else {
        assert [] + more == more && "" + JoinText(rest) == JoinText(rest);
      }
    }
  }

  lemma JoinedContent(c: Content)
    ensures JoinText(IngressContent(c)) == Flatten(ContentTexts(c))
  {
    hide IngressParts;
    match c {
      case Listed(ps) => JoinedTexts(ps);
      case Plain(t) =>
        assert [Text(t)][1..] == [] && [t][1..] == [] && t + "" == t;
      case Odd(raw) =>
        assert [Unknown(raw)][1..] == [];
      case NoContent =>
    }
  }

  /** An item comes back as itself, if it is carried at all. */
  lemma ItemComesBack(env: Env, item: Item)
    requires Known(item)
    ensures var r := NormalItem(env, item);
            if Carried(item) then |r| == 1 && ItemKept(env, item, r[0]) else r == []
  {
    hide NormalPart, PartKept, JoinText, IngressParts, Flatten, TextsOf;
    match item {
      case Message(_, content) =>
        if content.Listed? {
          forall i | 0 <= i < |content.parts| ensures PartKept(content.parts[i], NormalPart(content.parts[i])) {
            assert content.parts[i] in content.parts;
            PartComesBack(content.parts[i]);
          }
        } else if content.Plain? {
          PartComesBack(InputText(content.text));
          PlainText(content.text);
        }
      case Output(_, output) =>
        if output.Listed? { JoinedTexts(output.parts); }
      case _ =>
    }
  }

  lemma PlainText(text: string)
    ensures NormalParts([InputText(text)]) == [InputText(text)]
  {
    PartComesBack(InputText(text));
    assert NormalPart(InputText(text)) == InputText(text);
  }

  lemma {:induction false} ItemsComeBack(env: Env, items: seq<Item>)
    requires forall x | x in items :: Known(x)
    ensures var kept, out := CarriedItems(items), NormalItems(env, items);
            |out| == |kept| && forall k | 0 <= k < |kept| :: ItemKept(env, kept[k], out[k])
    decreases |items|
  {
    hide NormalItem, ItemKept, Carried, Known;
    if items != [] {
      assert items[|items| - 1] in items;
      ItemsComeBack(env, items[..|items| - 1]);
      ItemComesBack(env, items[|items| - 1]);
    }
  }

  lemma {:induction false} JoinAppend(a: seq<Part>, b: seq<Part>)
    ensures JoinText(a + b) == JoinText(a) + JoinText(b)
    decreases |a|
  {
    if a == [] {
      assert a + b == b && "" + JoinText(b) == JoinText(b);
    } else {
      assert (a + b)[1..] == a[1..] + b && (a + b)[0] == a[0];
      JoinAppend(a[1..], b);
    }
  }

  lemma {:induction false} SystemComesBack(items: seq<Item>)
    ensures JoinText(Ingress(items).system) == Flatten(InstructionTexts(items))
    decreases |items|
  {
    if items != [] {
      hide JoinText, Flatten, IngressContent, ContentTexts, IngressItem;
      var front, last := items[..|items| - 1], items[|items| - 1];
      SystemComesBack(front);
      JoinAppend(Ingress(front).system, SystemOf(last));
      var prompts := last.Message? && (last.role == "system" || last.role == "developer");
      var more := if prompts then ContentTexts(last.content) else [];
      FlattenAppend(InstructionTexts(front), more);
      if IsSystem(last) { JoinedContent(last.content); }
      NothingJoined();
    } else {
      NothingJoined();
    }
  }

  lemma NothingJoined()
    ensures JoinText([]) == "" && Flatten<char>([]) == ""
  {}

  /** One pass over a body of known parts: the items that come back are those that went in, without
      system, developer and empty messages, in order, each telling what it told; the
      instruction text is the incoming one and then the texts of the system and developer
      messages. A top-level key changes which reasoning items these are, and nothing else. */
  lemma BodyComesBack(env: Env, b: Body, override: Option<seq<Raw>>)
    requires forall x | x in b.input :: Known(x)
    ensures var out := Normalised(env, b, override);
            var kept := CarriedItems(if override.Some? then Replaced(env, b.input, override.value) else b.input);
            && out.instructions == b.instructions + Flatten(InstructionTexts(b.input))
            && |out.input| == |kept|
            && forall k | 0 <= k < |kept| :: ItemKept(env, kept[k], out.input[k])
  {
    hide Egress, Ingress, NormalItems, Replaced, CarriedItems, ItemKept, JoinText, Flatten, InstructionTexts, Known;
    SystemComesBack(b.input);
    var given := if b.instructions == "" then [] else [Text(b.instructions)];
    JoinAppend(given, Ingress(b.input).system);
    TextAlone(b.instructions);
    NothingJoined();
    if override.Some? {
      OverrideRewrites(env, b, override.value);
      ReplacedKnown(env, b.input, override.value);
      ItemsComeBack(env, Replaced(env, b.input, override.value));
    } else {
      ItemsKept(env, b);
      ItemsComeBack(env, b.input);
    }
  }

  lemma TextAlone(text: string)
    ensures JoinText([Text(text)]) == text
  {
    assert [Text(text)][1..] == [] && text + "" == text;
  }

  lemma {:induction false} ReplacedKnown(env: Env, items: seq<Item>, raws: seq<Raw>)
    requires forall x | x in items :: Known(x)
    ensures forall x | x in Replaced(env, items, raws) :: Known(x)
    decreases |items|
  {
    hide Handed, ReasoningOf, KnownParts;
    if items != [] {
      assert items[|items| - 1] in items;
      ReplacedKnown(env, items[..|items| - 1], raws);
    }
  }

  /** A plain string as input is one user message with that text, or nothing, and comes back so. */
  lemma PromptComesBack(env: Env, instructions: string, text: string)
    ensures Ingress(ItemsOf(Prompt(text)))
         == Canonical([], if text == "" then [] else [Turn("user", [Text(text)])], [])
    ensures var out := Normalised(env, Body(instructions, ItemsOf(Prompt(text))), None);
            && out.instructions == instructions
            && out.input == if text == "" then [] else [Message("user", Listed([InputText(text)]))]
  {
    hide Normalised, JoinText;
    if text != "" { PromptIsMessage(text); }
    var b := Body(instructions, ItemsOf(Prompt(text)));
    BodyComesBack(env, b, None);
    if text != "" {
      assert b.input == [Message("user", Plain(text))] && b.input[..0] == [];
      assert CarriedItems(b.input) == b.input;
    }
    assert Flatten(InstructionTexts(b.input)) == "" && instructions + "" == instructions;
  }

  // ---- Normalising twice ---------------------------------------------------

  /** No comma in the media type, so that splitting the rebuilt URL finds the same payload. */
  predicate CleanMedia(mime: Option<string>) {
    mime.Some? && mime.value != "" && ',' !in mime.value
  }

  /** The file parts that one pass leaves in a form a second pass keeps. A part
      without a usable media type gains one on the second pass, a bare payload loses
      its file id, and a comma in the media type moves the payload. */
  predicate StableFile(p: ContentPart)
    requires p.InputFile?
  {
    if p.data.None? then true
    else if SCHEME <= p.data.value then
      var (payload, media) := SplitDataUrl(p.data.value);
      var mime := if p.mime.Some? && p.mime.value != "" then p.mime else media;
      if payload.None? then true else CleanMedia(mime)
    else if "http" <= p.data.value then true
    else p.data.value != "" && CleanMedia(p.mime) && p.fileId.None?
  }

  predicate StablePart(p: ContentPart) {
    p.InputFile? ==> StableFile(p)
  }

  lemma SplitAt(head: string, data: string)
    requires SCHEME <= head && ',' !in head
    ensures SCHEME <= head + "," + data
    ensures var h := head[5..];
            SplitDataUrl(head + "," + data) == (NonEmpty(data), NonEmpty(h[..Find(h, ';')]))
  {
    hide Find;
    var url := head + "," + data;
    assert url[..|head|] == head && url[|head|] == ',';
    FindIs(url, ',', |head|);
    assert url[|head| + 1..] == data;
    assert url[5..|head|] == head[5..];
  }

  lemma MediaOf(media: string)
    ensures var h := media + BASE64; h[..Find(h, ';')] == media[..Find(media, ';')]
  {
    hide Find;
    var semi := Find(media, ';');
    var h := media + BASE64;
    assert h[..semi] == media[..semi];
    assert h[semi] == ';';
    FindIs(h, ';', semi);
  }

  /** A rebuilt data URL splits into the same payload, and into its media type up to a ';'. */
  lemma SplitRebuilt(media: string, data: string)
    requires ',' !in media
    ensures SCHEME <= Rebuilt(media, data)
    ensures SplitDataUrl(Rebuilt(media, data)) == (NonEmpty(data), NonEmpty(media[..Find(media, ';')]))
  {
    hide SplitDataUrl, Find;
    var head := SCHEME + (media + BASE64);
    assert Rebuilt(media, data) == head + "," + data;
    assert ',' !in SCHEME && ',' !in BASE64;
    assert head[5..] == media + BASE64;
    SplitAt(head, data);
    MediaOf(media);
  }

  /** With a comma in the media type the payload no longer comes back. */
  lemma SplitRebuiltWithComma(media: string, data: string)
    requires ',' in media
    ensures SCHEME <= Rebuilt(media, data)
    ensures var r := SplitDataUrl(Rebuilt(media, data)); r.0.Some? && |r.0.value| > |data|
  {
    hide Find;
    var url, comma := Rebuilt(media, data), Find(media, ',');
    assert url == SCHEME + media + (BASE64 + "," + data);
    assert ',' !in SCHEME;
    assert url[..5 + comma] == SCHEME + media[..comma];
    FindIs(url, ',', 5 + comma);
    assert |url[5 + comma + 1..]| >= 8 + |data|;
  }

  lemma PlainMedia()
    ensures ',' !in OCTETS && ';' !in OCTETS && OCTETS != ""
  {}

  lemma NoSemicolon(media: string)
    requires ';' !in media
    ensures media[..Find(media, ';')] == media
  {
    FindIs(media, ';', |media|);
  }

  /** The media type split out of a data URL holds neither separator. */
  lemma SplitMediaIsPlain(url: string)
    requires SCHEME <= url
    ensures var media := SplitDataUrl(url).1;
            media.Some? ==> media.value != "" && ',' !in media.value && ';' !in media.value
  {
    hide Find;
    var header := url[5..Find(url, ',')];
    var semi := Find(header, ';');
    assert forall k | 0 <= k < semi :: header[..semi][k] == url[..Find(url, ',')][k + 5];
  }

  lemma RebuiltImageTwice(media: string, data: string)
    requires ',' !in media && ';' !in media && media != "" && data != ""
    ensures var q := InputImage(Some(Rebuilt(media, data))); NormalPart(q) == q
  {
    hide SplitDataUrl, Rebuilt, Find;
    SplitRebuilt(media, data);
    NoSemicolon(media);
  }

  lemma ImageTwice(p: ContentPart)
    requires p.InputImage?
    ensures NormalPart(NormalPart(p)) == NormalPart(p)
  {
    hide SplitDataUrl, Rebuilt, Find;
    if p.url.Some? && SCHEME <= p.url.value {
      var (data, media) := SplitDataUrl(p.url.value);
      SplitMediaIsPlain(p.url.value);
      PlainMedia();
      if data.Some? {
        PayloadNonEmpty(p.url.value);
        var m := Or(media, OCTETS);
        assert NormalPart(p) == InputImage(Some(Rebuilt(m, data.value)));
        hide NormalPart;
        RebuiltImageTwice(m, data.value);
      }
    }
  }

  lemma PayloadNonEmpty(url: string)
    requires SCHEME <= url
    ensures var r := SplitDataUrl(url); r.0.Some? ==> r.0.value != "" && NonEmpty(r.0.value) == r.0
  {}

  /** A rebuilt data URL, read a second time under the media type it is sent with. */
  lemma RebuiltTwice(mime: Option<string>, data: string, filename: Option<string>, fileId: Option<string>)
    ensures var q := InputFile(Some(DataUrl(mime, data)), mime, filename, fileId);
            NormalPart(q) == q <==> data != "" && CleanMedia(mime) && fileId.None?
  {
    hide SplitDataUrl, Rebuilt, Find;
    var m := Or(mime, OCTETS);
    PlainMedia();
    if ',' in m {
      SplitRebuiltWithComma(m, data);
      var payload := SplitDataUrl(Rebuilt(m, data)).0.value;
      RebuiltLength(m, payload, data);
    } else {
      SplitRebuilt(m, data);
      NoSemicolon(OCTETS);
    }
  }

  lemma RebuiltLength(m: string, a: string, b: string)
    ensures |a| != |b| ==> Rebuilt(m, a) != Rebuilt(m, b)
  {}

  /** A file part is settled after one pass exactly when it is stable. */
  lemma FileTwice(p: ContentPart)
    requires p.InputFile?
    ensures NormalPart(NormalPart(p)) == NormalPart(p) <==> StableFile(p)
  {
    hide SplitDataUrl, Rebuilt, Find;
    if p.data.Some? && SCHEME <= p.data.value {
      var (payload, media) := SplitDataUrl(p.data.value);
      SplitMediaIsPlain(p.data.value);
      PayloadNonEmpty(p.data.value);
      var mime := if p.mime.Some? && p.mime.value != "" then p.mime else media;
      if payload.Some? {
        RebuiltTwice(mime, payload.value, p.filename, None);
      }
    } else if p.data.Some? && !("http" <= p.data.value) {
      RebuiltTwice(p.mime, p.data.value, p.filename, p.fileId);
    }
  }

  lemma PartTwice(p: ContentPart)
    requires !p.OtherPart?
    ensures NormalPart(NormalPart(p)) == NormalPart(p) <==> StablePart(p)
  {
    if p.InputFile? { FileTwice(p); }
    if p.InputImage? { ImageTwice(p); }
  }

  predicate StableItem(item: Item) {
    item.Message? && !IsSystem(item) ==> forall p | p in PartsOf(item.content) :: StablePart(p)
  }

  ghost predicate Lawful(env: Env) {
    forall s :: |env.digest(s)| == 12
  }

  lemma BoundTwice(env: Env, id: Option<string>)
    requires Lawful(env)
    ensures BoundId(env.digest, BoundId(env.digest, id)) == BoundId(env.digest, id)
  {}

  /** What one pass leaves of an item settles, or not, as the item is stable. */
  lemma ItemTwice(env: Env, item: Item)
    requires Lawful(env) && Known(item)
    ensures var r := NormalItem(env, item);
            && |r| <= 1
            && (r == [] ==> StableItem(item))
            && (|r| == 1 ==> Known(r[0]) && !IsSystem(r[0]) && |NormalItem(env, r[0])| == 1
                             && (NormalItem(env, r[0]) == r <==> StableItem(item)))
  {
    hide Lawful, Bound, NormalPart, StablePart, ResultText;
    match item {
      case Message(role, content) =>
        if !IsSystem(item) && PartsOf(content) != [] { MessageTwice(env, item); }
      case Call(id, _, _) => BoundTwice(env, id);
      case Output(id, output) =>
        BoundTwice(env, id);
        var text := ResultText(env.dumps, IngressOutput(output));
        assert ResultText(env.dumps, Said(text)) == text by { SaidText(env, text); }
      case Reasoning(_, _) =>
      case Other(_) =>
    }
  }

  lemma SaidText(env: Env, text: string)
    ensures ResultText(env.dumps, Said(text)) == text
  {}

  lemma MessageTwice(env: Env, item: Item)
    requires Known(item) && item.Message? && !IsSystem(item) && PartsOf(item.content) != []
    ensures var r := NormalItem(env, item);
            && |r| == 1 && Known(r[0]) && !IsSystem(r[0]) && |NormalItem(env, r[0])| == 1
            && (NormalItem(env, r[0]) == r <==> StableItem(item))
  {
    var ps := PartsOf(item.content);
    var qs := NormalParts(ps);
    forall i | 0 <= i < |ps|
      ensures !qs[i].OtherPart? && (NormalPart(qs[i]) == qs[i] <==> StablePart(ps[i]))
    {
      assert ps[i] in ps && !ps[i].OtherPart?;
      PartTwice(ps[i]);
    }
    hide NormalPart, StablePart, NormalParts;
    assert NormalParts(qs) == qs <==> forall i | 0 <= i < |ps| :: NormalPart(qs[i]) == qs[i];
    assert StableItem(item) <==> forall i | 0 <= i < |ps| :: StablePart(ps[i]);
  }

  lemma {:induction false} ItemsTwice(env: Env, items: seq<Item>)
    requires Lawful(env) && forall x | x in items :: Known(x)
    ensures var once := NormalItems(env, items);
            && (forall y | y in once :: Known(y) && !IsSystem(y))
            && (NormalItems(env, once) == once <==> forall x | x in items :: StableItem(x))
    decreases |items|
  {
    if items == [] {
      assert NormalItems(env, []) == [];
    } else {
      hide NormalItem, NormalItems, StableItem, Known, Lawful;
      var front, last := items[..|items| - 1], items[|items| - 1];
      assert items == front + [last];
      ItemsTwice(env, front);
      NormalSnoc(env, front, last);
      ItemTwice(env, last);
      var done, more := NormalItems(env, front), NormalItem(env, last);
      if more == [] {
        assert done + more == done;
      } else {
        assert more == [more[0]];
        NormalSnoc(env, done, more[0]);
        var again := NormalItem(env, more[0]);
        assert again == [again[0]];
        SnocInjective(NormalItems(env, done), again[0], done, more[0]);
      }
    }
  }

  lemma {:induction false} NoSystemText(items: seq<Item>)
    requires forall x | x in items :: !IsSystem(x)
    ensures Ingress(items).system == []
    decreases |items|
  {
    if items != [] { NoSystemText(items[..|items| - 1]); }
  }

  /** Normalising twice is normalising once exactly when every file part is stable. */
  lemma TwiceIsOnceExactly(env: Env, b: Body)
    requires Lawful(env) && forall x | x in b.input :: Known(x)
    ensures var once := Normalised(env, b, None);
            Normalised(env, once, None) == once <==> forall x | x in b.input :: StableItem(x)
  {
    hide Ingress, Egress, NormalItems, StableItem, Lawful;
    var once := Normalised(env, b, None);
    ItemsKept(env, b);
    ItemsTwice(env, b.input);
    ItemsKept(env, once);
    NoSystemText(once.input);
    var t := once.instructions;
    assert [Text(t)] + [] == [Text(t)] && [Text(t)][1..] == [];
    assert JoinText([Text(t)]) == t + "" == t;
    var none: seq<Part> := [];
    assert none + [] == none;
  }
}
