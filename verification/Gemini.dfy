/**
 Gemini contents through the canonical form and back (app/normalizer_v2.py,
 `_ingress_gemini` and `_egress_gemini`), and exactly which part lists survive.

 `pyStr` stands for Python's `str` on values that are not strings and
 `dumps` for `json.dumps` of a canonical part.
 */
module Gemini {
  import opened Prelude
  import opened Json

  // ---- Canonical parts -----------------------------------------------------

  datatype Body =
    | Text(text: string)
    | Thinking(thinking: string)
    | ToolUse(name: Json, arguments: map<Key, Json>)
    | ToolResult(toolUseId: string, content: Json)
    | Media(image: bool, url: Json, data: Json, mime: Json)
    | Unknown(raw: Json)

  /** A part and the `thought_signature` in its extras; null when there is none. */
  datatype Part = Part(body: Body, signature: Json)

  const CALL_PREFIX := "gemini_fc:"

  function StrOf(pyStr: Json -> string, j: Json): string {
    if j.Str? then j.s else pyStr(j)
  }

  predicate IsImage(mime: Json) {
    mime.Str? && "image/" <= mime.s
  }

  /** `x or {}` followed by `.get`: fails on a truthy value that is not an object. */
  function Fields(j: Json): Option<map<Key, Json>> {
    if j.Obj? then Some(j.fields) else if j.Truthy() then None else Some(map[])
  }

  predicate SignatureOnly(p: Json) {
    p.Obj? && p.fields.Keys == {SignatureKey}
  }

  /** The canonical body of a part that is not a bare signature; None when the code raises. */
  function IngressPart(pyStr: Json -> string, p: Json): Option<Body> {
    if !p.Obj? then Some(Unknown(p))
    else
      var f := p.fields;
      if CallKey in f then
        match Fields(f[CallKey])
        case None => None
        case Some(fc) =>
          var args := Get(fc, ArgsKey);
          Some(ToolUse(Get(fc, NameKey), if args.Obj? then args.fields else map[]))
      else if ResponseKey in f then
        match Fields(f[ResponseKey])
        case None => None
        case Some(fr) => Some(ToolResult(CALL_PREFIX + StrOf(pyStr, Get(fr, NameKey)), Get(fr, PayloadKey)))
      else if Get(f, ThoughtKey) == Bool(true) then
        var text := Get(f, TextKey);
        Some(Thinking(if text.Str? then text.s else ""))
      else if InlineKey in f then
        match Fields(f[InlineKey])
        case None => None
        case Some(d) => Some(Media(IsImage(Get(d, MimeKey)), Null, Get(d, DataKey), Get(d, MimeKey)))
      else if FileKey in f then
        match Fields(f[FileKey])
        case None => None
        case Some(d) => Some(Media(IsImage(Get(d, MimeKey)), Get(d, UriKey), Null, Get(d, MimeKey)))
      else if Get(f, TextKey).Str? then Some(Text(f[TextKey].s))
      else Some(Unknown(p))
  }

  function ResultName(toolUseId: string): string {
    if CALL_PREFIX <= toolUseId then toolUseId[|CALL_PREFIX|..] else toolUseId
  }

  /** `_egress_text_join`: the texts of a list's text parts. */
  function JoinTexts(items: seq<Json>): string {
    if items == [] then ""
    else
      var p := items[0];
      var text := if p.Obj? && Get(p.fields, TypeKey) == Str("text") then GetOr(p.fields, TextKey, Str("")) else Null;
      (if text.Str? then text.s else "") + JoinTexts(items[1..])
  }

  function ResultPayload(pyStr: Json -> string, content: Json): Json {
    match content
    case Obj(_) => content
    case Str(_) => Obj(map[OtherKey("result") := content])
    case Arr(items) => Obj(map[OtherKey("result") := Str(JoinTexts(items))])
    case Null => Obj(map[OtherKey("result") := Str("")])
    case _ => Obj(map[OtherKey("result") := Str(pyStr(content))])
  }

  function EgressBody(pyStr: Json -> string, dumps: Body -> string, b: Body): Json {
    match b
    case Text(t) => Obj(map[TextKey := Str(t)])
    case Thinking(t) => Obj(map[TextKey := Str(t), ThoughtKey := Bool(true)])
    case ToolUse(name, args) => Obj(map[CallKey := Obj(map[NameKey := name, ArgsKey := Obj(args)])])
    case ToolResult(id, content) =>
      Obj(map[ResponseKey := Obj(map[NameKey := Str(ResultName(id)), PayloadKey := ResultPayload(pyStr, content)])])
    case Media(image, url, data, mime) =>
      if data != Null then
        var fallback := Str(if image then "image/png" else "application/octet-stream");
        Obj(map[InlineKey := Obj(map[MimeKey := if mime.Truthy() then mime else fallback, DataKey := data])])
      else if url != Null then Obj(map[FileKey := Obj(map[UriKey := url, MimeKey := mime])])
      else Obj(map[TextKey := Str(dumps(b))])
    case Unknown(raw) => raw
  }

  // ---- Whole lists ---------------------------------------------------------

  /** What one incoming part does to the parts read so far. */
  function Step(pyStr: Json -> string, parts: seq<Part>, p: Json): Option<seq<Part>> {
    if SignatureOnly(p) then
      if parts == [] then Some([Part(Unknown(p), Null)])
      else
        var last := parts[|parts| - 1];
        Some(parts[..|parts| - 1] + [last.(signature := p.fields[SignatureKey])])
    else
      match IngressPart(pyStr, p)
      case None => None
      case Some(body) => Some(parts + [Part(body, Null)])
  }

  function Ingress(pyStr: Json -> string, ps: seq<Json>): Option<seq<Part>> {
    if ps == [] then Some([])
    else
      match Ingress(pyStr, ps[..|ps| - 1])
      case None => None
      case Some(parts) => Step(pyStr, parts, ps[|ps| - 1])
  }

  function Emit(pyStr: Json -> string, dumps: Body -> string, part: Part): seq<Json> {
    [EgressBody(pyStr, dumps, part.body)]
    + if part.signature != Null then [Obj(map[SignatureKey := part.signature])] else []
  }

  function Egress(pyStr: Json -> string, dumps: Body -> string, parts: seq<Part>): seq<Json> {
    if parts == [] then []
    else Egress(pyStr, dumps, parts[..|parts| - 1]) + Emit(pyStr, dumps, parts[|parts| - 1])
  }

  lemma IngressNothing(pyStr: Json -> string)
    ensures Ingress(pyStr, []) == Some([])
  {}

  lemma IngressTakes(pyStr: Json -> string, ps: seq<Json>, i: nat)
    requires i < |ps|
    ensures Ingress(pyStr, ps[..i + 1])
         == if Ingress(pyStr, ps[..i]).None? then None else Step(pyStr, Ingress(pyStr, ps[..i]).value, ps[i])
  {
    hide Step;
    assert ps[..i + 1][..i] == ps[..i];
  }

  method IngressParts(pyStr: Json -> string, ps: seq<Json>) returns (r: Option<seq<Part>>)
    ensures r == Ingress(pyStr, ps)
  {
    hide IngressPart, Ingress;
    var parts: seq<Part> := [];
    var i := 0;
    IngressNothing(pyStr);
    assert ps[..0] == [];
    while i < |ps|
      invariant 0 <= i <= |ps|
      invariant Ingress(pyStr, ps[..i]) == Some(parts)
    {
      var p := ps[i];
      IngressTakes(pyStr, ps, i);
      if SignatureOnly(p) {
        if parts != [] {
          var last := parts[|parts| - 1];
          parts := parts[..|parts| - 1] + [last.(signature := p.fields[SignatureKey])];
        } else {
          parts := [Part(Unknown(p), Null)];
        }
      } else {
        var body := IngressPart(pyStr, p);
        if body.None? {
          IngressFails(pyStr, ps, i + 1);
          return None;
        }
        parts := parts + [Part(body.value, Null)];
      }
      i := i + 1;
    }
    assert ps[..i] == ps;
    return Some(parts);
  }

  lemma IngressFails(pyStr: Json -> string, ps: seq<Json>, k: nat)
    requires k <= |ps| && Ingress(pyStr, ps[..k]).None?
    ensures Ingress(pyStr, ps).None?
    decreases |ps| - k
  {
    hide Ingress, Step;
    if k == |ps| {
      assert ps[..k] == ps;
    } else {
      IngressTakes(pyStr, ps, k);
      IngressFails(pyStr, ps, k + 1);
    }
  }

  method EgressParts(pyStr: Json -> string, dumps: Body -> string, parts: seq<Part>) returns (gparts: seq<Json>)
    ensures gparts == Egress(pyStr, dumps, parts)
  {
    hide EgressBody;
    gparts := [];
    var i := 0;
    while i < |parts|
      invariant 0 <= i <= |parts|
      invariant gparts == Egress(pyStr, dumps, parts[..i])
    {
      assert parts[..i + 1][..i] == parts[..i];
      gparts := gparts + [EgressBody(pyStr, dumps, parts[i].body)];
      if parts[i].signature != Null {
        gparts := gparts + [Obj(map[SignatureKey := parts[i].signature])];
      }
      i := i + 1;
    }
    assert parts[..i] == parts;
  }

  // ---- Which lists come back -----------------------------------------------

  predicate Has(j: Json, keys: set<Key>) {
    j.Obj? && j.fields.Keys == keys
  }

  /** A part, other than a bare signature, in the one form that egress writes. */
  predicate Faithful(p: Json) {
    p.Obj? ==>
      var f := p.fields;
      if CallKey in f then
        Has(p, {CallKey}) && Has(f[CallKey], {NameKey, ArgsKey}) && f[CallKey].fields[ArgsKey].Obj?
      else if ResponseKey in f then
        Has(p, {ResponseKey}) && Has(f[ResponseKey], {NameKey, PayloadKey})
        && f[ResponseKey].fields[NameKey].Str? && f[ResponseKey].fields[PayloadKey].Obj?
      else if Get(f, ThoughtKey) == Bool(true) then
        Has(p, {TextKey, ThoughtKey}) && f[TextKey].Str?
      else if InlineKey in f then
        Has(p, {InlineKey}) && Has(f[InlineKey], {MimeKey, DataKey})
        && f[InlineKey].fields[MimeKey].Truthy() && f[InlineKey].fields[DataKey] != Null
      else if FileKey in f then
        Has(p, {FileKey}) && Has(f[FileKey], {UriKey, MimeKey}) && f[FileKey].fields[UriKey] != Null
      else if Get(f, TextKey).Str? then Has(p, {TextKey})
      else true
  }

  /** A bare signature may open the list; elsewhere it must be non-null and must not
      follow another one, except that the second place may follow one in the first. */
  predicate NormalAt(ps: seq<Json>, i: nat)
    requires i < |ps|
  {
    if SignatureOnly(ps[i]) then
      i == 0 || (ps[i].fields[SignatureKey] != Null && (i == 1 || !SignatureOnly(ps[i - 1])))
    else Faithful(ps[i])
  }

  predicate Normal(ps: seq<Json>) {
    forall i | 0 <= i < |ps| :: NormalAt(ps, i)
  }

  /** Part by part, egress undoes ingress exactly on faithful parts. */
  lemma PartRoundTrip(pyStr: Json -> string, dumps: Body -> string, p: Json)
    ensures Faithful(p)
       <==> var b := IngressPart(pyStr, p); b.Some? && EgressBody(pyStr, dumps, b.value) == p
  {
    if p.Obj? {
      var f := p.fields;
      if CallKey in f {
        CallRoundTrip(pyStr, dumps, p);
      } else if ResponseKey in f {
        ResponseRoundTrip(pyStr, dumps, p);
      } else if Get(f, ThoughtKey) == Bool(true) {
        ThoughtRoundTrip(pyStr, dumps, p);
      } else if InlineKey in f {
        InlineRoundTrip(pyStr, dumps, p);
      } else if FileKey in f {
        FileRoundTrip(pyStr, dumps, p);
      } else if Get(f, TextKey).Str? {
        if Has(p, {TextKey}) { assert f == map[TextKey := f[TextKey]]; }
      }
    }
  }

  ghost predicate Survives(pyStr: Json -> string, dumps: Body -> string, p: Json) {
    var b := IngressPart(pyStr, p);
    b.Some? && EgressBody(pyStr, dumps, b.value) == p
  }

  lemma CallRoundTrip(pyStr: Json -> string, dumps: Body -> string, p: Json)
    requires p.Obj? && CallKey in p.fields
    ensures Faithful(p) <==> Survives(pyStr, dumps, p)
  {
    var f := p.fields;
    if Faithful(p) {
      var fc := f[CallKey].fields;
      assert fc == map[NameKey := fc[NameKey], ArgsKey := fc[ArgsKey]];
      assert f == map[CallKey := f[CallKey]];
    }
  }

  lemma ResponseRoundTrip(pyStr: Json -> string, dumps: Body -> string, p: Json)
    requires p.Obj? && CallKey !in p.fields && ResponseKey in p.fields
    ensures Faithful(p) <==> Survives(pyStr, dumps, p)
  {
    var f := p.fields;
    if Fields(f[ResponseKey]).Some? {
      var fr := Fields(f[ResponseKey]).value;
      assert ResultName(CALL_PREFIX + StrOf(pyStr, Get(fr, NameKey))) == StrOf(pyStr, Get(fr, NameKey));
    }
    if Faithful(p) {
      var fr := f[ResponseKey].fields;
      assert fr == map[NameKey := fr[NameKey], PayloadKey := fr[PayloadKey]];
      assert f == map[ResponseKey := f[ResponseKey]];
    }
  }

  lemma ThoughtRoundTrip(pyStr: Json -> string, dumps: Body -> string, p: Json)
    requires p.Obj? && CallKey !in p.fields && ResponseKey !in p.fields && Get(p.fields, ThoughtKey) == Bool(true)
    ensures Faithful(p) <==> Survives(pyStr, dumps, p)
  {
    var f := p.fields;
    if Faithful(p) {
      assert f == map[TextKey := f[TextKey], ThoughtKey := f[ThoughtKey]];
    }
  }

  lemma InlineRoundTrip(pyStr: Json -> string, dumps: Body -> string, p: Json)
    requires p.Obj? && CallKey !in p.fields && ResponseKey !in p.fields && Get(p.fields, ThoughtKey) != Bool(true)
    requires InlineKey in p.fields
    ensures Faithful(p) <==> Survives(pyStr, dumps, p)
  {
    var f := p.fields;
    if Faithful(p) {
      var d := f[InlineKey].fields;
      assert d == map[MimeKey := d[MimeKey], DataKey := d[DataKey]];
      assert f == map[InlineKey := f[InlineKey]];
    }
  }

  lemma FileRoundTrip(pyStr: Json -> string, dumps: Body -> string, p: Json)
    requires p.Obj? && CallKey !in p.fields && ResponseKey !in p.fields && Get(p.fields, ThoughtKey) != Bool(true)
    requires InlineKey !in p.fields && FileKey in p.fields
    ensures Faithful(p) <==> Survives(pyStr, dumps, p)
  {
    var f := p.fields;
    if Faithful(p) {
      var d := f[FileKey].fields;
      assert d == map[UriKey := d[UriKey], MimeKey := d[MimeKey]];
      assert f == map[FileKey := f[FileKey]];
    }
  }

  // ---- What comes back of every part ---------------------------------------

  /** The texts of a list's text parts, in order. */
  function TextsIn(items: seq<Json>): seq<string> {
    if items == [] then []
    else
      (if items[0].Obj? && Get(items[0].fields, TypeKey) == Str("text") && Get(items[0].fields, TextKey).Str? then
         [items[0].fields[TextKey].s]
       else [])
      + TextsIn(items[1..])
  }

  /** The payload of a tool result: an object stays, anything else becomes a result text. */
  function PayloadBack(pyStr: Json -> string, payload: Json): Json {
    match payload
    case Obj(_) => payload
    case Str(s) => Obj(map[OtherKey("result") := Str(s)])
    case Arr(items) => Obj(map[OtherKey("result") := Str(Flatten(TextsIn(items)))])
    case Null => Obj(map[OtherKey("result") := Str("")])
    case Bool(_) => Obj(map[OtherKey("result") := Str(pyStr(payload))])
    case Num(_) => Obj(map[OtherKey("result") := Str(pyStr(payload))])
  }

  /** Where an object is looked into, a true value that is none raises. */
  predicate NoObject(j: Json) {
    !j.Obj? && j.Truthy()
  }

  predicate PartRaises(p: Json) {
    p.Obj? &&
      var f := p.fields;
      if CallKey in f then NoObject(f[CallKey])
      else if ResponseKey in f then NoObject(f[ResponseKey])
      else if Get(f, ThoughtKey) == Bool(true) then false
      else if InlineKey in f then NoObject(f[InlineKey])
      else if FileKey in f then NoObject(f[FileKey])
      else false
  }

  /** The fields under a key of a part, if they are an object. */
  function Inner(f: map<Key, Json>, k: Key): map<Key, Json> {
    if Get(f, k).Obj? then f[k].fields else map[]
  }

  /** What comes back of a part that is no bare signature and does not raise. */
  ghost predicate PartBack(pyStr: Json -> string, dumps: Body -> string, p: Json, q: Json) {
    if !p.Obj? then q == p
    else
      var f := p.fields;
      if CallKey in f then
        var fc := Inner(f, CallKey);
        q == Obj(map[CallKey := Obj(map[NameKey := Get(fc, NameKey),
                                        ArgsKey := if Get(fc, ArgsKey).Obj? then fc[ArgsKey] else Obj(map[])])])
      else if ResponseKey in f then
        var fr := Inner(f, ResponseKey);
        var name := Get(fr, NameKey);
        q == Obj(map[ResponseKey := Obj(map[NameKey := Str(if name.Str? then name.s else pyStr(name)),
                                            PayloadKey := PayloadBack(pyStr, Get(fr, PayloadKey))])])
      else if Get(f, ThoughtKey) == Bool(true) then
        q == Obj(map[TextKey := if Get(f, TextKey).Str? then f[TextKey] else Str(""), ThoughtKey := Bool(true)])
      else if InlineKey in f then
        var d := Inner(f, InlineKey);
        var mime := Get(d, MimeKey);
        if Get(d, DataKey) == Null then exists b :: q == Obj(map[TextKey := Str(dumps(b))])
        else q == Obj(map[InlineKey := Obj(map[MimeKey := if mime.Truthy() then mime
                                                          else Str("application/octet-stream"),
                                               DataKey := d[DataKey]])])
      else if FileKey in f then
        var d := Inner(f, FileKey);
        if Get(d, UriKey) == Null then exists b :: q == Obj(map[TextKey := Str(dumps(b))])
        else q == Obj(map[FileKey := Obj(map[UriKey := d[UriKey], MimeKey := Get(d, MimeKey)])])
      else if Get(f, TextKey).Str? then q == Obj(map[TextKey := f[TextKey]])
      else q == p
  }

  lemma {:induction false} JoinsTexts(items: seq<Json>)
    ensures JoinTexts(items) == Flatten(TextsIn(items))
    decreases |items|
  {
    if items != [] {
      JoinsTexts(items[1..]);
      var more := TextsIn(items[1..]);
      var head := TextsIn(items)[..|TextsIn(items)| - |more|];
      if head != [] {
        assert TextsIn(items)[1..] == more;
      } else {
        assert TextsIn(items) == more && "" + JoinTexts(items[1..]) == JoinTexts(items[1..]);
      }
    }
  }

  lemma PayloadComesBack(pyStr: Json -> string, payload: Json)
    ensures ResultPayload(pyStr, payload) == PayloadBack(pyStr, payload)
  {
    if payload.Arr? { JoinsTexts(payload.items); }
  }

  lemma ResponseComesBack(pyStr: Json -> string, dumps: Body -> string, p: Json)
    requires p.Obj? && CallKey !in p.fields && ResponseKey in p.fields
    ensures var b := IngressPart(pyStr, p);
            && (b.None? <==> PartRaises(p))
            && (b.Some? ==> PartBack(pyStr, dumps, p, EgressBody(pyStr, dumps, b.value)))
  {
    hide ResultPayload, PayloadBack;
    var fr := Inner(p.fields, ResponseKey);
    PayloadComesBack(pyStr, Get(fr, PayloadKey));
    var name := StrOf(pyStr, Get(fr, NameKey));
    assert ResultName("gemini_fc:" + name) == name;
  }

  /** Media read from a part, and media as emitted wherever they came from. */
  lemma MediaMeans(pyStr: Json -> string, dumps: Body -> string, p: Json, m: Body)
    ensures var b := IngressPart(pyStr, p);
            b.Some? && b.value.Media? && p.Obj? ==>
              var d := Inner(p.fields, if InlineKey in p.fields then InlineKey else FileKey);
              && b.value.mime == Get(d, MimeKey)
              && (b.value.image <==> Get(d, MimeKey).Str? && "image/" <= d[MimeKey].s)
              && b.value.data == (if InlineKey in p.fields then Get(d, DataKey) else Null)
              && b.value.url == (if InlineKey in p.fields then Null else Get(d, UriKey))
    ensures m.Media? ==>
              var q := EgressBody(pyStr, dumps, m);
              if m.data != Null then
                var mime := if m.mime.Truthy() then m.mime
                            else if m.image then Str("image/png") else Str("application/octet-stream");
                q == Obj(map[InlineKey := Obj(map[MimeKey := mime, DataKey := m.data])])
              else if m.url != Null then q == Obj(map[FileKey := Obj(map[UriKey := m.url, MimeKey := m.mime])])
              else q == Obj(map[TextKey := Str(dumps(m))])
  {
    hide ResultPayload;
  }

  /** Every part that is no bare signature raises exactly where a true value stands for an object,
      and otherwise comes back in this form. */
  lemma PartComesBack(pyStr: Json -> string, dumps: Body -> string, p: Json)
    ensures var b := IngressPart(pyStr, p);
            && (b.None? <==> PartRaises(p))
            && (b.Some? ==> PartBack(pyStr, dumps, p, EgressBody(pyStr, dumps, b.value)))
  {
    hide ResultPayload, PayloadBack;
    if p.Obj? && CallKey !in p.fields && ResponseKey in p.fields {
      ResponseComesBack(pyStr, dumps, p);
    } else if p.Obj? && IngressPart(pyStr, p).Some? && IngressPart(pyStr, p).value.Media? {
      var b := IngressPart(pyStr, p).value;
      if b.data == Null && b.url == Null { assert EgressBody(pyStr, dumps, b) == Obj(map[TextKey := Str(dumps(b))]); }
    }
  }

  /** What the part list and its canonical form have in common, whatever the parts. */
  lemma {:induction false} IngressShape(pyStr: Json -> string, dumps: Body -> string, ps: seq<Json>)
    requires Ingress(pyStr, ps).Some?
    ensures var parts := Ingress(pyStr, ps).value;
            && (parts == [] <==> ps == [])
            && |Egress(pyStr, dumps, parts)| <= |ps|
            && (parts != [] && parts[|parts| - 1].signature != Null ==> |ps| >= 2 && SignatureOnly(ps[|ps| - 1]))
    decreases |ps|
  {
    hide IngressPart, EgressBody;
    if ps != [] {
      var q, p := ps[..|ps| - 1], ps[|ps| - 1];
      IngressShape(pyStr, dumps, q);
      var before, parts := Ingress(pyStr, q).value, Ingress(pyStr, ps).value;
      if SignatureOnly(p) && before != [] {
        assert parts[..|parts| - 1] == before[..|before| - 1];
      } else if !SignatureOnly(p) {
        assert parts[..|parts| - 1] == before;
      }
    }
  }

  /** The round trip holds of `ps`. */
  ghost predicate Back(pyStr: Json -> string, dumps: Body -> string, ps: seq<Json>) {
    var r := Ingress(pyStr, ps);
    r.Some? && Egress(pyStr, dumps, r.value) == ps
  }

  /** Adding a part that is not a bare signature. */
  lemma OrdinaryPart(pyStr: Json -> string, dumps: Body -> string, q: seq<Json>, p: Json)
    requires Ingress(pyStr, q).Some? && !SignatureOnly(p)
    ensures Back(pyStr, dumps, q + [p]) <==> Back(pyStr, dumps, q) && Faithful(p)
  {
    PartRoundTrip(pyStr, dumps, p);
    hide IngressPart, EgressBody, Faithful;
    assert (q + [p])[..|q|] == q;
    var before := Ingress(pyStr, q).value;
    if IngressPart(pyStr, p).Some? {
      var part := Part(IngressPart(pyStr, p).value, Null);
      assert (before + [part])[..|before|] == before;
      SnocInjective(Egress(pyStr, dumps, before), EgressBody(pyStr, dumps, part.body), q, p);
    }
  }

  lemma EgressSnoc(pyStr: Json -> string, dumps: Body -> string, parts: seq<Part>, part: Part)
    ensures Egress(pyStr, dumps, parts + [part]) == Egress(pyStr, dumps, parts) + Emit(pyStr, dumps, part)
  {
    hide Emit;
    assert (parts + [part])[..|parts|] == parts;
  }

  lemma SignatureAttaches(pyStr: Json -> string, q: seq<Json>, p: Json)
    requires Ingress(pyStr, q).Some? && Ingress(pyStr, q).value != [] && SignatureOnly(p)
    ensures var before := Ingress(pyStr, q).value;
            var m := |before| - 1;
            Ingress(pyStr, q + [p]) == Some(before[..m] + [before[m].(signature := p.fields[SignatureKey])])
  {
    hide IngressPart;
    assert (q + [p])[..|q|] == q;
  }

  /** Adding a bare signature to a non-empty list. */
  lemma LaterSignature(pyStr: Json -> string, dumps: Body -> string, q: seq<Json>, p: Json)
    requires Ingress(pyStr, q).Some? && q != [] && SignatureOnly(p)
    ensures var before := Ingress(pyStr, q).value;
            && before != []
            && (Back(pyStr, dumps, q + [p])
                <==> Back(pyStr, dumps, q) && p.fields[SignatureKey] != Null && before[|before| - 1].signature == Null)
  {
    hide IngressPart, EgressBody, Ingress, Egress;
    IngressShape(pyStr, dumps, q);
    SignatureAttaches(pyStr, q, p);
    var before, sig := Ingress(pyStr, q).value, p.fields[SignatureKey];
    var m := |before| - 1;
    var front, last := before[..m], before[m];
    assert before == front + [last];
    EgressSnoc(pyStr, dumps, front, last);
    EgressSnoc(pyStr, dumps, front, last.(signature := sig));
    assert p.fields == map[SignatureKey := sig];
    var bare := Egress(pyStr, dumps, front) + [EgressBody(pyStr, dumps, last.body)];
    assert Emit(pyStr, dumps, last.(signature := sig))
        == if sig == Null then [EgressBody(pyStr, dumps, last.body)] else [EgressBody(pyStr, dumps, last.body)] + [p];
    Assoc(Egress(pyStr, dumps, front), [EgressBody(pyStr, dumps, last.body)], [p]);
    SnocInjective(bare, p, q, p);
  }

  /** Past the first place, a bare signature is what the last part then holds. */
  lemma SignatureHeld(pyStr: Json -> string, q: seq<Json>)
    requires Ingress(pyStr, q).Some? && |q| >= 2 && SignatureOnly(q[|q| - 1])
    ensures var parts := Ingress(pyStr, q).value;
            parts != [] && parts[|parts| - 1].signature == q[|q| - 1].fields[SignatureKey]
  {
    hide IngressPart;
    IngressShape(pyStr, _ => "", q[..|q| - 1]);
  }

  /** One more part keeps the round trip exactly when it is normal where it stands. */
  lemma RoundTripGrows(pyStr: Json -> string, dumps: Body -> string, q: seq<Json>, p: Json)
    requires Ingress(pyStr, q).Some?
    requires Normal(q) <==> Back(pyStr, dumps, q)
    ensures Back(pyStr, dumps, q + [p]) <==> Normal(q) && NormalAt(q + [p], |q|)
  {
    hide Faithful, Ingress, Egress;
    if !SignatureOnly(p) {
      OrdinaryPart(pyStr, dumps, q, p);
    } else if q == [] {
      FirstSignature(pyStr, dumps, p);
    } else {
      LaterSignature(pyStr, dumps, q, p);
      IngressShape(pyStr, dumps, q);
      assert Normal(q) ==> NormalAt(q, |q| - 1);
      if |q| >= 2 && SignatureOnly(q[|q| - 1]) { SignatureHeld(pyStr, q); }
    }
  }

  lemma FirstSignature(pyStr: Json -> string, dumps: Body -> string, p: Json)
    requires SignatureOnly(p)
    ensures Back(pyStr, dumps, [] + [p])
  {
    assert [] + [p] == [p] && [p][..0] == [];
    assert [Part(Unknown(p), Null)][..0] == [];
  }

  /** Ingress then egress returns the same list exactly for normal lists. */
  lemma {:induction false} RoundTripExactly(pyStr: Json -> string, dumps: Body -> string, ps: seq<Json>)
    ensures Back(pyStr, dumps, ps) <==> Normal(ps)
    decreases |ps|
  {
    hide IngressPart, EgressBody, Faithful;
    if ps != [] {
      var q, p := ps[..|ps| - 1], ps[|ps| - 1];
      assert ps == q + [p];
      RoundTripExactly(pyStr, dumps, q);
      NormalSnoc(q, p);
      if Ingress(pyStr, q).Some? {
        RoundTripGrows(pyStr, dumps, q, p);
      }
    }
  }

  lemma NormalSnoc(q: seq<Json>, p: Json)
    ensures Normal(q + [p]) <==> Normal(q) && NormalAt(q + [p], |q|)
  {
    hide Faithful;
    var ps := q + [p];
    assert forall i | 0 <= i < |q| :: NormalAt(ps, i) == NormalAt(q, i);
  }

  /** A signature carried inside a part, instead of after it, does not come back. */
  lemma SignatureInsidePartIsLost(pyStr: Json -> string, dumps: Body -> string, p: Json)
    requires p.Obj? && SignatureKey in p.fields && CallKey in p.fields
    ensures var r := Ingress(pyStr, [p]);
            r.None? || forall out | out in Egress(pyStr, dumps, r.value) :: out.Obj? && SignatureKey !in out.fields
  {
    assert [p][..0] == [];
    assert CallKey in p.fields.Keys;
    var b := IngressPart(pyStr, p);
    if b.Some? {
      var part := Part(b.value, Null);
      assert Ingress(pyStr, [p]) == Some([] + [part]);
      assert [part][..0] == [];
      assert Egress(pyStr, dumps, [part]) == [EgressBody(pyStr, dumps, b.value)];
    }
  }

  // ---- Bodies --------------------------------------------------------------

  /** A content entry with a non-empty string role and a parts list. */
  datatype Content = Content(role: string, parts: seq<Json>)

  function ToCanonicalRole(role: string): string {
    if role == "model" then "assistant" else role
  }

  function FromCanonicalRole(role: string): string {
    if role == "assistant" then "model" else role
  }

  /** Gemini's model is the canonical assistant, and the other way round. */
  lemma RolesMean(role: string)
    ensures ToCanonicalRole("model") == "assistant" && FromCanonicalRole("assistant") == "model"
    ensures role != "model" ==> ToCanonicalRole(role) == role
    ensures role != "assistant" ==> FromCanonicalRole(role) == role
  {}

  /** Contents of a body after `to_canonical` and `from_canonical`; a raised
      exception leaves an empty canonical request, so nothing comes back. */
  function Normalised(pyStr: Json -> string, dumps: Body -> string, cs: seq<Content>): seq<Content> {
    if exists c | c in cs :: Ingress(pyStr, c.parts).None? then []
    else
      seq(|cs|, i requires 0 <= i < |cs| && Ingress(pyStr, cs[i].parts).Some? =>
        Content(FromCanonicalRole(ToCanonicalRole(cs[i].role)),
                Egress(pyStr, dumps, Ingress(pyStr, cs[i].parts).value)))
  }

  method Normalise(pyStr: Json -> string, dumps: Body -> string, cs: seq<Content>) returns (out: seq<Content>)
    ensures out == Normalised(pyStr, dumps, cs)
  {
    hide Ingress, Egress;
    out := [];
    for i := 0 to |cs|
      invariant |out| == i
      invariant forall j | 0 <= j < i :: Ingress(pyStr, cs[j].parts).Some?
      invariant forall j | 0 <= j < i ::
        out[j] == Content(FromCanonicalRole(ToCanonicalRole(cs[j].role)),
                          Egress(pyStr, dumps, Ingress(pyStr, cs[j].parts).value))
    {
      var parts := IngressParts(pyStr, cs[i].parts);
      if parts.None? { return []; }
      var gparts := EgressParts(pyStr, dumps, parts.value);
      out := out + [Content(FromCanonicalRole(ToCanonicalRole(cs[i].role)), gparts)];
    }
  }

  /** A body's contents come back unchanged exactly when every role is not the
      canonical one and every part list is normal. */
  lemma ContentsRoundTripExactly(pyStr: Json -> string, dumps: Body -> string, cs: seq<Content>)
    ensures Normalised(pyStr, dumps, cs) == cs
       <==> forall c | c in cs :: c.role != "assistant" && Normal(c.parts)
  {
    hide Ingress, Egress, Normal;
    forall c | c in cs
      ensures (Ingress(pyStr, c.parts).Some? && Egress(pyStr, dumps, Ingress(pyStr, c.parts).value) == c.parts)
         <==> Normal(c.parts)
    {
      RoundTripExactly(pyStr, dumps, c.parts);
    }
    var out := Normalised(pyStr, dumps, cs);
    if out == cs && cs != [] {
      assert forall c | c in cs :: Ingress(pyStr, c.parts).Some?;
      forall c | c in cs ensures c.role != "assistant" && Normal(c.parts) {
        var i :| 0 <= i < |cs| && cs[i] == c;
        assert out[i] == c;
      }
    }
  }
}
