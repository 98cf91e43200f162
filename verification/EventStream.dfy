/**
 The AWS binary event-stream decoder of app/kiro_eventstream.py: the header
 block parser, the frame parser, the chunk-by-chunk decoder built on it, and the
 sniffing of a stream's first bytes.

 `decode` stands for `bytes.decode("utf-8", errors="replace")`, any total function.
 */
module EventStream {
  import opened Prelude

  // ---- Header blocks -------------------------------------------------------

  /** Bytes taken by the integer header types; None for every other type. */
  function IntWidth(vtype: Byte): (w: Option<nat>) {
    if vtype == 4 then Some(2) else if vtype == 5 then Some(4)
    else if vtype == 6 || vtype == 8 then Some(8) else None
  }

  /** The value of a header of type `vtype` at `pos`, and where it ends; None when it cannot be read. */
  function ValueAt(decode: seq<Byte> -> string, blob: seq<Byte>, vtype: Byte, pos: nat): (v: Option<(string, nat)>)
    requires pos <= |blob|
    ensures v.Some? ==> pos <= v.value.1 <= |blob|
  {
    if vtype == 7 then
      if pos + 2 > |blob| || pos + 2 + BigEndian(blob[pos..pos + 2]) > |blob| then None
      else
        var end := pos + 2 + BigEndian(blob[pos..pos + 2]);
        Some((decode(blob[pos + 2..end]), end))
    else if IntWidth(vtype).Some? then
      var end := pos + IntWidth(vtype).value;
      if end > |blob| then None else Some((Decimal(BigEndian(blob[pos..end])), end))
    else if vtype == 2 then Some(("true", pos))
    else if vtype == 3 then Some(("false", pos))
    else None
  }

  datatype Entry = Stop | Field(name: string, value: string, next: nat)

  /** The entry at `pos`, and where the next one starts. */
  function EntryAt(decode: seq<Byte> -> string, blob: seq<Byte>, pos: nat): (e: Entry)
    ensures e.Field? ==> pos + 2 <= e.next <= |blob|
  {
    if pos + 2 > |blob| || blob[pos] == 0 || pos + 2 + (blob[pos] as int) > |blob| then Stop
    else
      var vpos := pos + 2 + blob[pos] as int;
      match ValueAt(decode, blob, blob[vpos - 1], vpos)
      case None => Stop
      case Some((value, next)) => Field(decode(blob[pos + 1..vpos - 1]), value, next)
  }

  function HeadersFrom(decode: seq<Byte> -> string, blob: seq<Byte>, pos: nat, acc: map<string, string>)
    : map<string, string>
    requires pos <= |blob|
    decreases |blob| - pos
  {
    var e := EntryAt(decode, blob, pos);
    if e.Stop? then acc else HeadersFrom(decode, blob, e.next, acc[e.name := e.value])
  }

  function Headers(decode: seq<Byte> -> string, blob: seq<Byte>): map<string, string> {
    HeadersFrom(decode, blob, 0, map[])
  }

  lemma HeadersStep(decode: seq<Byte> -> string, blob: seq<Byte>, pos: nat, acc: map<string, string>)
    requires pos <= |blob|
    ensures var e := EntryAt(decode, blob, pos);
            HeadersFrom(decode, blob, pos, acc)
            == if e.Stop? then acc else HeadersFrom(decode, blob, e.next, acc[e.name := e.value])
  {}

  method ParseHeaders(decode: seq<Byte> -> string, blob: seq<Byte>) returns (headers: map<string, string>)
    ensures headers == Headers(decode, blob)
  {
    hide BigEndian, Decimal, HeadersFrom;
    headers := map[];
    var pos := 0;
    var end := |blob|;
    while pos + 2 <= end
      invariant 0 <= pos <= end
      invariant Headers(decode, blob) == HeadersFrom(decode, blob, pos, headers)
      decreases end - pos
    {
      HeadersStep(decode, blob, pos, headers);
      var nameLen: int := blob[pos];
      if nameLen == 0 || pos + 1 + nameLen + 1 > end { break; }
      var name := decode(blob[pos + 1..pos + 1 + nameLen]);
      var vtype := blob[pos + 1 + nameLen];
      var vpos := pos + 2 + nameLen;
      if vtype == 7 {
        if vpos + 2 > end { break; }
        var vlen := BigEndian(blob[vpos..vpos + 2]);
        if vpos + 2 + vlen > end { break; }
        headers := headers[name := decode(blob[vpos + 2..vpos + 2 + vlen])];
        pos := vpos + 2 + vlen;
      } else if IntWidth(vtype).Some? {
        var width := IntWidth(vtype).value;
        if vpos + width > end { break; }
        headers := headers[name := Decimal(BigEndian(blob[vpos..vpos + width]))];
        pos := vpos + width;
      } else if vtype == 2 {
        headers := headers[name := "true"];
        pos := vpos;
      } else if vtype == 3 {
        headers := headers[name := "false"];
        pos := vpos;
      } else {
        break;
      }
    }
    HeadersStep(decode, blob, pos, headers);
  }

  /** A header as a sender writes it; integers are given by their bytes. */
  datatype HeaderValue = Text(text: seq<Byte>) | Number(code: Byte, bytes: seq<Byte>) | Flag(on: bool)
  datatype Header = Header(name: seq<Byte>, value: HeaderValue)

  predicate Sendable(h: Header) {
    1 <= |h.name| < 256
    && match h.value
       case Text(t) => |t| < 0x10000
       case Number(code, bytes) =>
         (code == 4 && |bytes| == 2) || (code == 5 && |bytes| == 4) || ((code == 6 || code == 8) && |bytes| == 8)
       case Flag(_) => true
  }

  function EncodeValue(v: HeaderValue): seq<Byte>
    requires v.Text? ==> |v.text| < 0x10000
  {
    match v
    case Text(t) => [7, |t| / 256, |t| % 256] + t
    case Number(code, bytes) => [code] + bytes
    case Flag(on) => [if on then 2 else 3]
  }

  function EncodeHeader(h: Header): seq<Byte>
    requires Sendable(h)
  {
    [|h.name|] + h.name + EncodeValue(h.value)
  }

  function EncodeHeaders(hs: seq<Header>): seq<Byte>
    requires forall h :: h in hs ==> Sendable(h)
  {
    if hs == [] then [] else EncodeHeader(hs[0]) + EncodeHeaders(hs[1..])
  }

  function Rendered(decode: seq<Byte> -> string, v: HeaderValue): string {
    match v
    case Text(t) => decode(t)
    case Number(_, bytes) => Decimal(BigEndian(bytes))
    case Flag(on) => if on then "true" else "false"
  }

  /** What a receiver should hold: one assignment a header, later ones winning. */
  function Assigned(decode: seq<Byte> -> string, hs: seq<Header>, acc: map<string, string>): map<string, string> {
    if hs == [] then acc
    else Assigned(decode, hs[1..], acc[decode(hs[0].name) := Rendered(decode, hs[0].value)])
  }

  lemma BigEndianTwo(hi: Byte, lo: Byte)
    ensures BigEndian([hi, lo]) == (hi as int) * 256 + lo
  {
    BigEndianSnoc([], hi);
    BigEndianSnoc([hi], lo);
    assert [] + [hi] == [hi] && [hi] + [lo] == [hi, lo];
  }

  lemma EncodedText(decode: seq<Byte> -> string, pre: seq<Byte>, t: seq<Byte>, rest: seq<Byte>)
    requires |t| < 0x10000
    ensures var bs := EncodeValue(Text(t));
            ValueAt(decode, pre + bs + rest, 7, |pre| + 1) == Some((decode(t), |pre| + |bs|))
  {
    hide BigEndian;
    var b, size := pre + EncodeValue(Text(t)) + rest, [|t| / 256, |t| % 256];
    BigEndianTwo(|t| / 256, |t| % 256);
    assert b == (pre + [7]) + size + (t + rest);
    Middle(pre + [7], size, t + rest);
    assert b == (pre + [7] + size) + t + rest;
    Middle(pre + [7] + size, t, rest);
  }

  lemma EncodedValue(decode: seq<Byte> -> string, pre: seq<Byte>, v: HeaderValue, rest: seq<Byte>)
    requires v.Text? ==> |v.text| < 0x10000
    requires v.Number? ==> IntWidth(v.code) == Some(|v.bytes|)
    ensures var bs := EncodeValue(v);
            ValueAt(decode, pre + bs + rest, bs[0], |pre| + 1) == Some((Rendered(decode, v), |pre| + |bs|))
  {
    hide BigEndian, Decimal;
    match v {
      case Text(t) => EncodedText(decode, pre, t, rest);
      case Number(code, bytes) =>
        assert pre + EncodeValue(v) + rest == (pre + [code]) + bytes + rest;
        Middle(pre + [code], bytes, rest);
      case Flag(_) =>
    }
  }

  lemma EncodedEntry(decode: seq<Byte> -> string, pre: seq<Byte>, h: Header, rest: seq<Byte>)
    requires Sendable(h)
    ensures EntryAt(decode, pre + EncodeHeader(h) + rest, |pre|)
         == Field(decode(h.name), Rendered(decode, h.value), |pre| + |EncodeHeader(h)|)
  {
    hide ValueAt, EncodeValue;
    var b, n := pre + EncodeHeader(h) + rest, |h.name|;
    var upto := pre + [n] + h.name;
    assert b == upto + EncodeValue(h.value) + rest;
    EncodedValue(decode, upto, h.value, rest);
    assert b[|pre| + 1..|pre| + 1 + n] == h.name;
  }

  lemma {:induction false} HeadersFromEncoded(decode: seq<Byte> -> string, pre: seq<Byte>, hs: seq<Header>,
                                              acc: map<string, string>)
    requires forall h :: h in hs ==> Sendable(h)
    ensures HeadersFrom(decode, pre + EncodeHeaders(hs), |pre|, acc) == Assigned(decode, hs, acc)
    decreases |hs|
  {
    hide EntryAt, EncodeHeader;
    if hs != [] {
      var first, rest := EncodeHeader(hs[0]), EncodeHeaders(hs[1..]);
      assert pre + EncodeHeaders(hs) == pre + first + rest;
      EncodedEntry(decode, pre, hs[0], rest);
      HeadersFromEncoded(decode, pre + first, hs[1..], acc[decode(hs[0].name) := Rendered(decode, hs[0].value)]);
    }
  }

  /** Every header a sender can write is read back, of every supported type. */
  lemma HeadersRoundTrip(decode: seq<Byte> -> string, hs: seq<Header>)
    requires forall h :: h in hs ==> Sendable(h)
    ensures Headers(decode, EncodeHeaders(hs)) == Assigned(decode, hs, map[])
  {
    assert [] + EncodeHeaders(hs) == EncodeHeaders(hs);
    HeadersFromEncoded(decode, [], hs, map[]);
  }

  // ---- Frames --------------------------------------------------------------

  const MAX_FRAME: nat := 16_000_000

  datatype Event = Event(kind: string, payload: seq<Byte>)

  datatype Step = Wait | Malformed | Frame(next: nat, event: Event)

  function EventKind(headers: map<string, string>): string {
    if ":event-type" in headers then headers[":event-type"] else ""
  }

  /** What stands at `pos`: too little, a bad frame, or a frame ending at `next`. */
  function FrameAt(decode: seq<Byte> -> string, buf: seq<Byte>, pos: nat): (s: Step)
    ensures s.Frame? ==> pos + 16 <= s.next <= |buf|
  {
    if pos + 16 > |buf| then Wait
    else
      var n := BigEndian(buf[pos..pos + 4]);
      if n < 16 || n > MAX_FRAME then Malformed
      else if pos + n > |buf| then Wait
      else
        var h := BigEndian(buf[pos + 4..pos + 8]);
        if h > n - 16 then Malformed
        else
          Frame(pos + n,
                Event(EventKind(Headers(decode, buf[pos + 12..pos + 12 + h])), buf[pos + 12 + h..pos + n - 4]))
  }

  /** All frames from `pos`, up to the first that is incomplete or bad. */
  datatype Scanned = Scanned(events: seq<Event>, stop: nat, bad: bool)

  function Scan(decode: seq<Byte> -> string, buf: seq<Byte>, pos: nat): (s: Scanned)
    requires pos <= |buf|
    ensures pos <= s.stop <= |buf|
    ensures s.events != [] ==> pos < s.stop
    decreases |buf| - pos
  {
    match FrameAt(decode, buf, pos)
    case Wait => Scanned([], pos, false)
    case Malformed => Scanned([], pos, true)
    case Frame(next, event) =>
      var s := Scan(decode, buf, next);
      Scanned([event] + s.events, s.stop, s.bad)
  }

  /** A bad frame discards what the same call had already found. */
  function Frames(decode: seq<Byte> -> string, buf: seq<Byte>): (r: (seq<Event>, seq<Byte>)) {
    var s := Scan(decode, buf, 0);
    if s.bad then ([], buf) else (s.events, buf[s.stop..])
  }

  ghost predicate ScannedTo(decode: seq<Byte> -> string, buf: seq<Byte>, pos: nat, found: seq<Event>)
    requires pos <= |buf|
  {
    var s := Scan(decode, buf, pos);
    Scan(decode, buf, 0) == Scanned(found + s.events, s.stop, s.bad)
  }

  lemma ScanStep(decode: seq<Byte> -> string, buf: seq<Byte>, pos: nat, found: seq<Event>)
    requires pos <= |buf| && ScannedTo(decode, buf, pos, found)
    ensures var f := FrameAt(decode, buf, pos);
            match f
            case Wait => Frames(decode, buf) == (found, buf[pos..])
            case Malformed => Frames(decode, buf) == ([], buf)
            case Frame(next, event) => ScannedTo(decode, buf, next, found + [event])
  {
    hide FrameAt;
    var f := FrameAt(decode, buf, pos);
    if f.Frame? {
      var later := Scan(decode, buf, f.next).events;
      assert found + ([f.event] + later) == (found + [f.event]) + later;
    } else {
      assert found + [] == found;
    }
  }

  lemma ScanBegins(decode: seq<Byte> -> string, buf: seq<Byte>)
    ensures ScannedTo(decode, buf, 0, [])
  {
    hide FrameAt;
    assert [] + Scan(decode, buf, 0).events == Scan(decode, buf, 0).events;
  }

  method ParseFrames(decode: seq<Byte> -> string, buf: seq<Byte>)
    returns (events: seq<Event>, rest: seq<Byte>)
    ensures (events, rest) == Frames(decode, buf)
  {
    hide BigEndian, Headers, EventKind, Scan, ScannedTo, Frames;
    events := [];
    var pos := 0;
    var total := |buf|;
    ScanBegins(decode, buf);
    while pos + 16 <= total
      invariant 0 <= pos <= total
      invariant ScannedTo(decode, buf, pos, events)
      decreases total - pos
    {
      ScanStep(decode, buf, pos, events);
      var frameLen := BigEndian(buf[pos..pos + 4]);
      if frameLen < 16 || frameLen > MAX_FRAME { return [], buf; }
      if pos + frameLen > total { break; }
      var headerLen := BigEndian(buf[pos + 4..pos + 8]);
      if headerLen > frameLen - 16 { return [], buf; }
      var headers := ParseHeaders(decode, buf[pos + 12..pos + 12 + headerLen]);
      var payload := buf[pos + 12 + headerLen..pos + frameLen - 4];
      events := events + [Event(EventKind(headers), payload)];
      pos := pos + frameLen;
    }
    ScanStep(decode, buf, pos, events);
    rest := buf[pos..];
  }

  /** The number four bytes announce. */
  function Announced(b: seq<Byte>): nat
    requires |b| == 4
  {
    (b[0] as int) * 0x100_0000 + (b[1] as int) * 0x1_0000 + (b[2] as int) * 256 + b[3]
  }

  /** From 16 bytes on, a frame is bad exactly when it announces fewer than 16 or more than 16
      million bytes, or is all there and announces more header bytes than it can hold; and it
      is complete exactly when it is not bad and all there. */
  lemma BadExactly(decode: seq<Byte> -> string, s: seq<Byte>)
    requires |s| >= 16
    ensures var n, h := Announced(s[..4]), Announced(s[4..8]);
            && (FrameAt(decode, s, 0).Malformed? <==> n < 16 || n > 16_000_000 || (n <= |s| && h > n - 16))
            && (FrameAt(decode, s, 0).Frame? <==> 16 <= n <= 16_000_000 && n <= |s| && h <= n - 16)
            && (FrameAt(decode, s, 0).Frame? ==> FrameAt(decode, s, 0).next == n)
  {
    hide BigEndian, Headers;
    BigEndianFour(s[..4]);
    BigEndianFour(s[4..8]);
    assert s[0..4] == s[..4];
  }

  /** A frame as a sender writes it; the two checksums are never examined. */
  datatype WireFrame = WireFrame(preludeCrc: seq<Byte>, headers: seq<Byte>, payload: seq<Byte>, crc: seq<Byte>)

  predicate WellFormed(f: WireFrame) {
    |f.preludeCrc| == 4 && |f.crc| == 4 && 16 + |f.headers| + |f.payload| <= 16_000_000
  }

  function FourBytes(n: nat): (bs: seq<Byte>)
    requires n < 0x1_0000_0000
  {
    [n / 256 / 256 / 256, n / 256 / 256 % 256, n / 256 % 256, n % 256]
  }

  lemma FourBytesValue(n: nat)
    requires n < 0x1_0000_0000
    ensures BigEndian(FourBytes(n)) == n
  {
    BigEndianFour(FourBytes(n));
  }

  function EncodeFrame(f: WireFrame): (bs: seq<Byte>)
    requires WellFormed(f)
    ensures |bs| == 16 + |f.headers| + |f.payload|
  {
    FourBytes(16 + |f.headers| + |f.payload|) + FourBytes(|f.headers|) + f.preludeCrc
    + f.headers + f.payload + f.crc
  }

  function EncodeFrames(fs: seq<WireFrame>): seq<Byte>
    requires forall f :: f in fs ==> WellFormed(f)
  {
    if fs == [] then [] else EncodeFrame(fs[0]) + EncodeFrames(fs[1..])
  }

  function Meaning(decode: seq<Byte> -> string, f: WireFrame): Event {
    var headers := Headers(decode, f.headers);
    Event(if ":event-type" in headers then headers[":event-type"] else "", f.payload)
  }

  lemma EncodedFrame(decode: seq<Byte> -> string, pre: seq<Byte>, f: WireFrame, rest: seq<Byte>)
    requires WellFormed(f)
    ensures FrameAt(decode, pre + EncodeFrame(f) + rest, |pre|) == Frame(|pre| + |EncodeFrame(f)|, Meaning(decode, f))
  {
    hide BigEndian, Headers;
    var n, h, p := |EncodeFrame(f)|, |f.headers|, |pre|;
    var b := pre + EncodeFrame(f) + rest;
    FourBytesValue(n);
    FourBytesValue(h);
    assert b[p..p + 4] == FourBytes(n);
    assert b[p + 4..p + 8] == FourBytes(h);
    assert b[p + 12..p + 12 + h] == f.headers;
    assert b[p + 12 + h..p + n - 4] == f.payload;
  }

  /** A proper prefix of a well-formed frame only makes the parser wait. */
  lemma PartialFrame(decode: seq<Byte> -> string, pre: seq<Byte>, f: WireFrame, k: nat)
    requires WellFormed(f) && k < |EncodeFrame(f)|
    ensures FrameAt(decode, pre + EncodeFrame(f)[..k], |pre|) == Wait
  {
    hide BigEndian, Headers, EncodeFrame, FourBytes;
    if k >= 16 {
      FourBytesValue(|EncodeFrame(f)|);
      FrameStart(f);
      var part := EncodeFrame(f)[..k];
      assert part[..4] == EncodeFrame(f)[..4];
      assert (pre + part)[|pre|..|pre| + 4] == part[..4];
    }
  }

  lemma FrameStart(f: WireFrame)
    requires WellFormed(f)
    ensures EncodeFrame(f)[..4] == FourBytes(|EncodeFrame(f)|)
  {}

  function Meanings(decode: seq<Byte> -> string, fs: seq<WireFrame>): seq<Event> {
    if fs == [] then [] else [Meaning(decode, fs[0])] + Meanings(decode, fs[1..])
  }

  lemma {:induction false} ScanEncoded(decode: seq<Byte> -> string, pre: seq<Byte>, fs: seq<WireFrame>,
                                       next: WireFrame, k: nat)
    requires forall f :: f in fs ==> WellFormed(f)
    requires WellFormed(next) && k < |EncodeFrame(next)|
    ensures Scan(decode, pre + EncodeFrames(fs) + EncodeFrame(next)[..k], |pre|)
         == Scanned(Meanings(decode, fs), |pre| + |EncodeFrames(fs)|, false)
    decreases |fs|
  {
    hide FrameAt, EncodeFrame, Meaning, WellFormed;
    var part := EncodeFrame(next)[..k];
    if fs == [] {
      assert pre + EncodeFrames(fs) + part == pre + part;
      PartialFrame(decode, pre, next, k);
    } else {
      var first, rest := EncodeFrame(fs[0]), EncodeFrames(fs[1..]);
      assert pre + EncodeFrames(fs) + part == pre + first + (rest + part);
      assert pre + EncodeFrames(fs) + part == (pre + first) + rest + part;
      EncodedFrame(decode, pre, fs[0], rest + part);
      ScanEncoded(decode, pre + first, fs[1..], next, k);
    }
  }

  /** Well-formed frames followed by part of another: exactly those events, exactly that part. */
  lemma FramesRoundTrip(decode: seq<Byte> -> string, fs: seq<WireFrame>, next: WireFrame, k: nat)
    requires forall f :: f in fs ==> WellFormed(f)
    requires WellFormed(next) && k < |EncodeFrame(next)|
    ensures Frames(decode, EncodeFrames(fs) + EncodeFrame(next)[..k]) == (Meanings(decode, fs), EncodeFrame(next)[..k])
  {
    hide FrameAt, EncodeFrame;
    var all := EncodeFrames(fs) + EncodeFrame(next)[..k];
    assert [] + EncodeFrames(fs) + EncodeFrame(next)[..k] == all;
    ScanEncoded(decode, [], fs, next, k);
    assert all[|EncodeFrames(fs)|..] == EncodeFrame(next)[..k];
  }

  // ---- Chunk by chunk ------------------------------------------------------

  /** Parse until a call finds nothing. */
  function Drain(decode: seq<Byte> -> string, buf: seq<Byte>): (seq<Event>, seq<Byte>)
    decreases |buf|
  {
    var (events, rest) := Frames(decode, buf);
    if events == [] then ([], rest)
    else var (more, left) := Drain(decode, rest); (events + more, left)
  }

  function Fed(decode: seq<Byte> -> string, buf: seq<Byte>, chunk: seq<Byte>): (seq<Event>, seq<Byte>) {
    if chunk == [] then ([], buf) else Drain(decode, buf + chunk)
  }

  function Run(decode: seq<Byte> -> string, buf: seq<Byte>, chunks: seq<seq<Byte>>): (seq<Event>, seq<Byte>)
    decreases |chunks|
  {
    if chunks == [] then ([], buf)
    else
      var (now, left) := Fed(decode, buf, chunks[0]);
      var (later, rest) := Run(decode, left, chunks[1..]);
      (now + later, rest)
  }

  class Decoder {
    var buf: seq<Byte>

    constructor ()
      ensures buf == []
    {
      buf := [];
    }

    method Feed(decode: seq<Byte> -> string, chunk: seq<Byte>) returns (events: seq<Event>)
      modifies this
      ensures (events, buf) == Fed(decode, old(buf), chunk)
    {
      events := [];
      if chunk == [] { return; }
      buf := buf + chunk;
      assert [] + Drain(decode, buf).0 == Drain(decode, buf).0;
      while true
        invariant var (more, left) := Drain(decode, buf);
                  Drain(decode, old(buf) + chunk) == (events + more, left)
        decreases |buf|
      {
        var found, rest := ParseFrames(decode, buf);
        ghost var (more, left) := Drain(decode, rest);
        assert found != [] ==> events + (found + more) == (events + found) + more;
        buf := rest;
        if found == [] { break; }
        events := events + found;
      }
      assert events + [] == events;
    }
  }

  lemma FrameIsStable(decode: seq<Byte> -> string, a: seq<Byte>, b: seq<Byte>, pos: nat)
    ensures !FrameAt(decode, a, pos).Wait? ==> FrameAt(decode, a + b, pos) == FrameAt(decode, a, pos)
  {
    hide BigEndian, Headers;
    if pos + 16 <= |a| {
      assert (a + b)[pos..pos + 4] == a[pos..pos + 4];
      var n := BigEndian(a[pos..pos + 4]);
      if 16 <= n && pos + n <= |a| {
        assert (a + b)[pos + 4..pos + 8] == a[pos + 4..pos + 8];
        var h := BigEndian(a[pos + 4..pos + 8]);
        if h <= n - 16 {
          assert (a + b)[pos + 12..pos + 12 + h] == a[pos + 12..pos + 12 + h];
          assert (a + b)[pos + 12 + h..pos + n - 4] == a[pos + 12 + h..pos + n - 4];
        }
      }
    }
  }

  function Later(s: Step, offset: nat): Step {
    if s.Frame? then Frame(s.next + offset, s.event) else s
  }

  lemma FrameShifts(decode: seq<Byte> -> string, buf: seq<Byte>, p: nat, q: nat)
    requires p <= |buf|
    ensures FrameAt(decode, buf, p + q) == Later(FrameAt(decode, buf[p..], q), p)
  {
    hide BigEndian, Headers;
    if p + q + 16 <= |buf| {
      DropSlice(buf, p, q, q + 4);
      var n := BigEndian(buf[p + q..p + q + 4]);
      if 16 <= n && p + q + n <= |buf| {
        DropSlice(buf, p, q + 4, q + 8);
        var h := BigEndian(buf[p + q + 4..p + q + 8]);
        if h <= n - 16 {
          DropSlice(buf, p, q + 12, q + 12 + h);
          DropSlice(buf, p, q + 12 + h, q + n - 4);
        }
      }
    }
  }

  /** Scanning from a position is scanning what follows it. */
  lemma {:induction false} ScanShifts(decode: seq<Byte> -> string, buf: seq<Byte>, p: nat, q: nat)
    requires p + q <= |buf|
    ensures var s := Scan(decode, buf[p..], q); Scan(decode, buf, p + q) == Scanned(s.events, s.stop + p, s.bad)
    decreases |buf| - p - q
  {
    hide FrameAt;
    FrameShifts(decode, buf, p, q);
    if FrameAt(decode, buf[p..], q).Frame? {
      ScanShifts(decode, buf, p, FrameAt(decode, buf[p..], q).next);
    }
  }

  lemma ScanUnfold(decode: seq<Byte> -> string, buf: seq<Byte>, pos: nat)
    requires pos <= |buf|
    ensures var f := FrameAt(decode, buf, pos);
            && (f.Wait? ==> Scan(decode, buf, pos) == Scanned([], pos, false))
            && (f.Malformed? ==> Scan(decode, buf, pos) == Scanned([], pos, true))
            && (f.Frame? ==> var s := Scan(decode, buf, f.next);
                             Scan(decode, buf, pos) == Scanned([f.event] + s.events, s.stop, s.bad))
  {
    hide FrameAt;
  }

  /** Scanning may stop at any byte and resume where it stopped, once more bytes are there. */
  lemma {:induction false} ScanResumes(decode: seq<Byte> -> string, a: seq<Byte>, b: seq<Byte>, pos: nat)
    requires pos <= |a|
    ensures var s := Scan(decode, a, pos);
            if s.bad then Scan(decode, a + b, pos) == s
            else var t := Scan(decode, a + b, s.stop);
                 Scan(decode, a + b, pos) == Scanned(s.events + t.events, t.stop, t.bad)
    decreases |a| - pos
  {
    hide FrameAt, Scan;
    ScanUnfold(decode, a, pos);
    ScanUnfold(decode, a + b, pos);
    FrameIsStable(decode, a, b, pos);
    var f := FrameAt(decode, a, pos);
    if f.Wait? {
      assert [] + Scan(decode, a + b, pos).events == Scan(decode, a + b, pos).events;
    } else if f.Frame? {
      ScanResumes(decode, a, b, f.next);
      var s := Scan(decode, a, f.next);
      var t := Scan(decode, a + b, s.stop);
      Assoc([f.event], s.events, t.events);
    }
  }

  lemma {:induction false} ScanIsDone(decode: seq<Byte> -> string, buf: seq<Byte>, pos: nat)
    requires pos <= |buf|
    ensures var s := Scan(decode, buf, pos); Scan(decode, buf, s.stop) == Scanned([], s.stop, s.bad)
    decreases |buf| - pos
  {
    hide FrameAt;
    var f := FrameAt(decode, buf, pos);
    if f.Frame? { ScanIsDone(decode, buf, f.next); }
  }

  lemma RestIsDone(decode: seq<Byte> -> string, buf: seq<Byte>)
    ensures var s := Scan(decode, buf, 0); Scan(decode, buf[s.stop..], 0) == Scanned([], 0, s.bad)
  {
    hide FrameAt, Scan;
    var s := Scan(decode, buf, 0);
    ScanIsDone(decode, buf, 0);
    ScanShifts(decode, buf, s.stop, 0);
  }

  lemma DrainIsOneCall(decode: seq<Byte> -> string, buf: seq<Byte>)
    ensures Drain(decode, buf) == Frames(decode, buf)
  {
    hide FrameAt, Scan;
    var (events, rest) := Frames(decode, buf);
    if events != [] {
      RestIsDone(decode, buf);
      assert rest[0..] == rest;
      assert events + [] == events;
    }
  }

  /** What a drained buffer keeps is all that later bytes need. */
  lemma FramesResume(decode: seq<Byte> -> string, a: seq<Byte>, later: seq<Byte>)
    requires !Scan(decode, a + later, 0).bad
    ensures var (events, left) := Frames(decode, a);
            && Scan(decode, left, 0) == Scanned([], 0, false)
            && !Scan(decode, left + later, 0).bad
            && var (more, rest) := Frames(decode, left + later);
               Frames(decode, a + later) == (events + more, rest)
  {
    hide FrameAt, Scan;
    var s, all := Scan(decode, a, 0), a + later;
    ScanResumes(decode, a, later, 0);
    RestIsDone(decode, a);
    ScanShifts(decode, all, s.stop, 0);
    var left := a[s.stop..];
    assert all[s.stop..] == left + later;
    var t := Scan(decode, left + later, 0);
    assert all[s.stop..][t.stop..] == all[s.stop + t.stop..];
  }

  /** On a stream without bad frames every chunking decodes to the same events and remainder. */
  lemma {:induction false} CleanChunking(decode: seq<Byte> -> string, buf: seq<Byte>, chunks: seq<seq<Byte>>)
    requires Scan(decode, buf, 0) == Scanned([], 0, false)
    requires !Scan(decode, buf + Flatten(chunks), 0).bad
    ensures Run(decode, buf, chunks) == Frames(decode, buf + Flatten(chunks))
    decreases |chunks|
  {
    if chunks == [] {
      assert buf + [] == buf && buf[0..] == buf;
    } else {
      hide Scan, Frames, Drain;
      var a, later := buf + chunks[0], Flatten(chunks[1..]);
      assert buf + Flatten(chunks) == a + later;
      if chunks[0] == [] {
        assert a == buf;
        CleanChunking(decode, buf, chunks[1..]);
        assert [] + Run(decode, buf, chunks[1..]).0 == Run(decode, buf, chunks[1..]).0;
      } else {
        FramesResume(decode, a, later);
        DrainIsOneCall(decode, a);
        CleanChunking(decode, Frames(decode, a).1, chunks[1..]);
      }
    }
  }

  /** A stream that opens with a bad frame never yields anything, however it is cut. */
  lemma {:induction false} BadStartChunking(decode: seq<Byte> -> string, buf: seq<Byte>, chunks: seq<seq<Byte>>)
    requires FrameAt(decode, buf + Flatten(chunks), 0).Malformed?
    ensures Run(decode, buf, chunks).0 == []
    decreases |chunks|
  {
    hide FrameAt;
    if chunks != [] {
      var a, later := buf + chunks[0], Flatten(chunks[1..]);
      assert buf + Flatten(chunks) == a + later;
      if chunks[0] == [] {
        assert a == buf;
      } else {
        FrameIsStable(decode, a, later, 0);
        DrainIsOneCall(decode, a);
        assert a[0..] == a;
      }
      BadStartChunking(decode, a, chunks[1..]);
    }
  }

  /** Frames were found before a bad one: one call over all of it loses them. */
  predicate LosesFrames(decode: seq<Byte> -> string, s: seq<Byte>) {
    Scan(decode, s, 0).bad && Scan(decode, s, 0).events != []
  }

  ghost predicate ChunkingIrrelevant(decode: seq<Byte> -> string, s: seq<Byte>) {
    forall c: seq<seq<Byte>>, d: seq<seq<Byte>> | Flatten(c) == s && Flatten(d) == s ::
      Run(decode, [], c).0 == Run(decode, [], d).0
  }

  lemma RunFirst(decode: seq<Byte> -> string, s: seq<Byte>, more: seq<seq<Byte>>)
    requires s != []
    ensures Run(decode, [], [s] + more).0 == Frames(decode, s).0 + Run(decode, Frames(decode, s).1, more).0
  {
    hide Frames, Drain;
    var chunks := [s] + more;
    assert [] + s == s && chunks[1..] == more;
    DrainIsOneCall(decode, s);
  }

  lemma WholeLoses(decode: seq<Byte> -> string, s: seq<Byte>)
    requires LosesFrames(decode, s)
    ensures s != [] && FrameAt(decode, s, 0).Frame? && Run(decode, [], [s]).0 == []
  {
    assert s != [] && FrameAt(decode, s, 0).Frame?;
    hide FrameAt, Scan, Run, Drain;
    RunFirst(decode, s, []);
    assert [s] + [] == [s];
    RunNothing(decode, Frames(decode, s).1);
  }

  lemma CutKeeps(decode: seq<Byte> -> string, s: seq<Byte>)
    requires FrameAt(decode, s, 0).Frame?
    ensures var n := FrameAt(decode, s, 0).next;
            0 < n <= |s| && Run(decode, [], [s[..n]] + [s[n..]]).0 != []
  {
    var n := FrameAt(decode, s, 0).next;
    assert 0 < n <= |s|;
    FirstFrameAlone(decode, s);
    hide FrameAt, Scan, Run, Drain;
    RunFirst(decode, s[..n], [s[n..]]);
  }

  /** Cutting after the first frame keeps it; not cutting loses it. */
  lemma CutKeepsWhatOneCallLoses(decode: seq<Byte> -> string, s: seq<Byte>)
    requires LosesFrames(decode, s)
    ensures exists c: seq<seq<Byte>>, d: seq<seq<Byte>> :: Flatten(c) == s && Flatten(d) == s
              && Run(decode, [], c).0 != Run(decode, [], d).0
  {
    hide *;
    WholeLoses(decode, s);
    CutKeeps(decode, s);
    var n := FrameAt(decode, s, 0).next;
    FlattenOne(s);
    FlattenTwo(s[..n], s[n..]);
    assert s[..n] + s[n..] == s;
    assert Flatten([s]) == s && Flatten([s[..n]] + [s[n..]]) == s;
  }

  lemma RunNothing(decode: seq<Byte> -> string, buf: seq<Byte>)
    ensures Run(decode, buf, []).0 == []
  {}

  /** Byte boundaries do not matter exactly when no bad frame follows a good one. */
  lemma ChunkingIrrelevantExactly(decode: seq<Byte> -> string, s: seq<Byte>)
    ensures ChunkingIrrelevant(decode, s) <==> !LosesFrames(decode, s)
  {
    assert [] + s == s;
    if LosesFrames(decode, s) {
      CutKeepsWhatOneCallLoses(decode, s);
    } else {
      assert Scan(decode, [], 0) == Scanned([], 0, false);
      assert Scan(decode, s, 0).bad ==> FrameAt(decode, s, 0).Malformed?;
      hide FrameAt, Scan, Run, Frames;
      forall c: seq<seq<Byte>>, d: seq<seq<Byte>> | Flatten(c) == s && Flatten(d) == s
        ensures Run(decode, [], c).0 == Run(decode, [], d).0
      {
        if Scan(decode, s, 0).bad {
          BadStartChunking(decode, [], c);
          BadStartChunking(decode, [], d);
        } else {
          CleanChunking(decode, [], c);
          CleanChunking(decode, [], d);
        }
      }
    }
  }

  lemma FirstFrameAlone(decode: seq<Byte> -> string, s: seq<Byte>)
    requires FrameAt(decode, s, 0).Frame?
    ensures var n := FrameAt(decode, s, 0).next;
            Scan(decode, s[..n], 0) == Scanned([FrameAt(decode, s, 0).event], n, false)
  {
    hide BigEndian, Headers;
    var n := FrameAt(decode, s, 0).next;
    var h := BigEndian(s[4..8]);
    var a := s[..n];
    assert a[..4] == s[..4];
    assert a[4..8] == s[4..8];
    assert a[12..12 + h] == s[12..12 + h];
    assert a[12 + h..n - 4] == s[12 + h..n - 4];
  }

  // ---- Sniffing ------------------------------------------------------------

  predicate IsEventStream(buf: seq<Byte>) {
    |buf| >= 16 && buf[0] == 0
    && 16 <= BigEndian(buf[..4]) <= MAX_FRAME
    && BigEndian(buf[4..8]) <= BigEndian(buf[..4]) - 16
  }

  /** The sniff accepts exactly the openings the frame parser will not call bad:
      at once, or when the rest of the announced frame arrives. */
  lemma SniffAgreesWithParser(decode: seq<Byte> -> string, s: seq<Byte>)
    requires |s| >= 16
    ensures IsEventStream(s) <==> forall more: seq<Byte> :: !FrameAt(decode, s + more, 0).Malformed?
  {
    var n, h := BigEndian(s[..4]), BigEndian(s[4..8]);
    forall more: seq<Byte>
      ensures (s + more)[..4] == s[..4] && (s + more)[4..8] == s[4..8]
    {}
    BigEndianFour(s[..4]);
    if !IsEventStream(s) && 16 <= n <= MAX_FRAME {
      var more: seq<Byte> := seq(n, _ => 0);
      assert FrameAt(decode, s + more, 0).Malformed?;
    } else if !IsEventStream(s) {
      assert FrameAt(decode, s + [], 0).Malformed?;
    }
  }

  /** Reads chunks until 16 bytes are in hand, or none are left. */
  method Sniff(chunks: seq<seq<Byte>>) returns (binary: bool)
    ensures binary == IsEventStream(Flatten(chunks))
  {
    var head: seq<Byte> := [];
    var i := 0;
    while i < |chunks| && |head| < 16
      invariant 0 <= i <= |chunks|
      invariant head == Flatten(chunks[..i])
    {
      FlattenSnoc(chunks[..i], chunks[i]);
      assert chunks[..i + 1] == chunks[..i] + [chunks[i]];
      head := head + chunks[i];
      i := i + 1;
    }
    FlattenAppend(chunks[..i], chunks[i..]);
    assert chunks[..i] + chunks[i..] == chunks;
    if |head| < 16 {
      assert chunks[i..] == [];
    }
    assert |head| >= 16 ==> Flatten(chunks)[..4] == head[..4] && Flatten(chunks)[4..8] == head[4..8];
    binary := IsEventStream(head);
  }

  /** Picks the lane, then decodes from the first byte; the text lane is not modelled. */
  method DecodeSniffed(decode: seq<Byte> -> string, chunks: seq<seq<Byte>>)
    returns (binary: bool, events: seq<Event>)
    ensures binary == IsEventStream(Flatten(chunks))
    ensures events == if binary then Run(decode, [], chunks).0 else []
  {
    binary := Sniff(chunks);
    events := [];
    if !binary { return; }
    var decoder := new Decoder();
    var j := 0;
    assert chunks[0..] == chunks;
    while j < |chunks|
      invariant 0 <= j <= |chunks|
      invariant RanTo(decode, chunks, j, decoder.buf, events)
    {
      ghost var was := decoder.buf;
      var now := decoder.Feed(decode, chunks[j]);
      RunAdvances(decode, chunks, j, was, events);
      events := events + now;
      j := j + 1;
    }
    assert events + [] == events;
  }

  ghost predicate RanTo(decode: seq<Byte> -> string, chunks: seq<seq<Byte>>, j: nat, buf: seq<Byte>, events: seq<Event>)
    requires j <= |chunks|
  {
    Run(decode, [], chunks).0 == events + Run(decode, buf, chunks[j..]).0
  }

  lemma RunAdvances(decode: seq<Byte> -> string, chunks: seq<seq<Byte>>, j: nat, buf: seq<Byte>, events: seq<Event>)
    requires j < |chunks| && RanTo(decode, chunks, j, buf, events)
    ensures var (now, left) := Fed(decode, buf, chunks[j]); RanTo(decode, chunks, j + 1, left, events + now)
  {
    var (now, left) := Fed(decode, buf, chunks[j]);
    assert chunks[j..][1..] == chunks[j + 1..];
    var later := Run(decode, left, chunks[j + 1..]).0;
    assert events + (now + later) == (events + now) + later;
  }
}
