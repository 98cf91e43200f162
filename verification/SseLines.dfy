/**
 The line machine that both consumers of a Codex event stream run over raw bytes
 (app/codex_adapter.py, `responses_sse_to_openai_sse` and
 `assemble_responses_from_sse`). It resembles section 9.2.6 of the WHATWG HTML
 standard, but joins data lines with nothing between them.
 */
module SseLines {
  import opened Prelude

  const LF: Byte := 10
  const CR: Byte := 13

  /** `utf8` is a lossy decode, `strip` Python's `str.strip`; both are total. */
  datatype Text = Text(utf8: seq<Byte> -> string, strip: string -> string)

  function FindLf(s: seq<Byte>): (i: nat)
    ensures i <= |s| && LF !in s[..i]
    ensures i < |s| ==> s[i] == LF
  {
    if s == [] || s[0] == LF then 0 else 1 + FindLf(s[1..])
  }

  /** The complete lines of a byte string, and what follows the last line feed. */
  function SplitLines(s: seq<Byte>): (r: (seq<seq<Byte>>, seq<Byte>))
    ensures LF !in r.1
    decreases |s|
  {
    var i := FindLf(s);
    if i == |s| then assert s[..i] == s; ([], s)
    else var (lines, tail) := SplitLines(s[i + 1..]); ([s[..i]] + lines, tail)
  }

  function StripCr(line: seq<Byte>): seq<Byte> {
    if line != [] && line[|line| - 1] == CR then StripCr(line[..|line| - 1]) else line
  }

  function Decoded(t: Text, line: seq<Byte>): string {
    t.utf8(StripCr(line))
  }

  // ---- Lines to events -----------------------------------------------------

  /** An event as dispatched: its `event:` field, if any, and its joined data. */
  datatype Dispatch = Dispatch(event: Option<string>, data: string)

  datatype State = State(event: Option<string>, data: seq<string>, sent: seq<Dispatch>)

  function Concat(parts: seq<string>): string {
    if parts == [] then "" else Concat(parts[..|parts| - 1]) + parts[|parts| - 1]
  }

  const EVENT := "event:"
  const DATA := "data:"

  function DropSpace(s: string): string {
    if " " <= s then s[1..] else s
  }

  function Line(t: Text, s: State, line: string): State {
    if EVENT <= line then s.(event := Some(t.strip(line[6..])))
    else if DATA <= line then s.(data := s.data + [DropSpace(line[5..])])
    else if line == "" then State(None, [], Flushed(s))
    else s
  }

  /** What a blank line, or the end of the stream, dispatches. */
  function Flushed(s: State): seq<Dispatch> {
    if s.data == [] then s.sent else s.sent + [Dispatch(s.event, Concat(s.data))]
  }

  function Lines(t: Text, lines: seq<seq<Byte>>): State {
    if lines == [] then State(None, [], [])
    else Line(t, Lines(t, lines[..|lines| - 1]), Decoded(t, lines[|lines| - 1]))
  }

  /** The streaming consumer drops an unterminated last line. */
  function StreamedDispatches(t: Text, bytes: seq<Byte>): seq<Dispatch> {
    Flushed(Lines(t, SplitLines(bytes).0))
  }

  /** The buffering consumer processes it. */
  function BufferedDispatches(t: Text, bytes: seq<Byte>): seq<Dispatch> {
    var (lines, tail) := SplitLines(bytes);
    Flushed(Lines(t, if tail == [] then lines else lines + [tail]))
  }

  // ---- Cutting the bytes anywhere ------------------------------------------

  lemma FindLfAppend(a: seq<Byte>, b: seq<Byte>)
    ensures FindLf(a) < |a| ==> FindLf(a + b) == FindLf(a)
    ensures FindLf(a) == |a| ==> FindLf(a + b) == |a| + FindLf(b)
    decreases |a|
  {
    if a == [] {
      assert a + b == b;
    } else if a[0] != LF {
      assert (a + b)[1..] == a[1..] + b;
      FindLfAppend(a[1..], b);
    }
  }

  lemma SplitUnfold(s: seq<Byte>)
    requires FindLf(s) < |s|
    ensures var i := FindLf(s);
            var (lines, tail) := SplitLines(s[i + 1..]);
            SplitLines(s) == ([s[..i]] + lines, tail)
  {
    hide FindLf;
  }

  /** A line feed in the buffer ends a line of the whole stream, whatever is still to come. */
  lemma FirstLine(buf: seq<Byte>, rest: seq<Byte>)
    requires FindLf(buf) < |buf|
    ensures var i := FindLf(buf);
            var (lines, tail) := SplitLines(buf[i + 1..] + rest);
            SplitLines(buf + rest) == ([buf[..i]] + lines, tail)
  {
    hide FindLf, SplitLines;
    FindLfAppend(buf, rest);
    SplitUnfold(buf + rest);
    var i := FindLf(buf);
    assert (buf + rest)[i + 1..] == buf[i + 1..] + rest;
    assert (buf + rest)[..i] == buf[..i];
  }

  lemma NoLine(buf: seq<Byte>)
    requires FindLf(buf) == |buf|
    ensures SplitLines(buf) == ([], buf)
  {}

  /** The lines read so far, the buffer and the chunks to come make up the whole stream. */
  ghost predicate ReadTo(chunks: seq<seq<Byte>>, i: nat, lines: seq<seq<Byte>>, buf: seq<Byte>)
    requires i <= |chunks|
  {
    var (more, tail) := SplitLines(buf + Flatten(chunks[i..]));
    SplitLines(Flatten(chunks)) == (lines + more, tail)
  }

  lemma ReadStarts(chunks: seq<seq<Byte>>)
    ensures ReadTo(chunks, 0, [], [])
  {
    assert chunks[0..] == chunks;
    assert [] + Flatten(chunks) == Flatten(chunks);
    var lines := SplitLines(Flatten(chunks)).0;
    assert [] + lines == lines;
  }

  lemma ReadChunk(chunks: seq<seq<Byte>>, i: nat, lines: seq<seq<Byte>>, buf: seq<Byte>)
    requires i < |chunks| && ReadTo(chunks, i, lines, buf)
    ensures ReadTo(chunks, i + 1, lines, buf + chunks[i])
  {
    hide SplitLines;
    assert chunks[i..][1..] == chunks[i + 1..];
    Assoc(buf, chunks[i], Flatten(chunks[i + 1..]));
  }

  lemma ReadLine(chunks: seq<seq<Byte>>, i: nat, lines: seq<seq<Byte>>, buf: seq<Byte>)
    requires i <= |chunks| && ReadTo(chunks, i, lines, buf) && FindLf(buf) < |buf|
    ensures ReadTo(chunks, i, lines + [buf[..FindLf(buf)]], buf[FindLf(buf) + 1..])
  {
    hide SplitLines, Flatten;
    FirstLine(buf, Flatten(chunks[i..]));
    var more := SplitLines(buf[FindLf(buf) + 1..] + Flatten(chunks[i..])).0;
    Assoc(lines, [buf[..FindLf(buf)]], more);
  }

  lemma ReadEnds(chunks: seq<seq<Byte>>, lines: seq<seq<Byte>>, buf: seq<Byte>)
    requires ReadTo(chunks, |chunks|, lines, buf) && FindLf(buf) == |buf|
    ensures SplitLines(Flatten(chunks)) == (lines, buf)
  {
    assert chunks[|chunks|..] == [] && buf + [] == buf;
    NoLine(buf);
    assert lines + [] == lines;
  }

  lemma LinesSnoc(t: Text, lines: seq<seq<Byte>>, line: seq<Byte>)
    ensures Lines(t, lines + [line]) == Line(t, Lines(t, lines), Decoded(t, line))
  {
    hide Line, Decoded;
    assert (lines + [line])[..|lines|] == lines;
  }

  /** Dispatched events are never taken back. */
  lemma {:induction false} SentGrows(t: Text, lines: seq<seq<Byte>>, more: seq<seq<Byte>>)
    ensures Lines(t, lines).sent <= Lines(t, lines + more).sent
    decreases |more|
  {
    if more == [] {
      assert lines + [] == lines;
    } else {
      var front, last := more[..|more| - 1], more[|more| - 1];
      SentGrows(t, lines, front);
      assert lines + more == (lines + front) + [last];
      LinesSnoc(t, lines + front, last);
    }
  }

  /** On a newline-terminated stream the two consumers see the same events. */
  lemma SameDispatches(t: Text, bytes: seq<Byte>)
    requires SplitLines(bytes).1 == []
    ensures StreamedDispatches(t, bytes) == BufferedDispatches(t, bytes)
  {}

  // ---- Reading back what a sender writes -----------------------------------

  /** A line as a sender writes it, with or without a space after the colon; `Other` is a comment,
      or a field that nobody reads. */
  datatype Field = EventField(name: string, spaced: bool) | DataField(text: string, spaced: bool) | Other(text: string)

  function LineOf(f: Field): string {
    match f
    case EventField(name, spaced) => (if spaced then "event: " else "event:") + name
    case DataField(text, spaced) => (if spaced then "data: " else "data:") + text
    case Other(text) => text
  }

  predicate OneLine(s: string) {
    '\n' !in s && '\r' !in s
  }

  predicate Writable(f: Field) {
    && OneLine(LineOf(f))
    && (f.DataField? && !f.spaced ==> !(" " <= f.text))
    && (f.Other? ==> f.text != "" && !("event:" <= f.text) && !("data:" <= f.text))
  }

  /** `encode` is an encoding that `utf8` undoes, that loses no text and gives no new line ends. */
  ghost predicate Encodes(t: Text, encode: string -> seq<Byte>) {
    && (forall s :: t.utf8(encode(s)) == s)
    && (forall s :: OneLine(s) ==> 10 !in encode(s) && 13 !in encode(s))
    && (forall s :: s != "" ==> encode(s) != [])
    && (forall s :: t.strip(" " + s) == t.strip(s))
  }

  function Raw(encode: string -> seq<Byte>, crlf: bool, line: string): seq<Byte> {
    encode(line) + if crlf then [13] else []
  }

  function Raws(encode: string -> seq<Byte>, crlf: bool, lines: seq<string>): (r: seq<seq<Byte>>)
    ensures |r| == |lines|
  {
    if lines == [] then [] else [Raw(encode, crlf, lines[0])] + Raws(encode, crlf, lines[1..])
  }

  /** Each line with its line end. */
  function WrittenLines(encode: string -> seq<Byte>, crlf: bool, lines: seq<string>): seq<Byte> {
    if lines == [] then []
    else encode(lines[0]) + (if crlf then [13, 10] else [10]) + WrittenLines(encode, crlf, lines[1..])
  }

  function LinesOf(fs: seq<Field>): seq<string> {
    if fs == [] then [] else LinesOf(fs[..|fs| - 1]) + [LineOf(fs[|fs| - 1])]
  }

  /** Each event's fields, and the blank line that ends it. */
  function AllLines(events: seq<seq<Field>>): seq<string> {
    if events == [] then [] else AllLines(events[..|events| - 1]) + LinesOf(events[|events| - 1]) + [""]
  }

  function Written(encode: string -> seq<Byte>, crlf: bool, events: seq<seq<Field>>): seq<Byte> {
    WrittenLines(encode, crlf, AllLines(events))
  }

  /** The name an event goes out under, if any: its last event field's. */
  function NameIn(fs: seq<Field>): Option<string> {
    if fs == [] then None
    else if fs[|fs| - 1].EventField? then Some(fs[|fs| - 1].name)
    else NameIn(fs[..|fs| - 1])
  }

  /** The texts of its data fields, in order. */
  function DataIn(fs: seq<Field>): seq<string> {
    if fs == [] then []
    else DataIn(fs[..|fs| - 1]) + if fs[|fs| - 1].DataField? then [fs[|fs| - 1].text] else []
  }

  function NameSent(t: Text, fs: seq<Field>): Option<string> {
    if NameIn(fs).Some? then Some(t.strip(NameIn(fs).value)) else None
  }

  /** What a reader should see of the events: one dispatch for each that carries data. */
  function Sent(t: Text, events: seq<seq<Field>>): seq<Dispatch> {
    if events == [] then []
    else
      var fs := events[|events| - 1];
      Sent(t, events[..|events| - 1])
      + if DataIn(fs) == [] then [] else [Dispatch(NameSent(t, fs), Flatten(DataIn(fs)))]
  }

  predicate FieldsWritable(fs: seq<Field>) {
    forall f | f in fs :: Writable(f)
  }

  predicate AllWritable(events: seq<seq<Field>>) {
    forall fs | fs in events :: FieldsWritable(fs)
  }

  predicate AllOneLine(lines: seq<string>) {
    forall line | line in lines :: OneLine(line)
  }

  lemma SplitFirst(line: seq<Byte>, rest: seq<Byte>)
    requires 10 !in line
    ensures SplitLines(line + [10] + rest) == ([line] + SplitLines(rest).0, SplitLines(rest).1)
  {
    hide FindLf, SplitLines;
    var all := line + [10] + rest;
    assert all == line + ([10] + rest);
    FindLfAppend(line, [10] + rest);
    assert FindLf(line) == |line| by { NoneToFind(line); }
    assert FindLf([10] + rest) == 0 by { FirstToFind(rest); }
    SplitUnfold(all);
    assert all[..|line|] == line && all[|line| + 1..] == rest;
  }

  lemma NoneToFind(line: seq<Byte>)
    requires 10 !in line
    ensures FindLf(line) == |line|
  {}

  lemma FirstToFind(rest: seq<Byte>)
    ensures FindLf([10] + rest) == 0
  {}

  lemma RawIsOneLine(t: Text, encode: string -> seq<Byte>, crlf: bool, line: string)
    requires Encodes(t, encode) && OneLine(line)
    ensures 10 !in Raw(encode, crlf, line)
  {}

  lemma FirstWritten(encode: string -> seq<Byte>, crlf: bool, lines: seq<string>)
    requires lines != []
    ensures WrittenLines(encode, crlf, lines)
         == Raw(encode, crlf, lines[0]) + [10] + WrittenLines(encode, crlf, lines[1..])
  {
    assert encode(lines[0]) + [13, 10] == encode(lines[0]) + [13] + [10];
  }

  lemma FirstRaw(encode: string -> seq<Byte>, crlf: bool, lines: seq<string>)
    requires lines != []
    ensures Raws(encode, crlf, lines) == [Raw(encode, crlf, lines[0])] + Raws(encode, crlf, lines[1..])
  {}

  lemma NothingWritten(encode: string -> seq<Byte>, crlf: bool)
    ensures WrittenLines(encode, crlf, []) == [] && Raws(encode, crlf, []) == []
  {}

  lemma {:induction false} SplitWritten(t: Text, encode: string -> seq<Byte>, crlf: bool, lines: seq<string>,
                                        tail: seq<Byte>)
    requires Encodes(t, encode) && AllOneLine(lines) && 10 !in tail
    ensures SplitLines(WrittenLines(encode, crlf, lines) + tail) == (Raws(encode, crlf, lines), tail)
    decreases |lines|
  {
    hide SplitLines, Encodes, WrittenLines, Raws, Raw, FindLf, OneLine;
    if lines == [] {
      NothingWritten(encode, crlf);
      assert [] + tail == tail;
      NoneToFind(tail);
      NoLine(tail);
    } else {
      assert lines[0] in lines && OneLine(lines[0]);
      SplitWritten(t, encode, crlf, lines[1..], tail);
      var raw, rest := Raw(encode, crlf, lines[0]), WrittenLines(encode, crlf, lines[1..]);
      RawIsOneLine(t, encode, crlf, lines[0]);
      SplitFirst(raw, rest + tail);
      FirstWritten(encode, crlf, lines);
      FirstRaw(encode, crlf, lines);
      Assoc(raw + [10], rest, tail);
    }
  }

  /** The state after these lines, as texts. */
  function Read(t: Text, lines: seq<string>): State {
    if lines == [] then State(None, [], []) else Line(t, Read(t, lines[..|lines| - 1]), lines[|lines| - 1])
  }

  lemma ReadSnoc(t: Text, lines: seq<string>, line: string)
    ensures Read(t, lines + [line]) == Line(t, Read(t, lines), line)
  {
    hide Line;
    assert (lines + [line])[..|lines|] == lines;
  }

  lemma RawDecodes(t: Text, encode: string -> seq<Byte>, crlf: bool, line: string)
    requires Encodes(t, encode) && OneLine(line)
    ensures Decoded(t, Raw(encode, crlf, line)) == line
  {
    var bytes := encode(line);
    if bytes != [] { assert bytes[|bytes| - 1] in bytes; }
    assert StripCr(bytes) == bytes;
    if crlf { assert (bytes + [13])[..|bytes|] == bytes; } else { assert bytes + [] == bytes; }
  }

  lemma {:induction false} RawsSnoc(encode: string -> seq<Byte>, crlf: bool, lines: seq<string>, line: string)
    ensures Raws(encode, crlf, lines + [line]) == Raws(encode, crlf, lines) + [Raw(encode, crlf, line)]
    decreases |lines|
  {
    hide Raw;
    if lines == [] {
      assert [] + [line] == [line] && [line][1..] == [];
    } else {
      assert (lines + [line])[1..] == lines[1..] + [line];
      RawsSnoc(encode, crlf, lines[1..], line);
    }
  }

  lemma {:induction false} LinesAreRead(t: Text, encode: string -> seq<Byte>, crlf: bool, lines: seq<string>)
    requires Encodes(t, encode) && AllOneLine(lines)
    ensures Lines(t, Raws(encode, crlf, lines)) == Read(t, lines)
    decreases |lines|
  {
    hide Line, Raw, Raws, Decoded, Encodes;
    if lines == [] {
      NothingWritten(encode, crlf);
    } else {
      var front, last := lines[..|lines| - 1], lines[|lines| - 1];
      assert lines == front + [last] && last in lines;
      LinesAreRead(t, encode, crlf, front);
      RawsSnoc(encode, crlf, front, last);
      RawDecodes(t, encode, crlf, last);
      LinesSnoc(t, Raws(encode, crlf, front), Raw(encode, crlf, last));
    }
  }

  lemma SpaceIsStripped(t: Text, encode: string -> seq<Byte>, s: string)
    requires Encodes(t, encode)
    ensures t.strip(" " + s) == t.strip(s)
  {}

  /** One field into the state. */
  lemma FieldIsRead(t: Text, encode: string -> seq<Byte>, s: State, f: Field)
    requires Encodes(t, encode) && Writable(f)
    ensures Line(t, s, LineOf(f))
         == match f
            case EventField(name, _) => s.(event := Some(t.strip(name)))
            case DataField(text, _) => s.(data := s.data + [text])
            case Other(_) => s
  {
    hide Encodes, OneLine;
    var line := LineOf(f);
    match f {
      case EventField(name, spaced) =>
        SpaceIsStripped(t, encode, name);
        assert line[6..] == (if spaced then " " else "") + name && "" + name == name;
      case DataField(text, spaced) =>
        assert line[0] == 'd' && line[5..] == (if spaced then " " else "") + text;
        assert (" " + text)[1..] == text && "" + text == text;
      case Other(_) =>
    }
  }

  lemma {:induction false} FieldsAreRead(t: Text, encode: string -> seq<Byte>, lines: seq<string>, fs: seq<Field>)
    requires Encodes(t, encode) && FieldsWritable(fs)
    requires Read(t, lines) == State(None, [], Read(t, lines).sent)
    ensures Read(t, lines + LinesOf(fs)) == State(NameSent(t, fs), DataIn(fs), Read(t, lines).sent)
    decreases |fs|
  {
    hide Line, Read, LineOf, Encodes, Writable;
    if fs == [] {
      assert lines + [] == lines;
    } else {
      var front, last := fs[..|fs| - 1], fs[|fs| - 1];
      assert last in fs;
      FieldsAreRead(t, encode, lines, front);
      assert lines + LinesOf(fs) == lines + LinesOf(front) + [LineOf(last)];
      ReadSnoc(t, lines + LinesOf(front), LineOf(last));
      FieldIsRead(t, encode, Read(t, lines + LinesOf(front)), last);
    }
  }

  lemma {:induction false} ConcatIsFlatten(parts: seq<string>)
    ensures Concat(parts) == Flatten(parts)
    decreases |parts|
  {
    if parts != [] {
      var n := |parts| - 1;
      ConcatIsFlatten(parts[..n]);
      hide Flatten;
      FlattenSnoc(parts[..n], parts[n]);
      assert parts == parts[..n] + [parts[n]];
    }
  }

  lemma EventIsRead(t: Text, encode: string -> seq<Byte>, lines: seq<string>, fs: seq<Field>)
    requires Encodes(t, encode) && FieldsWritable(fs)
    requires Read(t, lines) == State(None, [], Read(t, lines).sent)
    ensures Read(t, lines + LinesOf(fs) + [""])
         == State(None, [], Read(t, lines).sent
                            + if DataIn(fs) == [] then [] else [Dispatch(NameSent(t, fs), Flatten(DataIn(fs)))])
  {
    hide Read, LinesOf, Encodes, Writable, Concat, Flatten, NameSent, DataIn;
    FieldsAreRead(t, encode, lines, fs);
    ReadSnoc(t, lines + LinesOf(fs), "");
    ConcatIsFlatten(DataIn(fs));
  }

  lemma {:induction false} EventsAreRead(t: Text, encode: string -> seq<Byte>, events: seq<seq<Field>>)
    requires Encodes(t, encode) && AllWritable(events)
    ensures Read(t, AllLines(events)) == State(None, [], Sent(t, events))
    decreases |events|
  {
    if events != [] {
      hide Read, LinesOf, Encodes, Writable, Flatten, NameSent, DataIn;
      var front, last := events[..|events| - 1], events[|events| - 1];
      assert last in events;
      EventsAreRead(t, encode, front);
      EventIsRead(t, encode, AllLines(front), last);
    }
  }

  lemma {:induction false} FieldsOneLine(fs: seq<Field>)
    requires FieldsWritable(fs)
    ensures AllOneLine(LinesOf(fs))
    decreases |fs|
  {
    hide OneLine, LineOf;
    if fs != [] {
      assert fs[|fs| - 1] in fs;
      FieldsOneLine(fs[..|fs| - 1]);
    }
  }

  lemma {:induction false} EventsOneLine(events: seq<seq<Field>>)
    requires AllWritable(events)
    ensures AllOneLine(AllLines(events))
    decreases |events|
  {
    hide LinesOf, Writable;
    if events != [] {
      assert events[|events| - 1] in events;
      EventsOneLine(events[..|events| - 1]);
      FieldsOneLine(events[|events| - 1]);
    }
  }

  /** Whatever events a sender writes, with either line end, both consumers see exactly those that
      carry data, under their stripped names, with their data texts joined; and the streaming
      one never minds an unfinished line at the end. */
  lemma WrittenIsRead(t: Text, encode: string -> seq<Byte>, crlf: bool, events: seq<seq<Field>>, tail: seq<Byte>)
    requires Encodes(t, encode) && AllWritable(events) && 10 !in tail
    ensures StreamedDispatches(t, Written(encode, crlf, events) + tail) == Sent(t, events)
    ensures BufferedDispatches(t, Written(encode, crlf, events)) == Sent(t, events)
  {
    hide SplitLines, Lines, Read, AllLines, Sent, Raws, Encodes, AllOneLine;
    var lines := AllLines(events);
    EventsOneLine(events);
    SplitWritten(t, encode, crlf, lines, tail);
    SplitWritten(t, encode, crlf, lines, []);
    assert Written(encode, crlf, events) + [] == Written(encode, crlf, events);
    LinesAreRead(t, encode, crlf, lines);
    EventsAreRead(t, encode, events);
  }

  lemma DispatchesOf(t: Text, bytes: seq<Byte>)
    ensures var (lines, tail) := SplitLines(bytes);
            && StreamedDispatches(t, bytes) == Flushed(Lines(t, lines))
            && BufferedDispatches(t, bytes) == Flushed(Lines(t, if tail == [] then lines else lines + [tail]))
  {
    hide SplitLines, Lines, Flushed;
  }

  lemma FlushedIsSent(t: Text, events: seq<seq<Field>>, fs: seq<Field>)
    ensures Flushed(State(NameSent(t, fs), DataIn(fs), Sent(t, events))) == Sent(t, events + [fs])
  {
    hide Concat, Flatten, NameSent, DataIn;
    ConcatIsFlatten(DataIn(fs));
    assert (events + [fs])[..|events|] == events;
  }

  /** The state after whole events and the fields of one more. */
  lemma PartIsRead(t: Text, encode: string -> seq<Byte>, crlf: bool, events: seq<seq<Field>>, fs: seq<Field>)
    requires Encodes(t, encode) && AllWritable(events) && FieldsWritable(fs)
    ensures var lines := AllLines(events) + LinesOf(fs);
            && AllOneLine(lines)
            && Lines(t, Raws(encode, crlf, lines)) == Read(t, lines)
            && Read(t, lines) == State(NameSent(t, fs), DataIn(fs), Sent(t, events))
  {
    hide *;
    EventsOneLine(events);
    FieldsOneLine(fs);
    OneLineAppend(AllLines(events), LinesOf(fs));
    LinesAreRead(t, encode, crlf, AllLines(events) + LinesOf(fs));
    EventsAreRead(t, encode, events);
    FieldsAreRead(t, encode, AllLines(events), fs);
  }

  /** A last event whose blank line is missing is dispatched at the end of the stream. */
  lemma UnfinishedIsRead(t: Text, encode: string -> seq<Byte>, crlf: bool, events: seq<seq<Field>>, fs: seq<Field>)
    requires Encodes(t, encode) && AllWritable(events) && FieldsWritable(fs)
    ensures var bytes := WrittenLines(encode, crlf, AllLines(events) + LinesOf(fs));
            StreamedDispatches(t, bytes) == Sent(t, events + [fs]) == BufferedDispatches(t, bytes)
  {
    hide *;
    var lines := AllLines(events) + LinesOf(fs);
    PartIsRead(t, encode, crlf, events, fs);
    SplitWritten(t, encode, crlf, lines, []);
    var bytes := WrittenLines(encode, crlf, lines);
    assert bytes + [] == bytes;
    DispatchesOf(t, bytes);
    FlushedIsSent(t, events, fs);
  }

  /** A last line that is not even ended is read by the buffering consumer, and not by the
      streaming one. */
  lemma CutOffIsRead(t: Text, encode: string -> seq<Byte>, crlf: bool, events: seq<seq<Field>>, fs: seq<Field>,
                     f: Field)
    requires Encodes(t, encode) && AllWritable(events) && FieldsWritable(fs + [f])
    ensures var bytes := WrittenLines(encode, crlf, AllLines(events) + LinesOf(fs)) + encode(LineOf(f));
            && BufferedDispatches(t, bytes) == Sent(t, events + [fs + [f]])
            && StreamedDispatches(t, bytes) == Sent(t, events + [fs])
  {
    WritableParts(fs, f);
    hide *;
    var lines, tail := AllLines(events) + LinesOf(fs), encode(LineOf(f));
    LastLine(t, encode, f);
    PartIsRead(t, encode, crlf, events, fs);
    PartIsRead(t, encode, crlf, events, fs + [f]);
    SplitWritten(t, encode, crlf, lines, tail);
    DispatchesOf(t, WrittenLines(encode, crlf, lines) + tail);
    LinesSnoc(t, Raws(encode, crlf, lines), tail);
    LinesOfSnoc(fs, f);
    Assoc(AllLines(events), LinesOf(fs), [LineOf(f)]);
    ReadSnoc(t, lines, LineOf(f));
    FlushedIsSent(t, events, fs);
    FlushedIsSent(t, events, fs + [f]);
  }

  lemma WritableParts(fs: seq<Field>, f: Field)
    requires FieldsWritable(fs + [f])
    ensures FieldsWritable(fs) && Writable(f)
  {
    hide Writable;
    assert forall x | x in fs :: x in fs + [f];
    assert (fs + [f])[|fs|] == f;
  }

  lemma LastLine(t: Text, encode: string -> seq<Byte>, f: Field)
    requires Encodes(t, encode) && Writable(f)
    ensures encode(LineOf(f)) != [] && 10 !in encode(LineOf(f)) && Decoded(t, encode(LineOf(f))) == LineOf(f)
  {
    RawDecodes(t, encode, false, LineOf(f));
    assert encode(LineOf(f)) + [] == encode(LineOf(f));
  }

  lemma LinesOfSnoc(fs: seq<Field>, f: Field)
    ensures LinesOf(fs + [f]) == LinesOf(fs) + [LineOf(f)]
  {
    assert (fs + [f])[..|fs|] == fs;
  }

  lemma OneLineAppend(a: seq<string>, b: seq<string>)
    requires AllOneLine(a) && AllOneLine(b)
    ensures AllOneLine(a + b)
  {
    hide OneLine;
  }
}
