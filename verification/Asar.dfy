/**
 Packing and unpacking ASAR archives (app/antigravity_patcher.py, `pack_asar` and
 `unpack_asar`), and exactly when unpacking returns the files that were packed.
 */
module Asar {
  import opened Prelude

  type Bytes = seq<Byte>
  type Files = map<string, Bytes>

  const BLOCK_SIZE: nat := 4 * 1024 * 1024

  datatype Integrity = Integrity(hash: string, blockSize: nat, blocks: seq<string>)

  /** A directory entry; `rest` is every other key of its JSON object. The offset is the
      text that `int` is applied to. */
  datatype Entry =
    | Dir(name: string, children: seq<Entry>, rest: string)
    | File(name: string, unpacked: bool, size: Option<int>, offset: Option<string>,
           integrity: Option<Integrity>, rest: string)

  datatype Header = Header(entries: seq<Entry>, rest: string)

  /** What the code calls out to: the compact JSON text of a header and its parser,
      `int` on text, `str` on a natural number, and SHA-256. */
  datatype Env = Env(encode: Header -> Bytes, decode: Bytes -> Option<Header>,
                     intOf: string -> Option<int>, strOf: nat -> string, sha: Bytes -> string)

  /** No directory of a JSON header holds a name twice. */
  predicate Distinct(es: seq<Entry>)
    decreases es
  {
    es != [] ==>
      && es[0].name !in Names(es[1..])
      && (es[0].Dir? ==> Distinct(es[0].children))
      && Distinct(es[1..])
  }

  function Names(es: seq<Entry>): set<string> {
    if es == [] then {} else {es[0].name} + Names(es[1..])
  }

  ghost predicate Lawful(env: Env) {
    && (forall h: Header :: Distinct(h.entries) ==> env.decode(env.encode(h)) == Some(h))
    && (forall n: nat :: env.intOf(env.strOf(n)) == Some(n as int))
  }

  // ---- Packing -------------------------------------------------------------

  function Blocks(env: Env, data: Bytes): seq<string>
    decreases |data|
  {
    if data == [] then []
    else if |data| <= BLOCK_SIZE then [env.sha(data)]
    else [env.sha(data[..BLOCK_SIZE])] + Blocks(env, data[BLOCK_SIZE..])
  }

  function Rewritten(env: Env, e: Entry, data: Bytes, offset: nat): Entry
    requires e.File?
  {
    e.(size := Some(|data|), offset := Some(env.strOf(offset)),
       integrity := Some(Integrity(env.sha(data), BLOCK_SIZE, Blocks(env, data))))
  }

  function PackEntry(env: Env, files: Files, prefix: string, e: Entry, offset: nat): (Entry, Bytes)
    decreases e, 1
  {
    match e
    case Dir(name, children, _) =>
      var (packed, payload) := PackEntries(env, files, prefix + name + "/", children, offset);
      (e.(children := packed), payload)
    case File(name, unpacked, _, _, _, _) =>
      if prefix + name in files && !unpacked then
        (Rewritten(env, e, files[prefix + name], offset), files[prefix + name])
      else (e, [])
  }

  function PackEntries(env: Env, files: Files, prefix: string, es: seq<Entry>, offset: nat): (r: (seq<Entry>, Bytes))
    ensures |r.0| == |es|
    decreases es, 0
  {
    if es == [] then ([], [])
    else
      var (e, first) := PackEntry(env, files, prefix, es[0], offset);
      var (rest, later) := PackEntries(env, files, prefix, es[1..], offset + |first|);
      ([e] + rest, first + later)
  }

  const FIELD: nat := 0x1_0000_0000

  /** Little-endian 32-bit field, as `struct.pack("<I", n)` writes it. */
  function Field(n: nat): (bs: Bytes)
    requires n < FIELD
    ensures |bs| == 4
  {
    [n % 256, n / 256 % 256, n / 256 / 256 % 256, n / 256 / 256 / 256]
  }

  function ReadField(bs: Bytes, pos: nat): nat
    requires pos + 4 <= |bs|
  {
    bs[pos] as int + 256 * (bs[pos + 1] as int + 256 * (bs[pos + 2] as int + 256 * bs[pos + 3] as int))
  }

  function Padding(n: nat): nat {
    (4 - n % 4) % 4
  }

  function Zeros(n: nat): (z: Bytes)
    ensures |z| == n
  {
    if n == 0 then [] else [0] + Zeros(n - 1)
  }

  function HeaderSize(encoded: Bytes): nat {
    8 + |encoded| + Padding(|encoded|)
  }

  /** The archive, or an error when a size field overflows 32 bits. */
  function Pack(env: Env, header: Header, files: Files): Result<Bytes> {
    var (entries, payload) := PackEntries(env, files, "", header.entries, 0);
    var encoded := env.encode(Header(entries, header.rest));
    var size := HeaderSize(encoded);
    if size >= FIELD then Err("struct.error")
    else Ok(Front(size, encoded) + payload)
  }

  function Front(size: nat, encoded: Bytes): Bytes
    requires HeaderSize(encoded) == size < FIELD
  {
    Field(4) + Field(size) + Field(size - 4) + Field(|encoded|) + encoded + Zeros(Padding(|encoded|))
  }

  /** The recursive visitor of `pack_asar`, with the variables it shares. */
  class Packer {
    var chunks: Bytes
    var offset: nat

    constructor ()
      ensures chunks == [] && offset == 0
    {
      chunks, offset := [], 0;
    }

    method Visit(env: Env, files: Files, prefix: string, entries: seq<Entry>) returns (packed: seq<Entry>)
      modifies this
      ensures var (es, payload) := PackEntries(env, files, prefix, entries, old(offset));
              packed == es && chunks == old(chunks) + payload && offset == old(offset) + |payload|
      decreases entries
    {
      packed := [];
      ghost var start, before, done := offset, chunks, [];
      assert entries[0..] == entries;
      ghost var all := PackEntries(env, files, prefix, entries, start);
      assert [] + all.0 == all.0 && [] + all.1 == all.1 && before + [] == before;
      for i := 0 to |entries|
        invariant chunks == before + done && offset == start + |done|
        invariant var (es, payload) := PackEntries(env, files, prefix, entries[i..], offset);
                  PackEntries(env, files, prefix, entries, start) == (packed + es, done + payload)
      {
        assert entries[i..][1..] == entries[i + 1..];
        var e := entries[i];
        ghost var first := PackEntry(env, files, prefix, e, offset).1;
        ghost var was := packed;
        match e {
          case Dir(name, children, _) =>
            var inner := Visit(env, files, prefix + name + "/", children);
            packed := packed + [e.(children := inner)];
          case File(name, unpacked, _, _, _, _) =>
            var key := prefix + name;
            if key in files && !unpacked {
              var data := files[key];
              packed := packed + [Rewritten(env, e, data, offset)];
              chunks := chunks + data;
              offset := offset + |data|;
            } else {
              packed := packed + [e];
            }
        }
        PackAdvances(env, files, prefix, entries, start, i, was, done);
        Assoc(before, done, first);
        done := done + first;
      }
      assert entries[|entries|..] == [];
    }
  }

  lemma PackAdvances(env: Env, files: Files, prefix: string, entries: seq<Entry>, start: nat, i: nat,
                     packed: seq<Entry>, done: Bytes)
    requires i < |entries|
    requires var (es, payload) := PackEntries(env, files, prefix, entries[i..], start + |done|);
             PackEntries(env, files, prefix, entries, start) == (packed + es, done + payload)
    ensures var (e, first) := PackEntry(env, files, prefix, entries[i], start + |done|);
            var (es, payload) := PackEntries(env, files, prefix, entries[i + 1..], start + |done + first|);
            PackEntries(env, files, prefix, entries, start) == (packed + [e] + es, done + first + payload)
  {
    hide PackEntry;
    assert entries[i..][1..] == entries[i + 1..];
    var (e, first) := PackEntry(env, files, prefix, entries[i], start + |done|);
    var (es, payload) := PackEntries(env, files, prefix, entries[i + 1..], start + |done + first|);
    Assoc(packed, [e], es);
    Assoc(done, first, payload);
  }

  method PackAsar(env: Env, header: Header, files: Files) returns (r: Result<Bytes>)
    ensures r == Pack(env, header, files)
  {
    hide PackEntries;
    var packer := new Packer();
    var entries := packer.Visit(env, files, "", header.entries);
    var encoded := env.encode(Header(entries, header.rest));
    var padding := Padding(|encoded|);
    var headerSize := 8 + |encoded| + padding;
    assert packer.chunks == PackEntries(env, files, "", header.entries, 0).1;
    if headerSize >= FIELD { return Err("struct.error"); }
    r := Ok(Field(4) + Field(headerSize) + Field(headerSize - 4) + Field(|encoded|)
            + encoded + Zeros(padding) + packer.chunks);
  }

  // ---- Unpacking -----------------------------------------------------------

  /** Python's `data[start:end]` for a non-negative start. */
  function Slice(data: Bytes, start: nat, end: int): Bytes {
    var stop := if end < 0 then end + |data| else end;
    if start <= stop <= |data| then data[start..stop]
    else if start <= |data| < stop then data[start..]
    else []
  }

  function UnpackFile(env: Env, data: Bytes, origin: nat, key: string, e: Entry, files: Files): Result<Files>
    requires e.File?
  {
    if e.unpacked || e.offset.None? then Ok(files)
    else
      var offset := env.intOf(e.offset.value);
      if offset.None? then Err("ValueError")
      else if e.size.None? then Err("KeyError")
      else
        var start := origin + offset.value;
        var end := start + e.size.value;
        if start < origin || end > |data| then Err("ASAR entry outside archive: " + key)
        else Ok(files[key := Slice(data, start, end)])
  }

  function UnpackEntries(env: Env, data: Bytes, origin: nat, prefix: string, es: seq<Entry>, files: Files)
    : Result<Files>
    decreases es
  {
    if es == [] then Ok(files)
    else
      var e := es[0];
      var r := match e
        case Dir(name, children, _) => UnpackEntries(env, data, origin, prefix + name + "/", children, files)
        case File(name, _, _, _, _, _) => UnpackFile(env, data, origin, prefix + name, e, files);
      match r
      case Err(_) => r
      case Ok(files1) => UnpackEntries(env, data, origin, prefix, es[1..], files1)
  }

  function Unpack(env: Env, data: Bytes): Result<(Header, Files)> {
    if |data| < 16 then Err("Truncated ASAR header")
    else
      var headerSize, jsonSize := ReadField(data, 4), ReadField(data, 12);
      if ReadField(data, 0) != 4 || jsonSize > headerSize - 8 || 8 + headerSize > |data| then
        Err("Invalid ASAR pickle header")
      else
        match env.decode(data[16..16 + jsonSize])
        case None => Err("JSONDecodeError")
        case Some(header) =>
          match UnpackEntries(env, data, 8 + headerSize, "", header.entries, map[])
          case Err(why) => Err(why)
          case Ok(files) => Ok((header, files))
  }

  /** The recursive visitor of `unpack_asar`; false when it raises. */
  class Unpacker {
    var files: Files

    constructor ()
      ensures files == map[]
    {
      files := map[];
    }

    method Visit(env: Env, data: Bytes, origin: nat, prefix: string, entries: seq<Entry>)
      returns (failure: Option<string>)
      modifies this
      ensures UnpackEntries(env, data, origin, prefix, entries, old(files))
           == if failure.Some? then Err(failure.value) else Ok(files)
      decreases entries
    {
      assert entries[0..] == entries;
      for i := 0 to |entries|
        invariant UnpackEntries(env, data, origin, prefix, entries, old(files))
               == UnpackEntries(env, data, origin, prefix, entries[i..], files)
      {
        assert entries[i..][1..] == entries[i + 1..];
        var e := entries[i];
        match e {
          case Dir(name, children, _) =>
            var failed := Visit(env, data, origin, prefix + name + "/", children);
            if failed.Some? { return failed; }
          case File(name, unpacked, _, _, _, _) =>
            var key := prefix + name;
            if !unpacked && e.offset.Some? {
              var offset := env.intOf(e.offset.value);
              if offset.None? { return Some("ValueError"); }
              if e.size.None? { return Some("KeyError"); }
              var start := origin + offset.value;
              var end := start + e.size.value;
              if start < origin || end > |data| { return Some("ASAR entry outside archive: " + key); }
              files := files[key := Slice(data, start, end)];
            }
        }
      }
      assert entries[|entries|..] == [];
      failure := None;
    }
  }

  method UnpackAsar(env: Env, data: Bytes) returns (r: Result<(Header, Files)>)
    ensures r == Unpack(env, data)
  {
    hide UnpackEntries;
    if |data| < 16 { return Err("Truncated ASAR header"); }
    var headerSize, jsonSize := ReadField(data, 4), ReadField(data, 12);
    if ReadField(data, 0) != 4 || jsonSize > headerSize - 8 || 8 + headerSize > |data| {
      return Err("Invalid ASAR pickle header");
    }
    var header := env.decode(data[16..16 + jsonSize]);
    if header.None? { return Err("JSONDecodeError"); }
    var unpacker := new Unpacker();
    var failure := unpacker.Visit(env, data, 8 + headerSize, "", header.value.entries);
    if failure.Some? { return Err(failure.value); }
    r := Ok((header.value, unpacker.files));
  }

  // ---- The round trip ------------------------------------------------------

  /** Keys of the entries that packing rewrites. */
  function PackedKeys(files: Files, prefix: string, es: seq<Entry>): set<string>
    decreases es
  {
    if es == [] then {}
    else
      (match es[0]
       case Dir(name, children, _) => PackedKeys(files, prefix + name + "/", children)
       case File(name, unpacked, _, _, _, _) => if prefix + name in files && !unpacked then {prefix + name} else {})
      + PackedKeys(files, prefix, es[1..])
  }

  /** Keys of the entries that unpacking will read although packing leaves them as they are. */
  function StaleKeys(files: Files, prefix: string, es: seq<Entry>): set<string>
    decreases es
  {
    if es == [] then {}
    else
      (match es[0]
       case Dir(name, children, _) => StaleKeys(files, prefix + name + "/", children)
       case File(name, unpacked, _, offset, _, _) =>
         if prefix + name !in files && !unpacked && offset.Some? then {prefix + name} else {})
      + StaleKeys(files, prefix, es[1..])
  }

  /** Files gained by reading back entries with packed keys `p` and stale keys `s`. */
  ghost predicate Gained(files: Files, before: Files, r: Result<Files>, p: set<string>, s: set<string>) {
    && (s == {} ==> r.Ok?)
    && (r.Ok? ==>
          && r.value.Keys == before.Keys + p + s
          && (forall k | k in p :: k in files && r.value[k] == files[k])
          && (forall k | k in before && k !in p && k !in s :: r.value[k] == before[k]))
  }

  lemma GainedThen(files: Files, a: Files, r: Result<Files>, p: set<string>, s: set<string>,
                   q: Result<Files>, p': set<string>, s': set<string>)
    requires r.Ok? && Gained(files, a, r, p, s) && Gained(files, r.value, q, p', s')
    requires s' !! files.Keys
    ensures Gained(files, a, q, p + p', s + s')
  {}

  lemma StaleNotInFiles(files: Files, prefix: string, es: seq<Entry>)
    ensures StaleKeys(files, prefix, es) !! files.Keys
    decreases es
  {
    if es != [] {
      if es[0].Dir? { StaleNotInFiles(files, prefix + es[0].name + "/", es[0].children); }
      StaleNotInFiles(files, prefix, es[1..]);
    }
  }

  /** The payload of these entries stands in the archive where their offsets say. */
  ghost predicate Placed(data: Bytes, origin: nat, offset: nat, payload: Bytes) {
    origin + offset + |payload| <= |data| && data[origin + offset..origin + offset + |payload|] == payload
  }

  lemma PlacedParts(data: Bytes, origin: nat, offset: nat, a: Bytes, b: Bytes)
    requires Placed(data, origin, offset, a + b)
    ensures Placed(data, origin, offset, a) && Placed(data, origin, offset + |a|, b)
  {
    var all := data[origin + offset..origin + offset + |a| + |b|];
    assert all[..|a|] == a && all[|a|..] == b;
  }

  lemma {:induction false} EntriesRoundTrip(env: Env, files: Files, prefix: string, es: seq<Entry>, offset: nat,
                                            data: Bytes, origin: nat, before: Files)
    requires Lawful(env)
    requires Placed(data, origin, offset, PackEntries(env, files, prefix, es, offset).1)
    ensures Gained(files, before,
                   UnpackEntries(env, data, origin, prefix, PackEntries(env, files, prefix, es, offset).0, before),
                   PackedKeys(files, prefix, es), StaleKeys(files, prefix, es))
    decreases es
  {
    if es != [] {
      hide Gained, Placed, UnpackFile, Lawful, Rewritten;
      var e := es[0];
      var (e', first) := PackEntry(env, files, prefix, e, offset);
      var (rest, later) := PackEntries(env, files, prefix, es[1..], offset + |first|);
      var packed := PackEntries(env, files, prefix, es, offset).0;
      assert packed == [e'] + rest && packed[0] == e' && packed[1..] == rest;
      PlacedParts(data, origin, offset, first, later);
      var r: Result<Files>, p: set<string>, s: set<string>;
      match e {
        case Dir(name, children, _) =>
          EntriesRoundTrip(env, files, prefix + name + "/", children, offset, data, origin, before);
          r := UnpackEntries(env, data, origin, prefix + name + "/", e'.children, before);
          p, s := PackedKeys(files, prefix + name + "/", children), StaleKeys(files, prefix + name + "/", children);
        case File(name, unpacked, _, off, _, _) =>
          FileRoundTrip(env, files, prefix, e, offset, data, origin, before);
          r := UnpackFile(env, data, origin, prefix + name, e', before);
          p := if prefix + name in files && !unpacked then {prefix + name} else {};
          s := if prefix + name !in files && !unpacked && off.Some? then {prefix + name} else {};
      }
      assert Gained(files, before, r, p, s);
      if r.Ok? {
        EntriesRoundTrip(env, files, prefix, es[1..], offset + |first|, data, origin, r.value);
        StaleNotInFiles(files, prefix, es[1..]);
        GainedThen(files, before, r, p, s, UnpackEntries(env, data, origin, prefix, rest, r.value),
                   PackedKeys(files, prefix, es[1..]), StaleKeys(files, prefix, es[1..]));
      } else {
        StaleStays(files, before, r, p, s, PackedKeys(files, prefix, es[1..]), StaleKeys(files, prefix, es[1..]));
      }
    }
  }

  lemma StaleStays(files: Files, before: Files, r: Result<Files>, p: set<string>, s: set<string>,
                   p': set<string>, s': set<string>)
    requires r.Err? && Gained(files, before, r, p, s)
    ensures Gained(files, before, r, p + p', s + s')
  {}

  lemma FileRoundTrip(env: Env, files: Files, prefix: string, e: Entry, offset: nat,
                      data: Bytes, origin: nat, before: Files)
    requires Lawful(env) && e.File?
    requires Placed(data, origin, offset, PackEntry(env, files, prefix, e, offset).1)
    ensures var key := prefix + e.name;
            Gained(files, before,
                   UnpackFile(env, data, origin, key, PackEntry(env, files, prefix, e, offset).0, before),
                   if key in files && !e.unpacked then {key} else {},
                   if key !in files && !e.unpacked && e.offset.Some? then {key} else {})
  {
    hide Blocks;
    var key := prefix + e.name;
    if key in files && !e.unpacked {
      var start := origin + offset;
      assert Slice(data, start, start + |files[key]|) == files[key];
    }
  }

  lemma FieldRoundTrip(n: nat, pre: Bytes, post: Bytes)
    requires n < FIELD
    ensures ReadField(pre + Field(n) + post, |pre|) == n
  {
    var b, p := pre + Field(n) + post, |pre|;
    assert b[p] == Field(n)[0] && b[p + 1] == Field(n)[1] && b[p + 2] == Field(n)[2] && b[p + 3] == Field(n)[3];
  }

  lemma {:induction false} ZerosAreZero(n: nat)
    ensures forall i | 0 <= i < n :: Zeros(n)[i] == 0
  {
    if n > 0 { ZerosAreZero(n - 1); }
  }

  /** The value of four little-endian bytes. */
  lemma FieldMeans(bs: Bytes, pos: nat)
    requires pos + 4 <= |bs|
    ensures ReadField(bs, pos)
         == (bs[pos] as int) + (bs[pos + 1] as int) * 0x100 + (bs[pos + 2] as int) * 0x1_0000
            + (bs[pos + 3] as int) * 0x100_0000
  {}

  /** The fields and the header text of a packed archive read back, and the payload follows. */
  lemma FrontRoundTrip(size: nat, encoded: Bytes, payload: Bytes)
    requires HeaderSize(encoded) == size < FIELD
    ensures var data := Front(size, encoded) + payload;
            && |data| == 8 + size + |payload|
            && ReadField(data, 0) == 4 && ReadField(data, 4) == size && ReadField(data, 8) == size - 4
            && ReadField(data, 12) == |encoded|
            && data[16..16 + |encoded|] == encoded
            && Placed(data, 8 + size, 0, payload)
  {
    hide ReadField, Field, Zeros;
    var a, b, c, d := Field(4), Field(size), Field(size - 4), Field(|encoded|);
    var pad := Zeros(Padding(|encoded|));
    var data := Front(size, encoded) + payload;
    assert data == [] + a + (b + c + d + encoded + pad + payload);
    FieldRoundTrip(4, [], b + c + d + encoded + pad + payload);
    assert data == a + b + (c + d + encoded + pad + payload);
    FieldRoundTrip(size, a, c + d + encoded + pad + payload);
    assert data == (a + b) + c + (d + encoded + pad + payload);
    FieldRoundTrip(size - 4, a + b, d + encoded + pad + payload);
    assert data == (a + b + c) + d + (encoded + pad + payload);
    FieldRoundTrip(|encoded|, a + b + c, encoded + pad + payload);
    assert data == (a + b + c + d) + encoded + (pad + payload);
    Middle(a + b + c + d, encoded, pad + payload);
    assert data[|Front(size, encoded)|..] == payload;
  }

  /** The payload starts at a multiple of four, behind the least padding, which is zeros. */
  lemma PaddingIsLeast(size: nat, encoded: Bytes, payload: Bytes)
    requires HeaderSize(encoded) == size < FIELD
    ensures var data := Front(size, encoded) + payload;
            && 16 + |encoded| <= 8 + size <= |data| && 8 + size - (16 + |encoded|) < 4
            && (8 + size) % 4 == 0
            && forall i | 16 + |encoded| <= i < 8 + size :: data[i] == 0
  {
    hide Field;
    var pad := Zeros(Padding(|encoded|));
    ZerosAreZero(Padding(|encoded|));
    var data := Front(size, encoded) + payload;
    assert forall i | 0 <= i < |pad| :: data[16 + |encoded| + i] == pad[i];
    assert forall i | 16 + |encoded| <= i < 8 + size :: data[i] == pad[i - 16 - |encoded|];
  }

  lemma {:induction false} PackingKeepsNames(env: Env, files: Files, prefix: string, es: seq<Entry>, offset: nat)
    ensures var packed := PackEntries(env, files, prefix, es, offset).0;
            Names(packed) == Names(es) && (Distinct(es) ==> Distinct(packed))
    decreases es
  {
    if es != [] {
      var (e', first) := PackEntry(env, files, prefix, es[0], offset);
      var rest := PackEntries(env, files, prefix, es[1..], offset + |first|).0;
      var packed := PackEntries(env, files, prefix, es, offset).0;
      assert packed == [e'] + rest && packed[0] == e' && packed[1..] == rest;
      if es[0].Dir? { PackingKeepsNames(env, files, prefix + es[0].name + "/", es[0].children, offset); }
      PackingKeepsNames(env, files, prefix, es[1..], offset + |first|);
    }
  }

  predicate Fits(env: Env, header: Header, files: Files) {
    var n := |env.encode(Header(PackEntries(env, files, "", header.entries, 0).0, header.rest))|;
    8 + n + (4 - n % 4) % 4 < 0x1_0000_0000
  }

  /** A packed archive is unpacked entry by entry, from the start of its payload. */
  lemma UnpackPacked(env: Env, header: Header, files: Files)
    requires Lawful(env) && Distinct(header.entries) && Fits(env, header, files)
    ensures var (entries, payload) := PackEntries(env, files, "", header.entries, 0);
            var encoded := env.encode(Header(entries, header.rest));
            var data := Front(HeaderSize(encoded), encoded) + payload;
            var r := UnpackEntries(env, data, 8 + HeaderSize(encoded), "", entries, map[]);
            && Pack(env, header, files) == Ok(data)
            && Placed(data, 8 + HeaderSize(encoded), 0, payload)
            && Unpack(env, data) == if r.Ok? then Ok((Header(entries, header.rest), r.value)) else Err(r.reason)
  {
    hide PackEntries, UnpackEntries, Front, ReadField, Placed, Distinct;
    PackingKeepsNames(env, files, "", header.entries, 0);
    var (entries, payload) := PackEntries(env, files, "", header.entries, 0);
    var encoded := env.encode(Header(entries, header.rest));
    FrontRoundTrip(HeaderSize(encoded), encoded, payload);
  }

  /** The files read back are the files packed exactly when every one of them was packed and
      nothing stale was read. */
  lemma GainedAll(files: Files, r: Result<Files>, p: set<string>, s: set<string>)
    requires Gained(files, map[], r, p, s) && s !! files.Keys
    ensures r == Ok(files) <==> p == files.Keys && s == {}
  {
    if r.Ok? {
      assert r.value.Keys == p + s;
      if p == files.Keys && s == {} { assert r.value == files; }
      if r.value == files { assert forall k | k in s :: k in files.Keys; }
    }
  }

  /** Packing fails exactly when the header does not fit. */
  lemma PackFailsExactly(env: Env, header: Header, files: Files)
    ensures Pack(env, header, files) == Err("struct.error") <==> !Fits(env, header, files)
    ensures Pack(env, header, files).Err? ==> !Fits(env, header, files)
  {
    hide PackEntries, Front;
  }

  /** Unpacking a packed archive returns exactly the packed files, with the rewritten
      header, exactly when the header fits, the packed entries are the keys of `files`
      and no other entry still carries an offset. */
  lemma RoundTripExactly(env: Env, header: Header, files: Files)
    requires Lawful(env) && Distinct(header.entries)
    ensures var packed := Pack(env, header, files);
            (packed.Ok? && Unpack(env, packed.value)
               == Ok((Header(PackEntries(env, files, "", header.entries, 0).0, header.rest), files)))
            <==> Fits(env, header, files)
                 && PackedKeys(files, "", header.entries) == files.Keys
                 && StaleKeys(files, "", header.entries) == {}
  {
    hide PackEntries, UnpackEntries, Front, PackedKeys, StaleKeys, Placed, Distinct, Unpack, Gained, Lawful;
    if Fits(env, header, files) {
      UnpackPacked(env, header, files);
      hide Pack;
      var (entries, payload) := PackEntries(env, files, "", header.entries, 0);
      var encoded := env.encode(Header(entries, header.rest));
      var data := Front(HeaderSize(encoded), encoded) + payload;
      EntriesRoundTrip(env, files, "", header.entries, 0, data, 8 + HeaderSize(encoded), map[]);
      StaleNotInFiles(files, "", header.entries);
      GainedAll(files, UnpackEntries(env, data, 8 + HeaderSize(encoded), "", entries, map[]),
                PackedKeys(files, "", header.entries), StaleKeys(files, "", header.entries));
    }
  }

  lemma NothingPacked(env: Env, files: Files, prefix: string, offset: nat)
    ensures PackEntries(env, files, prefix, [], offset) == ([], [])
  {}

  lemma PackCons(env: Env, files: Files, prefix: string, es: seq<Entry>, offset: nat)
    requires es != []
    ensures var (e, first) := PackEntry(env, files, prefix, es[0], offset);
            var (rest, later) := PackEntries(env, files, prefix, es[1..], offset + |first|);
            PackEntries(env, files, prefix, es, offset) == ([e] + rest, first + later)
  {
    hide PackEntry;
  }

  lemma PackDir(env: Env, files: Files, prefix: string, e: Entry, offset: nat)
    requires e.Dir?
    ensures var (children, payload) := PackEntries(env, files, prefix + e.name + "/", e.children, offset);
            PackEntry(env, files, prefix, e, offset) == (e.(children := children), payload)
  {
    hide PackEntries;
  }

  // ---- What packing writes into an entry -----------------------------------

  /** Where the `i`-th 4 MiB block of `n` bytes ends. */
  function BlockEnd(i: nat, n: nat): nat {
    if (i + 1) * 4_194_304 <= n then (i + 1) * 4_194_304 else n
  }

  /** The hash of every 4 MiB block, the last one being what is left. */
  ghost predicate BlocksOf(env: Env, data: Bytes, blocks: seq<string>) {
    && |blocks| == (|data| + 4_194_303) / 4_194_304
    && forall i | 0 <= i < |blocks| ::
         blocks[i] == env.sha(data[i * 4_194_304..BlockEnd(i, |data|)])
  }

  lemma {:induction false} BlocksMean(env: Env, data: Bytes)
    ensures BlocksOf(env, data, Blocks(env, data))
    decreases |data|
  {
    if |data| > BLOCK_SIZE {
      var rest := data[BLOCK_SIZE..];
      BlocksMean(env, rest);
      var blocks, more := Blocks(env, data), Blocks(env, rest);
      assert blocks == [env.sha(data[..BLOCK_SIZE])] + more;
      forall i | 0 < i < |blocks|
        ensures blocks[i] == env.sha(data[i * 4_194_304..BlockEnd(i, |data|)])
      {
        var to := if i * 4_194_304 <= |rest| then i * 4_194_304 else |rest|;
        assert more[i - 1] == env.sha(rest[(i - 1) * 4_194_304..to]);
        DropSlice(data, BLOCK_SIZE, (i - 1) * 4_194_304, to);
      }
    } else if data != [] {
      assert data[0..|data|] == data;
    }
  }

  /** Size, offset and integrity data of an entry whose file is packed; everything else stays. */
  ghost predicate EntryPacked(env: Env, files: Files, prefix: string, e: Entry, packed: Entry) {
    if e.Dir? then packed.Dir? && packed == e.(children := packed.children)
    else if prefix + e.name in files && !e.unpacked then
      var data := files[prefix + e.name];
      && packed.File? && packed == e.(size := Some(|data|), offset := packed.offset, integrity := packed.integrity)
      && packed.integrity.Some? && packed.integrity.value.hash == env.sha(data)
      && packed.integrity.value.blockSize == 4_194_304
      && BlocksOf(env, data, packed.integrity.value.blocks)
    else packed == e
  }

  ghost predicate TreePacked(env: Env, files: Files, prefix: string, es: seq<Entry>, packed: seq<Entry>)
    decreases es
  {
    && |packed| == |es|
    && (es != [] ==>
          && EntryPacked(env, files, prefix, es[0], packed[0])
          && (es[0].Dir? ==> packed[0].Dir?
                             && TreePacked(env, files, prefix + es[0].name + "/", es[0].children, packed[0].children))
          && TreePacked(env, files, prefix, es[1..], packed[1..]))
  }

  lemma EntryIsPacked(env: Env, files: Files, prefix: string, e: Entry, offset: nat)
    ensures EntryPacked(env, files, prefix, e, PackEntry(env, files, prefix, e, offset).0)
  {
    hide Blocks, PackEntries, BlocksOf;
    if e.File? && prefix + e.name in files { BlocksMean(env, files[prefix + e.name]); }
  }

  /** Packing rewrites size and integrity data of exactly the entries it packs, anywhere in the
      tree, and keeps all names, flags and other keys. */
  lemma {:induction false} TreeIsPacked(env: Env, files: Files, prefix: string, es: seq<Entry>, offset: nat)
    ensures TreePacked(env, files, prefix, es, PackEntries(env, files, prefix, es, offset).0)
    decreases es
  {
    hide EntryPacked, PackEntry, PackEntries;
    if es != [] {
      var e := es[0];
      var (e', first) := PackEntry(env, files, prefix, e, offset);
      PackCons(env, files, prefix, es, offset);
      EntryIsPacked(env, files, prefix, e, offset);
      TreeIsPacked(env, files, prefix, es[1..], offset + |first|);
      if e.Dir? {
        PackDir(env, files, prefix, e, offset);
        TreeIsPacked(env, files, prefix + e.name + "/", e.children, offset);
      }
    } else {
      NothingPacked(env, files, prefix, offset);
    }
  }

  // ---- Archives from elsewhere ---------------------------------------------

  /** Any archive: it is truncated, or its front is invalid, exactly as its first sixteen bytes
      say; with a good front and a header that parses, its entries are read. */
  lemma FrontRejectedExactly(env: Env, data: Bytes)
    ensures var r := Unpack(env, data);
            if |data| < 16 then r == Err("Truncated ASAR header")
            else
              var pickle, size, text := ReadField(data, 0), ReadField(data, 4), ReadField(data, 12);
              if pickle != 4 || text + 8 > size || size + 8 > |data| then r == Err("Invalid ASAR pickle header")
              else
                var header := env.decode(data[16..16 + text]);
                if header.None? then r == Err("JSONDecodeError")
                else
                  var files := UnpackEntries(env, data, 8 + size, "", header.value.entries, map[]);
                  r == if files.Ok? then Ok((header.value, files.value)) else Err(files.reason)
  {
    hide ReadField, UnpackEntries;
  }

  /** A file entry of any archive: skipped, or read from its place, or an error exactly when its
      offset is no number, its size is missing, or it reaches outside the archive. A negative
      size reads as a Python slice does. */
  lemma FileReadExactly(env: Env, data: Bytes, origin: nat, key: string, e: Entry, files: Files)
    requires e.File? && origin <= |data|
    ensures var r := UnpackFile(env, data, origin, key, e, files);
            if e.unpacked || e.offset.None? then r == Ok(files)
            else
              var offset := env.intOf(e.offset.value);
              && (offset.None? ==> r == Err("ValueError"))
              && (offset.Some? && e.size.None? ==> r == Err("KeyError"))
              && (offset.Some? && e.size.Some? ==>
                    (r.Err? <==> offset.value < 0 || origin + offset.value + e.size.value > |data|)
                    && (r.Err? ==> r.reason == "ASAR entry outside archive: " + key))
              && (r.Ok? ==>
                    var start := origin + offset.value;
                    var end := start + e.size.value;
                    && (e.size.value >= 0 ==> r.value == files[key := data[start..end]])
                    && (e.size.value < 0 ==>
                          r.value == files[key := if end < 0 && start <= |data| + end then data[start..|data| + end]
                                                  else []]))
  {}

  // ---- The offsets ---------------------------------------------------------

  /** Offset and size of each rewritten entry, in the order they were packed. */
  function Extents(env: Env, files: Files, prefix: string, es: seq<Entry>): seq<(Option<int>, Option<int>)>
    decreases es
  {
    if es == [] then []
    else
      (match es[0]
       case Dir(name, children, _) => Extents(env, files, prefix + name + "/", children)
       case File(name, _, _, _, _, _) => Extent(env, files, prefix, es[0]))
      + Extents(env, files, prefix, es[1..])
  }

  function Extent(env: Env, files: Files, prefix: string, e: Entry): seq<(Option<int>, Option<int>)>
    requires e.File?
  {
    if prefix + e.name in files && !e.unpacked && e.offset.Some? then [(env.intOf(e.offset.value), e.size)] else []
  }

  /** Each extent starts where the one before it ended. */
  predicate Tiles(xs: seq<(Option<int>, Option<int>)>, from: int, to: int) {
    if xs == [] then from == to
    else xs[0].0 == Some(from) && xs[0].1.Some? && xs[0].1.value >= 0 && Tiles(xs[1..], from + xs[0].1.value, to)
  }

  lemma {:induction false} TilesAppend(xs: seq<(Option<int>, Option<int>)>, ys: seq<(Option<int>, Option<int>)>,
                                       from: int, mid: int, to: int)
    requires Tiles(xs, from, mid) && Tiles(ys, mid, to)
    ensures Tiles(xs + ys, from, to)
    decreases |xs|
  {
    if xs == [] {
      assert xs + ys == ys;
    } else {
      assert (xs + ys)[1..] == xs[1..] + ys && (xs + ys)[0] == xs[0];
      TilesAppend(xs[1..], ys, from + xs[0].1.value, mid, to);
    }
  }

  lemma FileTiles(env: Env, files: Files, prefix: string, e: Entry, offset: nat)
    requires Lawful(env) && e.File?
    ensures var (e', data) := PackEntry(env, files, prefix, e, offset);
            e'.File? && Tiles(Extent(env, files, prefix, e'), offset, offset + |data|)
  {
    hide Blocks;
    var (e', data) := PackEntry(env, files, prefix, e, offset);
    var here := Extent(env, files, prefix, e');
    if here != [] { assert here[1..] == []; }
  }

  function ExtentsHere(env: Env, files: Files, prefix: string, e: Entry): seq<(Option<int>, Option<int>)> {
    if e.Dir? then Extents(env, files, prefix + e.name + "/", e.children) else Extent(env, files, prefix, e)
  }

  lemma ExtentsCons(env: Env, files: Files, prefix: string, e: Entry, rest: seq<Entry>)
    ensures Extents(env, files, prefix, [e] + rest)
         == ExtentsHere(env, files, prefix, e) + Extents(env, files, prefix, rest)
  {
    hide Extent;
    var all := [e] + rest;
    assert all[0] == e && all[1..] == rest;
  }

  lemma NothingTiles(env: Env, files: Files, prefix: string, offset: nat)
    ensures PackEntries(env, files, prefix, [], offset) == ([], [])
    ensures Tiles(Extents(env, files, prefix, []), offset, offset)
  {}

  /** The rewritten offsets cover the payload from end to end, with no gap or overlap. */
  lemma {:induction false} OffsetsTile(env: Env, files: Files, prefix: string, es: seq<Entry>, offset: nat)
    requires Lawful(env)
    ensures var (packed, payload) := PackEntries(env, files, prefix, es, offset);
            Tiles(Extents(env, files, prefix, packed), offset, offset + |payload|)
    decreases es, 1
  {
    hide *;
    if es == [] {
      NothingTiles(env, files, prefix, offset);
    } else {
      var e := es[0];
      var (e', first) := PackEntry(env, files, prefix, e, offset);
      var (rest, later) := PackEntries(env, files, prefix, es[1..], offset + |first|);
      PackCons(env, files, prefix, es, offset);
      ExtentsCons(env, files, prefix, e', rest);
      OffsetsTile(env, files, prefix, es[1..], offset + |first|);
      EntryTiles(env, files, prefix, e, offset);
      TilesAppend(ExtentsHere(env, files, prefix, e'), Extents(env, files, prefix, rest),
                  offset, offset + |first|, offset + |first| + |later|);
    }
  }

  lemma {:induction false} EntryTiles(env: Env, files: Files, prefix: string, e: Entry, offset: nat)
    requires Lawful(env)
    ensures var (e', data) := PackEntry(env, files, prefix, e, offset);
            Tiles(ExtentsHere(env, files, prefix, e'), offset, offset + |data|)
    decreases e, 2
  {
    hide Tiles, Extent, Extents, Lawful, PackEntry, PackEntries;
    if e.Dir? {
      PackDir(env, files, prefix, e, offset);
      OffsetsTile(env, files, prefix + e.name + "/", e.children, offset);
    } else {
      FileTiles(env, files, prefix, e, offset);
    }
  }
}
