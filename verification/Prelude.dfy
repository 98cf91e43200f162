/** Shared vocabulary: options, bytes, and the concatenation of a stream's chunks. */
module Prelude {

  datatype Option<+T> = None | Some(value: T)

  datatype Result<+T> = Ok(value: T) | Err(reason: string)

  type Byte = b: int | 0 <= b < 256

  /** The bytes (or items) a sequence of chunks carries, in order. */
  function Flatten<T>(chunks: seq<seq<T>>): seq<T> {
    if chunks == [] then [] else chunks[0] + Flatten(chunks[1..])
  }

  /** Big-endian value of a run of bytes. */
  function BigEndian(bs: seq<Byte>): nat {
    if bs == [] then 0 else BigEndian(bs[..|bs| - 1]) * 256 + bs[|bs| - 1]
  }

  /** Python's `str(n)` for a natural number. */
  function Decimal(n: nat): string {
    if n < 10 then [['0', '1', '2', '3', '4', '5', '6', '7', '8', '9'][n]]
    else Decimal(n / 10) + Decimal(n % 10)
  }

  lemma BigEndianSnoc(bs: seq<Byte>, b: Byte)
    ensures BigEndian(bs + [b]) == BigEndian(bs) * 256 + b
  {
    assert (bs + [b])[..|bs|] == bs;
  }

  lemma BigEndianFour(b: seq<Byte>)
    requires |b| == 4
    ensures BigEndian(b) == (b[0] as int) * 0x100_0000 + (b[1] as int) * 0x1_0000 + (b[2] as int) * 256 + b[3]
  {
    BigEndianSnoc([], b[0]);
    BigEndianSnoc([b[0]], b[1]);
    BigEndianSnoc([b[0], b[1]], b[2]);
    BigEndianSnoc([b[0], b[1], b[2]], b[3]);
    assert [] + [b[0]] == [b[0]] && [b[0]] + [b[1]] == [b[0], b[1]];
    assert [b[0], b[1]] + [b[2]] == [b[0], b[1], b[2]] && [b[0], b[1], b[2]] + [b[3]] == b;
  }

  /** The number a run of decimal digits stands for. */
  function Numeral(s: string): int {
    if s == "" then 0 else Numeral(s[..|s| - 1]) * 10 + (s[|s| - 1] as int - '0' as int)
  }

  /** `str(n)` has digits only, no leading zero, and reads back as `n`. */
  lemma {:induction false} DecimalReads(n: nat)
    ensures var s := Decimal(n);
            && s != "" && (forall c | c in s :: '0' <= c <= '9')
            && Numeral(s) == n
            && (n > 0 ==> s[0] != '0')
  {
    if n < 10 {
      assert Decimal(n)[..0] == "";
    } else {
      DecimalReads(n / 10);
      DecimalReads(n % 10);
      var front, last := Decimal(n / 10), Decimal(n % 10);
      assert |last| == 1 && (front + last)[..|front|] == front && last[..0] == "";
    }
  }

  lemma Middle<T>(pre: seq<T>, mid: seq<T>, post: seq<T>)
    ensures (pre + mid + post)[|pre|..|pre| + |mid|] == mid
  {}

  lemma Assoc<T>(a: seq<T>, b: seq<T>, c: seq<T>)
    ensures a + (b + c) == (a + b) + c
  {}

  lemma SnocInjective<T>(a: seq<T>, x: T, b: seq<T>, y: T)
    ensures a + [x] == b + [y] <==> a == b && x == y
  {
    if a + [x] == b + [y] {
      assert (a + [x])[..|a|] == a && (b + [y])[..|b|] == b;
      assert (a + [x])[|a|] == x && (b + [y])[|b|] == y;
    }
  }

  lemma DropSlice<T>(s: seq<T>, p: nat, i: nat, j: nat)
    requires i <= j && p + j <= |s|
    ensures s[p..][i..j] == s[p + i..p + j]
  {}

  lemma FlattenOne<T>(s: seq<T>)
    ensures Flatten([s]) == s
  {
    assert [s][1..] == [];
  }

  lemma FlattenTwo<T>(s: seq<T>, t: seq<T>)
    ensures Flatten([s] + [t]) == s + t
  {
    assert ([s] + [t])[1..] == [t];
    FlattenOne(t);
  }

  lemma {:induction false} FlattenAppend<T>(a: seq<seq<T>>, b: seq<seq<T>>)
    ensures Flatten(a + b) == Flatten(a) + Flatten(b)
    decreases |a|
  {
    if a == [] {
      assert a + b == b && [] + Flatten(b) == Flatten(b);
    } else {
      assert (a + b)[1..] == a[1..] + b && (a + b)[0] == a[0];
      FlattenAppend(a[1..], b);
      Assoc(a[0], Flatten(a[1..]), Flatten(b));
    }
  }

  lemma FlattenSnoc<T>(parts: seq<seq<T>>, last: seq<T>)
    ensures Flatten(parts + [last]) == Flatten(parts) + last
  {
    FlattenAppend(parts, [last]);
    FlattenOne(last);
  }

  lemma TimesGrows(a: int, b: int, k: nat)
    requires a >= b
    ensures a * k >= b * k
  {
    assert (a - b) * k >= 0;
  }

  lemma Cancel(a: int, b: int, k: nat)
    requires a * k < b * k
    ensures a < b
  {
    if a >= b { TimesGrows(a, b, k); }
  }

  lemma ResidueIs(x: nat, q: nat, r: nat, k: nat)
    requires x == q * k + r && r < k
    ensures x % k == r && x / k == q
  {
    var u := x / k;
    assert x == u * k + x % k;
    Cancel(u, q + 1, k);
    Cancel(q, u + 1, k);
  }

  lemma NextResidue(cur: nat, k: nat)
    requires k > 0
    ensures (cur + 1) % k == if cur % k + 1 == k then 0 else cur % k + 1
    ensures (cur + 1) / k == if cur % k + 1 == k then cur / k + 1 else cur / k
  {
    var q, r := cur / k, cur % k;
    assert cur == q * k + r;
    if r + 1 == k {
      assert cur + 1 == (q + 1) * k;
      ResidueIs(cur + 1, q + 1, 0, k);
    } else {
      ResidueIs(cur + 1, q, r + 1, k);
    }
  }
}
