/**
 Saving an OAuth connection (app/oauth.py, `_save_connection`): duplicates of the account's
 email collapse into the freshest one, in place, and a failed persist is rolled back.
 */
module SaveConnection {
  import opened Prelude

  /** A row of the connections list. Missing and empty texts are ""; `expires` is None when
      "expires_at" is no string; `Junk` is a row that is no dictionary. */
  datatype Row =
    | Account(id: string, email: string, expires: Option<string>, rest: string)
    | Junk(text: string)

  predicate Matches(r: Row, email: string) {
    r.Account? && r.email == email
  }

  function ExpiryKey(r: Row): string {
    if r.Account? && r.expires.Some? then r.expires.value else ""
  }

  /** Python's `<` on strings. */
  predicate Less(a: string, b: string) {
    if a == [] || b == [] then a == [] && b != []
    else a[0] < b[0] || (a[0] == b[0] && Less(a[1..], b[1..]))
  }

  /** They agree up to some place, where `a` ends before `b` or has the smaller character. */
  predicate Precedes(a: string, b: string) {
    exists n | 0 <= n <= |a| && n < |b| :: AgreeTo(a, b, n) && (n == |a| || a[n] < b[n])
  }

  predicate AgreeTo(a: string, b: string, n: nat)
    requires n <= |a| && n <= |b|
  {
    forall i | 0 <= i < n :: a[i] == b[i]
  }

  lemma {:induction false} LessExactly(a: string, b: string)
    ensures Less(a, b) <==> Precedes(a, b)
    decreases |a|
  {
    if a == [] || b == [] {
      if a == [] && b != [] { assert AgreeTo(a, b, 0); }
    } else {
      LessExactly(a[1..], b[1..]);
      if Less(a, b) {
        if a[0] < b[0] {
          assert AgreeTo(a, b, 0);
        } else {
          var n :| 0 <= n <= |a[1..]| && n < |b[1..]| && AgreeTo(a[1..], b[1..], n)
                   && (n == |a[1..]| || a[1..][n] < b[1..][n]);
          assert forall i | 0 < i <= n :: a[i] == a[1..][i - 1] && b[i] == b[1..][i - 1];
          assert AgreeTo(a, b, n + 1);
        }
      }
      if Precedes(a, b) {
        var n :| 0 <= n <= |a| && n < |b| && AgreeTo(a, b, n) && (n == |a| || a[n] < b[n]);
        if n > 0 { assert AgreeTo(a[1..], b[1..], n - 1); }
      }
    }
  }

  lemma {:induction false} LessTransitive(a: string, b: string, c: string)
    requires Less(a, b) && Less(b, c)
    ensures Less(a, c)
  {
    if a != [] && a[0] == b[0] == c[0] { LessTransitive(a[1..], b[1..], c[1..]); }
  }

  lemma {:induction false} LessTotal(a: string, b: string)
    ensures Less(a, b) || Less(b, a) || a == b
    ensures !(Less(a, b) && Less(b, a))
  {
    if a != [] && b != [] && a[0] == b[0] {
      LessTotal(a[1..], b[1..]);
      assert a == [a[0]] + a[1..] && b == [b[0]] + b[1..];
    }
  }

  /** `max` over the matching indexes: the first index with the greatest key. */
  function Freshest(rows: seq<Row>, email: string): (k: Option<nat>)
    ensures k.Some? ==> k.value < |rows| && Matches(rows[k.value], email)
    ensures k.None? <==> forall r | r in rows :: !Matches(r, email)
  {
    if rows == [] then None
    else
      var n := |rows| - 1;
      var best := Freshest(rows[..n], email);
      if !Matches(rows[n], email) then best
      else if best.None? || Less(ExpiryKey(rows[best.value]), ExpiryKey(rows[n])) then Some(n)
      else best
  }

  lemma {:induction false} GreatestKey(rows: seq<Row>, email: string, j: nat)
    requires j < |rows| && Matches(rows[j], email)
    ensures var k := Freshest(rows, email);
            && k.Some? && !Less(ExpiryKey(rows[k.value]), ExpiryKey(rows[j]))
            && (j < k.value ==> Less(ExpiryKey(rows[j]), ExpiryKey(rows[k.value])))
    decreases |rows|
  {
    var n := |rows| - 1;
    var best := Freshest(rows[..n], email);
    var last := ExpiryKey(rows[n]);
    LessTotal(ExpiryKey(rows[j]), ExpiryKey(rows[j]));
    if j < n {
      GreatestKey(rows[..n], email, j);
      var kept, mine := ExpiryKey(rows[best.value]), ExpiryKey(rows[j]);
      LessTotal(kept, mine);
      LessTotal(mine, last);
      if Less(kept, last) {
        if Less(mine, kept) { LessTransitive(mine, kept, last); }
      }
    }
  }

  /** An account's expiry text, "" where there is none. */
  function ExpiryOf(r: Row): string
    requires r.Account?
  {
    if r.expires.Some? then r.expires.value else ""
  }

  /** The freshest match is an account of that email, no such account expires later, and every
      earlier one expires sooner, in the order of strings. */
  lemma FreshestIsGreatest(rows: seq<Row>, email: string, j: nat)
    requires j < |rows| && rows[j].Account? && rows[j].email == email
    ensures var k := Freshest(rows, email);
            && k.Some? && k.value < |rows|
            && var best := rows[k.value];
               && best.Account? && best.email == email
               && !Precedes(ExpiryOf(best), ExpiryOf(rows[j]))
               && (j < k.value ==> Precedes(ExpiryOf(rows[j]), ExpiryOf(best)))
  {
    hide Precedes, Less;
    GreatestKey(rows, email, j);
    var best := rows[Freshest(rows, email).value];
    LessExactly(ExpiryOf(best), ExpiryOf(rows[j]));
    LessExactly(ExpiryOf(rows[j]), ExpiryOf(best));
  }

  /** The rows of other accounts, in order. */
  function Others(rows: seq<Row>, email: string): seq<Row> {
    if rows == [] then []
    else
      (if rows[0].Account? && rows[0].email == email then [] else [rows[0]]) + Others(rows[1..], email)
  }

  function Count(rows: seq<Row>, email: string): nat {
    if rows == [] then 0
    else (if rows[0].Account? && rows[0].email == email then 1 else 0) + Count(rows[1..], email)
  }

  lemma {:induction false} OthersAppend(a: seq<Row>, b: seq<Row>, email: string)
    ensures Others(a + b, email) == Others(a, email) + Others(b, email)
    ensures Count(a + b, email) == Count(a, email) + Count(b, email)
  {
    if a == [] {
      assert a + b == b;
    } else {
      assert (a + b)[1..] == a[1..] + b;
      OthersAppend(a[1..], b, email);
    }
  }

  lemma {:induction false} OthersIsRest(rows: seq<Row>, email: string)
    ensures |rows| == |Others(rows, email)| + Count(rows, email)
    ensures Others(Others(rows, email), email) == Others(rows, email) && Count(Others(rows, email), email) == 0
  {
    if rows != [] {
      OthersIsRest(rows[1..], email);
      var head := if Matches(rows[0], email) then [] else [rows[0]];
      OthersAppend(head, Others(rows[1..], email), email);
      if head != [] { assert head[1..] == []; }
    }
  }

  /** The list after the collapse: `row` in the place of the freshest match, no other match. */
  function Collapsed(rows: seq<Row>, email: string, keep: nat, row: Row): seq<Row>
    requires keep < |rows|
  {
    Others(rows[..keep], email) + [row] + Others(rows[keep + 1..], email)
  }

  /** Exactly one row has the email, it is the new one, and all other rows stay as they
      were, in order. */
  lemma CollapsedOnce(rows: seq<Row>, email: string, keep: nat, row: Row)
    requires keep < |rows| && Matches(rows[keep], email) && Matches(row, email)
    ensures var after := Collapsed(rows, email, keep, row);
            && Count(after, email) == 1
            && Others(after, email) == Others(rows, email)
            && after[|Others(rows[..keep], email)|] == row
            && |after| == |rows| + 1 - Count(rows, email)
  {
    var a, b := rows[..keep], rows[keep + 1..];
    assert rows == a + [rows[keep]] + b;
    OthersAppend(a + [rows[keep]], b, email);
    OthersAppend(a, [rows[keep]], email);
    OthersIsRest(a, email);
    OthersIsRest(b, email);
    OthersIsRest(rows, email);
    OthersAppend(Others(a, email) + [row], Others(b, email), email);
    OthersAppend(Others(a, email), [row], email);
    assert [row][1..] == [] && [rows[keep]][1..] == [];
  }

  // ---- The list of matches -------------------------------------------------

  /** `ms` holds the indexes of the matching rows before index `n`, in order. */
  predicate MatchesUpTo(rows: seq<Row>, email: string, ms: seq<nat>, n: nat)
    requires n <= |rows|
  {
    && (forall j | 0 <= j < |ms| :: ms[j] < n && Matches(rows[ms[j]], email))
    && (forall a, b | 0 <= a < b < |ms| :: ms[a] < ms[b])
    && (forall i | 0 <= i < n && Matches(rows[i], email) :: i in ms)
  }

  predicate AllMatches(rows: seq<Row>, email: string, ms: seq<nat>) {
    MatchesUpTo(rows, email, ms, |rows|)
  }

  lemma MatchesSnoc(rows: seq<Row>, email: string, ms: seq<nat>, i: nat)
    requires i < |rows| && MatchesUpTo(rows, email, ms, i)
    ensures MatchesUpTo(rows, email, if Matches(rows[i], email) then ms + [i] else ms, i + 1)
  {
    hide Matches;
    if Matches(rows[i], email) {
      var more := ms + [i];
      assert more[|ms|] == i;
      forall x | 0 <= x <= i && Matches(rows[x], email) ensures x in more {
        if x < i { assert x in ms; }
      }
    }
  }

  lemma CountSnoc(rows: seq<Row>, email: string, i: nat)
    requires i < |rows|
    ensures Count(rows[..i + 1], email) == Count(rows[..i], email) + if Matches(rows[i], email) then 1 else 0
  {
    assert rows[..i + 1] == rows[..i] + [rows[i]];
    OthersAppend(rows[..i], [rows[i]], email);
    assert [rows[i]][1..] == [];
  }

  method FindMatches(rows: seq<Row>, email: string) returns (ms: seq<nat>)
    ensures AllMatches(rows, email, ms)
    ensures |ms| == Count(rows, email)
  {
    hide MatchesUpTo, Matches;
    ms := [];
    assert MatchesUpTo(rows, email, ms, 0) by { NoRowsNoMatches(rows, email); }
    for i := 0 to |rows|
      invariant MatchesUpTo(rows, email, ms, i) && |ms| == Count(rows[..i], email)
    {
      hide Count;
      MatchesSnoc(rows, email, ms, i);
      CountSnoc(rows, email, i);
      if Matches(rows[i], email) { ms := ms + [i]; }
    }
    assert rows[..|rows|] == rows;
  }

  lemma NoRowsNoMatches(rows: seq<Row>, email: string)
    ensures MatchesUpTo(rows, email, [], 0)
  {}

  lemma {:induction false} FreshestGap(rows: seq<Row>, email: string, a: nat, b: nat)
    requires a <= b <= |rows| && forall i | a <= i < b :: !Matches(rows[i], email)
    ensures Freshest(rows[..b], email) == Freshest(rows[..a], email)
    decreases b
  {
    if a < b {
      assert rows[..b][..b - 1] == rows[..b - 1];
      FreshestGap(rows, email, a, b - 1);
    }
  }

  lemma FreshestNext(rows: seq<Row>, email: string, a: nat, b: nat, best: nat)
    requires a <= b < |rows| && (forall i | a <= i < b :: !Matches(rows[i], email))
    requires Matches(rows[b], email) && Freshest(rows[..a], email) == Some(best)
    ensures Freshest(rows[..b + 1], email)
         == Some(if Less(ExpiryKey(rows[best]), ExpiryKey(rows[b])) then b else best)
  {
    hide Less, ExpiryKey, Matches;
    FreshestGap(rows, email, a, b);
    assert rows[..b + 1][..b] == rows[..b];
  }

  lemma NoneBetween(rows: seq<Row>, email: string, ms: seq<nat>, j: nat)
    requires AllMatches(rows, email, ms) && j <= |ms|
    ensures forall i | (if j == 0 then 0 else ms[j - 1] + 1) <= i < (if j == |ms| then |rows| else ms[j]) ::
              !Matches(rows[i], email)
  {}

  method PickFreshest(rows: seq<Row>, email: string, ms: seq<nat>) returns (keep: nat)
    requires AllMatches(rows, email, ms) && ms != []
    ensures Freshest(rows, email) == Some(keep) && keep in ms
  {
    hide *;
    InRange(rows, email, ms);
    keep := ms[0];
    NoneBetween(rows, email, ms, 0);
    FreshestFirst(rows, email, keep);
    for j := 1 to |ms|
      invariant keep < |rows| && ms[j - 1] < |rows| && Freshest(rows[..ms[j - 1] + 1], email) == Some(keep)
    {
      NoneBetween(rows, email, ms, j);
      FreshestNext(rows, email, ms[j - 1] + 1, ms[j], keep);
      if Less(ExpiryKey(rows[keep]), ExpiryKey(rows[ms[j]])) { keep := ms[j]; }
    }
    NoneBetween(rows, email, ms, |ms|);
    FreshestGap(rows, email, ms[|ms| - 1] + 1, |rows|);
    assert rows[..|rows|] == rows;
    Listed(rows, email, ms, keep);
  }

  lemma Listed(rows: seq<Row>, email: string, ms: seq<nat>, keep: nat)
    requires AllMatches(rows, email, ms) && Freshest(rows, email) == Some(keep)
    ensures keep in ms
  {}

  lemma InRange(rows: seq<Row>, email: string, ms: seq<nat>)
    requires AllMatches(rows, email, ms)
    ensures forall j | 0 <= j < |ms| :: ms[j] < |rows| && Matches(rows[ms[j]], email)
    ensures forall a, b | 0 <= a < b < |ms| :: ms[a] < ms[b]
  {}

  lemma FreshestFirst(rows: seq<Row>, email: string, b: nat)
    requires b < |rows| && Matches(rows[b], email) && forall i | 0 <= i < b :: !Matches(rows[i], email)
    ensures Freshest(rows[..b + 1], email) == Some(b)
  {
    FreshestGap(rows, email, 0, b);
    assert rows[..b + 1][..b] == rows[..b];
  }

  // ---- Collapsing and rolling back in place --------------------------------

  /** What the collapse leaves of `rows[from..]`. */
  function Tail(rows: seq<Row>, email: string, keep: nat, row: Row, from: nat): seq<Row>
    requires from <= |rows|
    decreases |rows| - from
  {
    if from == |rows| then []
    else (if from == keep then [row] else if Matches(rows[from], email) then [] else [rows[from]])
         + Tail(rows, email, keep, row, from + 1)
  }

  lemma TailUnfold(rows: seq<Row>, email: string, keep: nat, row: Row, i: nat)
    requires i < |rows|
    ensures Tail(rows, email, keep, row, i)
         == (if i == keep then [row] else if Matches(rows[i], email) then [] else [rows[i]])
            + Tail(rows, email, keep, row, i + 1)
  {
    hide Matches;
  }

  lemma {:induction false} TailGap(rows: seq<Row>, email: string, keep: nat, row: Row, a: nat, b: nat)
    requires a <= b <= |rows|
    requires forall i | a <= i < b :: if i == keep then row == rows[i] else !Matches(rows[i], email)
    ensures Tail(rows, email, keep, row, a) == rows[a..b] + Tail(rows, email, keep, row, b)
    decreases b - a
  {
    hide Tail, Matches;
    if a < b {
      TailGap(rows, email, keep, row, a + 1, b);
      TailUnfold(rows, email, keep, row, a);
      assert rows[a..b] == [rows[a]] + rows[a + 1..b];
      Assoc([rows[a]], rows[a + 1..b], Tail(rows, email, keep, row, b));
    } else {
      assert rows[a..b] == [] && [] + Tail(rows, email, keep, row, b) == Tail(rows, email, keep, row, b);
    }
  }

  lemma {:induction false} TailAfterKeep(rows: seq<Row>, email: string, keep: nat, row: Row, from: nat)
    requires keep < from <= |rows|
    ensures Tail(rows, email, keep, row, from) == Others(rows[from..], email)
    decreases |rows| - from
  {
    if from < |rows| {
      TailAfterKeep(rows, email, keep, row, from + 1);
      assert rows[from..][1..] == rows[from + 1..];
    }
  }

  lemma OthersFirst(rows: seq<Row>, email: string)
    requires rows != []
    ensures Others(rows, email) == (if Matches(rows[0], email) then [] else [rows[0]]) + Others(rows[1..], email)
    ensures Others([], email) == []
  {}

  lemma {:induction false} TailIsCollapsed(rows: seq<Row>, email: string, keep: nat, row: Row, from: nat)
    requires from <= keep < |rows| && Matches(rows[keep], email)
    ensures Tail(rows, email, keep, row, from)
         == Others(rows[from..keep], email) + [row] + Others(rows[keep + 1..], email)
    decreases keep - from
  {
    hide Tail, Others, Matches;
    TailUnfold(rows, email, keep, row, from);
    if from == keep {
      TailAfterKeep(rows, email, keep, row, keep + 1);
      OthersFirst(rows, email);
      assert rows[from..keep] == [] && [] + [row] == [row];
    } else {
      TailIsCollapsed(rows, email, keep, row, from + 1);
      OthersFirst(rows[from..keep], email);
      assert rows[from..keep][1..] == rows[from + 1..keep];
      var head := if Matches(rows[from], email) then [] else [rows[from]];
      assert head + (Others(rows[from + 1..keep], email) + [row] + Others(rows[keep + 1..], email))
          == head + Others(rows[from + 1..keep], email) + [row] + Others(rows[keep + 1..], email);
    }
  }

  /** One step of the deletion loop: row `i` is the last match not yet processed. */
  lemma SweepStep(was: seq<Row>, email: string, keep: nat, row: Row, i: nat, e: nat, rows: seq<Row>)
    requires i < e <= |was| && Matches(was[i], email)
    requires forall x | i < x < e :: x != keep && !Matches(was[x], email)
    requires rows == was[..e] + Tail(was, email, keep, row, e)
    ensures i < |rows| && rows[i] == was[i]
    ensures (if i == keep then rows[i := row] else rows[..i] + rows[i + 1..])
         == was[..i] + Tail(was, email, keep, row, i)
  {
    hide Tail, Matches;
    TailGap(was, email, keep, row, i + 1, e);
    var rest := Tail(was, email, keep, row, i + 1);
    TailUnfold(was, email, keep, row, i);
    SplitAt(was, i, e, Tail(was, email, keep, row, e), rest);
    EditAt(was[..i], was[i], rest, row);
  }

  lemma SplitAt(was: seq<Row>, i: nat, e: nat, tail: seq<Row>, rest: seq<Row>)
    requires i < e <= |was| && rest == was[i + 1..e] + tail
    ensures was[..e] + tail == was[..i] + [was[i]] + rest
  {}

  lemma EditAt(front: seq<Row>, x: Row, rest: seq<Row>, row: Row)
    ensures var rows := front + [x] + rest;
            && rows[|front|] == x
            && rows[|front| := row] == front + ([row] + rest)
            && rows[..|front|] + rows[|front| + 1..] == front + ([] + rest)
  {}

  /** The removed rows with their indexes, from the last match down. */
  predicate Trail(was: seq<Row>, ms: seq<nat>, removed: seq<(nat, Row)>) {
    && |removed| <= |ms|
    && forall x | 0 <= x < |removed| ::
         ms[|ms| - 1 - x] < |was| && removed[x] == (ms[|ms| - 1 - x], was[ms[|ms| - 1 - x]])
  }

  predicate AllOf(removed: seq<(nat, Row)>, email: string) {
    forall x | 0 <= x < |removed| :: Matches(removed[x].1, email)
  }

  lemma TrailSnoc(was: seq<Row>, ms: seq<nat>, removed: seq<(nat, Row)>, email: string, i: nat, r: Row)
    requires AllOf(removed, email) && Matches(r, email)
    ensures AllOf(removed + [(i, r)], email)
    ensures Trail(was, ms, removed) && |removed| < |ms| && i == ms[|ms| - 1 - |removed|] && i < |was| && was[i] == r
            ==> Trail(was, ms, removed + [(i, r)])
  {}

  /** Python's `list.insert`, which clamps its index. */
  function Inserted(rows: seq<Row>, i: nat, r: Row): seq<Row> {
    if i >= |rows| then rows + [r] else rows[..i] + [r] + rows[i..]
  }

  lemma InsertedCounts(rows: seq<Row>, i: nat, r: Row, email: string)
    requires Matches(r, email)
    ensures |Inserted(rows, i, r)| == |rows| + 1 && Count(Inserted(rows, i, r), email) == Count(rows, email) + 1
  {
    assert [r][1..] == [];
    if i >= |rows| {
      OthersAppend(rows, [r], email);
    } else {
      assert rows == rows[..i] + rows[i..];
      OthersAppend(rows[..i], rows[i..], email);
      OthersAppend(rows[..i], [r], email);
      OthersAppend(rows[..i] + [r], rows[i..], email);
    }
  }

  lemma ReplacedCounts(rows: seq<Row>, i: nat, r: Row, email: string)
    requires i < |rows| && Matches(r, email)
    ensures Count(rows[i := r], email) == Count(rows, email) + if Matches(rows[i], email) then 0 else 1
  {
    assert rows == rows[..i] + [rows[i]] + rows[i + 1..];
    assert rows[i := r] == rows[..i] + [r] + rows[i + 1..];
    OthersAppend(rows[..i] + [rows[i]], rows[i + 1..], email);
    OthersAppend(rows[..i], [rows[i]], email);
    OthersAppend(rows[..i] + [r], rows[i + 1..], email);
    OthersAppend(rows[..i], [r], email);
    assert [r][1..] == [] && [rows[i]][1..] == [];
  }

  lemma {:induction false} NoMatchLeft(rows: seq<Row>, email: string)
    ensures forall r | r in Others(rows, email) :: !Matches(r, email)
    ensures (forall r | r in rows :: !Matches(r, email)) ==> Others(rows, email) == rows && Count(rows, email) == 0
    ensures (exists r :: r in rows && Matches(r, email)) ==> Count(rows, email) > 0
  {
    if rows != [] {
      NoMatchLeft(rows[1..], email);
      assert rows == [rows[0]] + rows[1..];
      assert rows[0] in rows && forall r | r in rows[1..] :: r in rows;
    }
  }

  /** Where the kept row stands after the collapse, and what stands at its old index. */
  lemma KeptPosition(was: seq<Row>, email: string, ms: seq<nat>, keep: nat, row: Row)
    requires AllMatches(was, email, ms) && keep in ms && Matches(row, email)
    ensures var after := Collapsed(was, email, keep, row);
            && (keep == ms[0] ==> |Others(was[..keep], email)| == keep)
            && (keep != ms[0] && keep < |after| ==> !Matches(after[keep], email))
  {
    var a, b := was[..keep], was[keep + 1..];
    NoMatchLeft(a, email);
    NoMatchLeft(b, email);
    OthersIsRest(a, email);
    if keep != ms[0] {
      assert was[ms[0]] == a[ms[0]];
      var after := Collapsed(was, email, keep, row);
      if keep < |after| { assert after[keep] == Others(b, email)[keep - |Others(a, email)| - 1]; }
    }
  }

  lemma RestoreStep(was: seq<Row>, email: string, keep: nat, rows: seq<Row>, b: nat, i: nat)
    requires keep < b <= i < |was| && Matches(was[i], email)
    requires forall x | b <= x < i :: !Matches(was[x], email)
    requires rows == was[..b] + Tail(was, email, keep, was[keep], b)
    ensures Inserted(rows, i, was[i]) == was[..i + 1] + Tail(was, email, keep, was[keep], i + 1)
  {
    hide Tail, Matches;
    TailGap(was, email, keep, was[keep], b, i);
    var rest := Tail(was, email, keep, was[keep], i + 1);
    TailUnfold(was, email, keep, was[keep], i);
    assert [] + rest == rest;
    assert was[..b] + (was[b..i] + rest) == was[..i] + rest;
    assert was[..i + 1] == was[..i] + [was[i]];
  }

  class Connections {
    var rows: seq<Row>

    constructor (initial: seq<Row>)
      ensures rows == initial
    {
      rows := initial;
    }

    /** The loop over `reversed(_matches)`. */
    method Collapse(email: string, ms: seq<nat>, keep: nat, row: Row) returns (removed: seq<(nat, Row)>)
      requires AllMatches(rows, email, ms) && keep in ms && Matches(row, email)
      modifies this
      ensures rows == Collapsed(old(rows), email, keep, row)
      ensures |removed| == |ms| - 1 && AllOf(removed, email)
      ensures keep == ms[0] ==> Trail(old(rows), ms, removed)
    {
      hide *;
      ghost var was := rows;
      removed := [];
      var j := |ms|;
      ghost var end := |was|;
      CollapseBegins(was, email, ms, keep, row);
      while j > 0
        invariant 0 <= j <= |ms| && end == if j == |ms| then |was| else ms[j]
        invariant end <= |was| && rows == was[..end] + Tail(was, email, keep, row, end)
        invariant |removed| == |ms| - j - if j < |ms| && keep >= ms[j] then 1 else 0
        invariant AllOf(removed, email) && (keep == ms[0] ==> Trail(was, ms, removed))
      {
        j := j - 1;
        var i := ms[j];
        CollapseStep(was, email, ms, keep, j, end);
        SweepStep(was, email, keep, row, i, end, rows);
        TrailSnoc(was, ms, removed, email, i, was[i]);
        end := i;
        if i == keep {
          rows := rows[i := row];
        } else {
          removed := removed + [(i, rows[i])];
          rows := rows[..i] + rows[i + 1..];
        }
      }
      CollapseEnds(was, email, ms, keep, row);
    }

    /** What follows a failed persist when a row was replaced; false when an index is out of
        range and the handler itself raises. `sorted` visits the removed rows from the first
        match up, which is this list from its end. */
    method Rollback(ghost was: seq<Row>, email: string, ghost ms: seq<nat>, keep: nat, ghost row: Row, kept: Row,
                    removed: seq<(nat, Row)>)
      returns (done: bool)
      requires AllMatches(was, email, ms) && keep in ms && Matches(row, email) && kept == was[keep]
      requires rows == Collapsed(was, email, keep, row)
      requires |removed| == |ms| - 1 == Count(was, email) - 1 && AllOf(removed, email)
      requires keep == ms[0] ==> Trail(was, ms, removed)
      modifies this
      ensures done <==> keep < |was| - |ms| + 1
      ensures !done ==> rows == Collapsed(was, email, keep, row)
      ensures keep == ms[0] ==> rows == was
      ensures done && keep != ms[0] ==> |rows| == |was| && Count(rows, email) == Count(was, email) + 1
    {
      hide *;
      RollbackBegins(was, email, ms, keep, row);
      if keep >= |rows| { return false; }
      ReplacedCounts(rows, keep, kept, email);
      rows := rows[keep := kept];
      var k := |removed|;
      while k > 0
        invariant 0 <= k <= |removed|
        invariant |rows| == |was| - k
        invariant Count(rows, email) == (if keep == ms[0] then 1 else 2) + |removed| - k
        invariant keep == ms[0] ==> Restored(was, email, ms, keep, rows, |ms| - 1 - k)
      {
        k := k - 1;
        var (i, r) := removed[k];
        RollbackStep(was, email, ms, keep, removed, k, rows);
        InsertedCounts(rows, i, r, email);
        rows := Inserted(rows, i, r);
      }
      if keep == ms[0] { RollbackEnds(was, email, ms, keep, rows); }
      done := true;
    }

    /** `_save_connection` on the provider's list; `persist` is whether writing succeeds. */
    method Save(newId: string, email: string, expires: Option<string>, rest: string, persist: bool)
      returns (r: Result<string>)
      modifies this
      ensures persist ==> r == Ok(SavedId(old(rows), newId, email))
      ensures persist ==> rows == Saved(old(rows), newId, email, expires, rest)
      ensures !persist ==> r == Err(if RollbackRaises(old(rows), email) then "IndexError" else "HTTPException")
      ensures !persist ==> (rows == old(rows) <==> FreshestIsFirst(old(rows), email))
      ensures !persist && !FreshestIsFirst(old(rows), email) && !RollbackRaises(old(rows), email) ==>
                |rows| == |old(rows)| && Count(rows, email) == Count(old(rows), email) + 1
    {
      hide Others, Count, Freshest, Collapsed, AllMatches, Trail, AllOf, RollbackRaises, FreshestIsFirst;
      ghost var was := rows;
      var id := newId;
      var row := Account(id, email, expires, rest);
      var ms: seq<nat> := [];
      if email != "" { ms := FindMatches(rows, email); }
      if ms != [] {
        var keep := PickFreshest(rows, email, ms);
        var kept := rows[keep];
        id := if kept.id != "" then kept.id else newId;
        row := Account(id, email, expires, rest);
        var removed := Collapse(email, ms, keep, row);
        if persist { return Ok(id); }
        FirstMatch(was, email, ms, keep);
        CollapsedOnce(was, email, keep, row);
        var done := Rollback(was, email, ms, keep, row, kept, removed);
        return Err(if done then "HTTPException" else "IndexError");
      } else {
        rows := rows + [row];
        if email != "" { NobodyMatches(was, email); }
        if persist { return Ok(id); }
        rows := rows[..|rows| - 1];
        FirstMatchNone(was, email);
        return Err("HTTPException");
      }
    }
  }

  /** Progress of the reinsertion: everything up to match `j` is back in place. */
  predicate Restored(was: seq<Row>, email: string, ms: seq<nat>, keep: nat, rows: seq<Row>, j: nat) {
    && j < |ms| && ms[j] < |was| && keep < |was|
    && rows == was[..ms[j] + 1] + Tail(was, email, keep, was[keep], ms[j] + 1)
  }

  lemma RollbackBegins(was: seq<Row>, email: string, ms: seq<nat>, keep: nat, row: Row)
    requires AllMatches(was, email, ms) && keep in ms && Matches(row, email) && |ms| == Count(was, email)
    ensures var after := Collapsed(was, email, keep, row);
            && |after| == |was| - |ms| + 1 && Count(after, email) == 1
            && keep < |was| && Matches(was[keep], email) && ms[0] < |was|
            && (keep < |after| ==> Matches(after[keep], email) == (keep == ms[0]))
            && (keep == ms[0] ==> keep < |after| && Restored(was, email, ms, keep, after[keep := was[keep]], 0))
  {
    hide AllMatches, Others, Count, Tail;
    InRange(was, email, ms);
    CollapsedOnce(was, email, keep, row);
    KeptPosition(was, email, ms, keep, row);
    if keep == ms[0] {
      var after := Collapsed(was, email, keep, row);
      assert after[keep := was[keep]] == Collapsed(was, email, keep, was[keep]);
      TailIsCollapsed(was, email, keep, was[keep], 0);
      NoneBetween(was, email, ms, 0);
      TailGap(was, email, keep, was[keep], 0, keep + 1);
    }
  }

  lemma RollbackStep(was: seq<Row>, email: string, ms: seq<nat>, keep: nat, removed: seq<(nat, Row)>, k: nat,
                     rows: seq<Row>)
    requires AllMatches(was, email, ms) && keep in ms && k < |removed| == |ms| - 1 && AllOf(removed, email)
    requires keep == ms[0] ==> Trail(was, ms, removed) && Restored(was, email, ms, keep, rows, |ms| - 2 - k)
    ensures Matches(removed[k].1, email)
    ensures keep == ms[0] ==>
              Restored(was, email, ms, keep, Inserted(rows, removed[k].0, removed[k].1), |ms| - 1 - k)
  {
    hide Tail, Inserted, Matches;
    if keep == ms[0] {
      var j := |ms| - 1 - k;
      NoneBetween(was, email, ms, j);
      InRange(was, email, ms);
      hide AllMatches;
      RestoreStep(was, email, keep, rows, ms[j - 1] + 1, ms[j]);
    }
  }

  lemma RollbackEnds(was: seq<Row>, email: string, ms: seq<nat>, keep: nat, rows: seq<Row>)
    requires AllMatches(was, email, ms) && ms != [] && keep == ms[0]
    requires Restored(was, email, ms, keep, rows, |ms| - 1)
    ensures rows == was
  {
    hide Tail, Matches;
    NoneBetween(was, email, ms, |ms|);
    var b := ms[|ms| - 1] + 1;
    TailGap(was, email, keep, was[keep], b, |was|);
    CollapseBegins(was, email, ms, keep, was[keep]);
    assert was[..b] + was[b..] == was;
  }

  /** The freshest match, if there is one, is the first match. */
  predicate FreshestIsFirst(rows: seq<Row>, email: string) {
    var k := Freshest(rows, email);
    email == "" || k.None? || forall i | 0 <= i < k.value :: !Matches(rows[i], email)
  }

  /** The freshest match stood beyond the end of the collapsed list. */
  predicate RollbackRaises(rows: seq<Row>, email: string) {
    var k := Freshest(rows, email);
    email != "" && k.Some? && k.value >= |Others(rows, email)| + 1
  }

  function SavedId(rows: seq<Row>, newId: string, email: string): string {
    var k := Freshest(rows, email);
    if email != "" && k.Some? && rows[k.value].id != "" then rows[k.value].id else newId
  }

  /** The list after a successful save. */
  function Saved(rows: seq<Row>, newId: string, email: string, expires: Option<string>, rest: string): seq<Row> {
    var row := Account(SavedId(rows, newId, email), email, expires, rest);
    var k := Freshest(rows, email);
    if email != "" && k.Some? then Collapsed(rows, email, k.value, row) else rows + [row]
  }

  lemma FirstMatch(rows: seq<Row>, email: string, ms: seq<nat>, keep: nat)
    requires AllMatches(rows, email, ms) && keep in ms && Freshest(rows, email) == Some(keep) && email != ""
    requires |ms| == Count(rows, email)
    ensures FreshestIsFirst(rows, email) <==> keep == ms[0]
    ensures RollbackRaises(rows, email) <==> keep >= |rows| - |ms| + 1
  {
    OthersIsRest(rows, email);
  }

  lemma FirstMatchNone(rows: seq<Row>, email: string)
    requires email == "" || Freshest(rows, email).None?
    ensures FreshestIsFirst(rows, email) && !RollbackRaises(rows, email)
  {}

  lemma NobodyMatches(rows: seq<Row>, email: string)
    requires AllMatches(rows, email, [])
    ensures Freshest(rows, email).None?
  {}

  /** After a successful save with an email exactly one row has it, with the id of the freshest
      match when that is set, in that match's place; all other rows keep content and order.
      With no match, or without an email, the row is a new last one under the new id. */
  lemma SavedExactlyOnce(rows: seq<Row>, newId: string, email: string, expires: Option<string>, rest: string)
    ensures var after, k := Saved(rows, newId, email, expires, rest), Freshest(rows, email);
            && (email != "" ==> Count(after, email) == 1 && Others(after, email) == Others(rows, email))
            && (email == "" || k.None? ==> after == rows + [Account(newId, email, expires, rest)])
            && (email != "" && k.Some? ==>
                  var place := |Others(rows[..k.value], email)|;
                  && k.value < |rows| && rows[k.value].Account? && place < |after|
                  && after[place] == Account(if rows[k.value].id != "" then rows[k.value].id else newId,
                                             email, expires, rest))
  {
    hide Others, Count, Freshest;
    var row := Account(SavedId(rows, newId, email), email, expires, rest);
    var k := Freshest(rows, email);
    if email != "" {
      if k.Some? {
        CollapsedOnce(rows, email, k.value, row);
      } else {
        NoMatchLeft(rows, email);
        OthersAppend(rows, [row], email);
        OneRow(row, email);
      }
    }
  }

  lemma OneRow(row: Row, email: string)
    requires Matches(row, email)
    ensures Others([row], email) == [] && Count([row], email) == 1
  {
    assert [row][1..] == [];
  }

  lemma CollapseBegins(was: seq<Row>, email: string, ms: seq<nat>, keep: nat, row: Row)
    requires AllMatches(was, email, ms) && keep in ms
    ensures was[..|was|] + Tail(was, email, keep, row, |was|) == was
    ensures keep < |was| && ms[0] <= keep && Trail(was, ms, []) && AllOf([], email)
  {}

  lemma CollapseStep(was: seq<Row>, email: string, ms: seq<nat>, keep: nat, j: nat, end: nat)
    requires AllMatches(was, email, ms) && keep in ms && j < |ms|
    requires end == if j + 1 == |ms| then |was| else ms[j + 1]
    ensures ms[j] < end <= |was| && Matches(was[ms[j]], email)
    ensures forall x | ms[j] < x < end :: x != keep && !Matches(was[x], email)
    ensures (keep >= ms[j]) == (keep == ms[j] || (j + 1 < |ms| && keep >= ms[j + 1]))
    ensures keep == ms[0] && j > 0 ==> keep < ms[j]
  {
    NoneBetween(was, email, ms, j + 1);
  }

  lemma CollapseEnds(was: seq<Row>, email: string, ms: seq<nat>, keep: nat, row: Row)
    requires AllMatches(was, email, ms) && keep in ms
    ensures was[..ms[0]] + Tail(was, email, keep, row, ms[0]) == Collapsed(was, email, keep, row)
  {
    hide Tail;
    NoneBetween(was, email, ms, 0);
    TailGap(was, email, keep, row, 0, ms[0]);
    TailIsCollapsed(was, email, keep, row, 0);
  }
}
