/**
 Keyset paging over the usage table (app/observability.py, `query_usage_events`): the
 conditions of one page, and what a client that follows the cursor collects.
 */
module Paging {
  import opened Prelude

  datatype Row = Row(id: int, epoch: real, ts: string, provider: Option<string>, model: Option<string>, rest: string)

  type Table = seq<Row>

  /** SQLite's `LIKE` and `LOWER`, Python's `lower`, and `_safe_ts_epoch` on timestamps that parse. */
  datatype Env = Env(like: (string, string) -> bool, lower: string -> string, pyLower: string -> string,
                     epochOf: string -> real)

  /** The arguments; "" stands for a missing one, `beforeId` is the cursor id if it reads as
      an integer. */
  datatype Query = Query(start: string, end: string, provider: string, model: string, q: string, limit: int,
                         beforeId: Option<int>, beforeTs: Option<string>)

  datatype Column = Provider | Model

  datatype Clause =
    | NotAuthenticity
    | EpochFrom(epoch: real)
    | EpochTo(epoch: real)
    | Equal(column: Column, text: string)
    | Like(column: Column, pattern: string)
    | EitherLike(pattern: string)
    | Before(epoch: real, id: int)
    | IdBelow(id: int)

  function Value(r: Row, c: Column): Option<string> {
    if c.Provider? then r.provider else r.model
  }

  predicate LikeOrNull(env: Env, pattern: string, text: Option<string>) {
    text.Some? && env.like(pattern, text.value)
  }

  function Lowered(env: Env, text: Option<string>): Option<string> {
    if text.Some? then Some(env.lower(text.value)) else None
  }

  /** A comparison with NULL does not hold. */
  predicate Holds(env: Env, c: Clause, r: Row) {
    match c
    case NotAuthenticity => env.lower(if r.provider.Some? then r.provider.value else "") != "authenticity"
    case EpochFrom(e) => r.epoch >= e
    case EpochTo(e) => r.epoch <= e
    case Equal(col, text) => Value(r, col) == Some(text)
    case Like(col, pattern) => LikeOrNull(env, pattern, Value(r, col))
    case EitherLike(pattern) =>
      LikeOrNull(env, pattern, Lowered(env, r.provider)) || LikeOrNull(env, pattern, Lowered(env, r.model))
    case Before(e, id) => r.epoch < e || (r.epoch == e && r.id < id)
    case IdBelow(id) => r.id < id
  }

  predicate AllHold(env: Env, clauses: seq<Clause>, r: Row) {
    forall i | 0 <= i < |clauses| :: Holds(env, clauses[i], r)
  }

  /** A row the filters ask for. A trailing "*" makes a filter a prefix. */
  predicate NamedBy(env: Env, filter: string, text: Option<string>) {
    filter != "" ==>
      if filter[|filter| - 1] == '*' then text.Some? && env.like(filter[..|filter| - 1] + "%", text.value)
      else text == Some(filter)
  }

  predicate Wanted(env: Env, p: Query, r: Row) {
    && env.lower(if r.provider.Some? then r.provider.value else "") != "authenticity"
    && (p.start != "" ==> r.epoch >= env.epochOf(p.start))
    && (p.end != "" ==> r.epoch <= env.epochOf(p.end))
    && NamedBy(env, p.provider, r.provider)
    && NamedBy(env, p.model, r.model)
    && (p.q != "" ==>
          var pattern := "%" + env.pyLower(p.q) + "%";
          (r.provider.Some? && env.like(pattern, env.lower(r.provider.value)))
          || (r.model.Some? && env.like(pattern, env.lower(r.model.value))))
  }

  /** The row comes after the cursor in the newest-first order. */
  predicate BelowCursor(env: Env, p: Query, r: Row) {
    p.beforeId.Some? && p.beforeId.value > 0 ==>
      if p.beforeTs.Some? then
        var e := env.epochOf(p.beforeTs.value);
        r.epoch < e || (r.epoch == e && r.id < p.beforeId.value)
      else r.id < p.beforeId.value
  }

  /** The WHERE clause, built as the code builds it. */
  method BuildClauses(env: Env, p: Query) returns (clauses: seq<Clause>)
    ensures clauses == ClausesOf(env, p)
    ensures forall r: Row :: AllHold(env, clauses, r) <==> Wanted(env, p, r) && BelowCursor(env, p, r)
  {
    hide Holds, AllHold, Wanted, BelowCursor, NamedBy;
    clauses := [NotAuthenticity];
    if p.start != "" { clauses := clauses + [EpochFrom(env.epochOf(p.start))]; }
    assert clauses == [NotAuthenticity] + Optional(p.start != "", EpochFrom(env.epochOf(p.start)));
    ghost var was := clauses;
    if p.end != "" { clauses := clauses + [EpochTo(env.epochOf(p.end))]; }
    assert clauses == was + Optional(p.end != "", EpochTo(env.epochOf(p.end)));
    was := clauses;
    if p.provider != "" {
      if p.provider[|p.provider| - 1] == '*' {
        clauses := clauses + [Like(Provider, p.provider[..|p.provider| - 1] + "%")];
      } else {
        clauses := clauses + [Equal(Provider, p.provider)];
      }
    }
    assert clauses == was + NameClause(p.provider, Provider);
    was := clauses;
    if p.model != "" {
      if p.model[|p.model| - 1] == '*' {
        clauses := clauses + [Like(Model, p.model[..|p.model| - 1] + "%")];
      } else {
        clauses := clauses + [Equal(Model, p.model)];
      }
    }
    assert clauses == was + NameClause(p.model, Model);
    was := clauses;
    if p.q != "" { clauses := clauses + [EitherLike("%" + env.pyLower(p.q) + "%")]; }
    assert clauses == was + Optional(p.q != "", EitherLike("%" + env.pyLower(p.q) + "%"));
    was := clauses;
    if p.beforeId.Some? && p.beforeId.value > 0 {
      if p.beforeTs.Some? {
        clauses := clauses + [Before(env.epochOf(p.beforeTs.value), p.beforeId.value)];
      } else {
        clauses := clauses + [IdBelow(p.beforeId.value)];
      }
    }
    assert clauses == was + CursorClause(env, p);
    forall r: Row { ClausesMean(env, p, r); }
  }

  function Optional(on: bool, c: Clause): seq<Clause> { if on then [c] else [] }

  function NameClause(filter: string, col: Column): seq<Clause> {
    if filter == "" then []
    else if filter[|filter| - 1] == '*' then [Like(col, filter[..|filter| - 1] + "%")]
    else [Equal(col, filter)]
  }

  function CursorClause(env: Env, p: Query): seq<Clause> {
    if p.beforeId.Some? && p.beforeId.value > 0 then
      [if p.beforeTs.Some? then Before(env.epochOf(p.beforeTs.value), p.beforeId.value) else IdBelow(p.beforeId.value)]
    else []
  }

  function ClausesOf(env: Env, p: Query): seq<Clause> {
    [NotAuthenticity]
    + Optional(p.start != "", EpochFrom(env.epochOf(p.start)))
    + Optional(p.end != "", EpochTo(env.epochOf(p.end)))
    + NameClause(p.provider, Provider)
    + NameClause(p.model, Model)
    + Optional(p.q != "", EitherLike("%" + env.pyLower(p.q) + "%"))
    + CursorClause(env, p)
  }

  lemma AllHoldAppend(env: Env, a: seq<Clause>, b: seq<Clause>, r: Row)
    ensures AllHold(env, a + b, r) <==> AllHold(env, a, r) && AllHold(env, b, r)
  {
    hide Holds;
    if AllHold(env, a + b, r) {
      forall i | 0 <= i < |a| ensures Holds(env, a[i], r) { assert (a + b)[i] == a[i]; }
      forall i | 0 <= i < |b| ensures Holds(env, b[i], r) { assert (a + b)[|a| + i] == b[i]; }
    }
  }

  lemma AllHoldOne(env: Env, c: Clause, r: Row)
    ensures AllHold(env, [c], r) <==> Holds(env, c, r)
    ensures AllHold(env, [], r)
  {
    hide Holds;
    if Holds(env, c, r) { assert forall i | 0 <= i < 1 :: Holds(env, [c][i], r); }
    if AllHold(env, [c], r) { assert Holds(env, [c][0], r); }
  }

  lemma NameClauseMeans(env: Env, filter: string, col: Column, r: Row)
    ensures AllHold(env, NameClause(filter, col), r) <==> NamedBy(env, filter, Value(r, col))
  {
    hide AllHold, Value;
    if filter != "" { AllHoldOne(env, NameClause(filter, col)[0], r); } else { AllHoldOne(env, NotAuthenticity, r); }
  }

  lemma OptionalMeans(env: Env, on: bool, c: Clause, r: Row)
    ensures AllHold(env, Optional(on, c), r) <==> (on ==> Holds(env, c, r))
  {
    hide AllHold, Holds;
    AllHoldOne(env, c, r);
  }

  lemma CursorMeans(env: Env, p: Query, r: Row)
    ensures AllHold(env, CursorClause(env, p), r) <==> BelowCursor(env, p, r)
  {
    hide AllHold;
    if CursorClause(env, p) != [] {
      AllHoldOne(env, CursorClause(env, p)[0], r);
    } else {
      AllHoldOne(env, NotAuthenticity, r);
    }
  }

  /** The clause list says what the arguments ask for. */
  lemma ClausesMean(env: Env, p: Query, r: Row)
    ensures AllHold(env, ClausesOf(env, p), r) <==> Wanted(env, p, r) && BelowCursor(env, p, r)
  {
    hide AllHold, Optional, NameClause, CursorClause, NamedBy, BelowCursor;
    var a := [NotAuthenticity];
    var b := Optional(p.start != "", EpochFrom(env.epochOf(p.start)));
    var c := Optional(p.end != "", EpochTo(env.epochOf(p.end)));
    var d, e := NameClause(p.provider, Provider), NameClause(p.model, Model);
    var f, g := Optional(p.q != "", EitherLike("%" + env.pyLower(p.q) + "%")), CursorClause(env, p);
    AllHoldAppend(env, a + b + c + d + e + f, g, r);
    AllHoldAppend(env, a + b + c + d + e, f, r);
    AllHoldAppend(env, a + b + c + d, e, r);
    AllHoldAppend(env, a + b + c, d, r);
    AllHoldAppend(env, a + b, c, r);
    AllHoldAppend(env, a, b, r);
    AllHoldOne(env, NotAuthenticity, r);
    OptionalMeans(env, p.start != "", EpochFrom(env.epochOf(p.start)), r);
    OptionalMeans(env, p.end != "", EpochTo(env.epochOf(p.end)), r);
    OptionalMeans(env, p.q != "", EitherLike("%" + env.pyLower(p.q) + "%"), r);
    NameClauseMeans(env, p.provider, Provider, r);
    NameClauseMeans(env, p.model, Model, r);
    CursorMeans(env, p, r);
  }

  // ---- One page ------------------------------------------------------------

  /** Newest first: by epoch, then by id. */
  predicate Above(a: Row, b: Row) {
    a.epoch > b.epoch || (a.epoch == b.epoch && a.id > b.id)
  }

  predicate Descending(rows: seq<Row>) {
    forall i, j | 0 <= i < j < |rows| :: Above(rows[i], rows[j])
  }

  /** Ids are the primary key: positive, and none occurs twice. */
  predicate WellKeyed(t: Table) {
    (forall i | 0 <= i < |t| :: t[i].id > 0) && DistinctIds(t)
  }

  predicate DistinctIds(t: Table) {
    forall i, j | 0 <= i < j < |t| :: t[i].id != t[j].id
  }

  function Where(env: Env, t: Table, clauses: seq<Clause>): Table {
    if t == [] then []
    else (if AllHold(env, clauses, t[0]) then [t[0]] else []) + Where(env, t[1..], clauses)
  }

  function Place(r: Row, rows: seq<Row>): seq<Row> {
    if rows == [] || Above(r, rows[0]) then [r] + rows else [rows[0]] + Place(r, rows[1..])
  }

  /** ORDER BY ts_epoch DESC, id DESC. */
  function NewestFirst(rows: seq<Row>): seq<Row> {
    if rows == [] then [] else Place(rows[0], NewestFirst(rows[1..]))
  }

  /** LIMIT: a negative number is no limit. */
  function Limited(rows: seq<Row>, limit: int): seq<Row> {
    if limit < 0 || limit >= |rows| then rows else rows[..limit]
  }

  datatype Page = Page(entries: seq<Row>, total: nat, hasMore: bool, nextId: Option<int>, nextTs: Option<string>)

  function Select(env: Env, t: Table, clauses: seq<Clause>): seq<Row> {
    NewestFirst(Where(env, t, clauses))
  }

  /** One page, given all rows that match, newest first. */
  function PageOf(found: seq<Row>, limit: int): Page {
    var pageLimit := if limit <= 500 then limit else 500;
    var rows := Limited(found, pageLimit);
    if |rows| >= pageLimit && |found| > pageLimit && rows != [] then
      Page(rows, |found|, true, Some(rows[|rows| - 1].id), Some(rows[|rows| - 1].ts))
    else if |found| > |rows| then
      if 0 <= pageLimit < |found| then Page(rows, |found|, true, Some(found[pageLimit].id), Some(found[pageLimit].ts))
      else Page(rows, |found|, true, None, None)
    else Page(rows, |found|, false, None, None)
  }

  method QueryUsageEvents(env: Env, t: Table, p: Query) returns (page: Page)
    ensures page == PageOf(Select(env, t, ClausesOf(env, p)), p.limit)
  {
    hide ClausesOf, Select, AllHold;
    var clauses := BuildClauses(env, p);
    var found := Select(env, t, clauses);
    var total := |found|;
    var pageLimit := if p.limit <= 500 then p.limit else 500;
    var rows := Limited(found, pageLimit);
    var hasMore := |rows| >= pageLimit && total > pageLimit;
    var nextId: Option<int>, nextTs: Option<string> := None, None;
    if hasMore && rows != [] {
      var last := rows[|rows| - 1];
      nextId, nextTs := Some(last.id), Some(last.ts);
    } else if total > |rows| {
      hasMore := true;
      if 0 <= pageLimit < |found| { nextId, nextTs := Some(found[pageLimit].id), Some(found[pageLimit].ts); }
    } else {
      hasMore := false;
    }
    page := Page(rows, total, hasMore, nextId, nextTs);
  }

  /** A page shows the newest rows, as many as asked for but at most 500, or all of them for a
      negative limit, which still claims that there are more, and counts them all. The cursor
      it gives, if any, is its own last row; only a limit of 0 gives one that skips a row. */
  lemma PageMeans(found: seq<Row>, limit: int)
    ensures var page := PageOf(found, limit);
            && page.entries <= found
            && page.total == |found|
            && (limit < 0 ==> page.entries == found && (page.hasMore <==> found != []))
            && (limit >= 0 ==>
                  var most := if limit <= 500 then limit else 500;
                  |page.entries| == (if |found| <= most then |found| else most)
                  && (page.hasMore <==> |found| > most))
            && (limit != 0 && page.hasMore ==>
                  page.entries != [] && page.nextId == Some(page.entries[|page.entries| - 1].id)
                  && page.nextTs == Some(page.entries[|page.entries| - 1].ts))
            && (limit == 0 && page.hasMore ==> page.nextId == Some(found[0].id) && page.nextTs == Some(found[0].ts))
            && (!page.hasMore ==> page.nextId == None && page.nextTs == None)
  {}

  // ---- What a page selects -------------------------------------------------

  lemma {:induction false} PlaceDescends(r: Row, rows: seq<Row>)
    requires Descending(rows) && forall x | x in rows :: x.id != r.id
    ensures Descending(Place(r, rows))
    ensures forall x :: x in Place(r, rows) <==> x == r || x in rows
    decreases |rows|
  {
    if rows == [] || Above(r, rows[0]) {
      DescendingCons(r, rows);
    } else {
      PlaceDescends(r, rows[1..]);
      var rest := Place(r, rows[1..]);
      assert rows == [rows[0]] + rows[1..];
      if rest[0] != r {
        assert rest[0] in rows[1..];
        var i :| 0 <= i < |rows[1..]| && rows[1..][i] == rest[0];
        assert rows[i + 1] == rest[0];
      }
      DescendingCons(rows[0], rest);
    }
  }

  lemma DescendingCons(r: Row, rows: seq<Row>)
    requires Descending(rows) && (rows != [] ==> Above(r, rows[0]))
    ensures Descending([r] + rows)
  {
    forall j | 0 <= j < |rows| ensures Above(r, rows[j]) {
      if j > 0 { assert Above(rows[0], rows[j]); }
    }
  }

  lemma DistinctTail(rows: seq<Row>)
    requires rows != [] && DistinctIds(rows)
    ensures DistinctIds(rows[1..]) && forall x | x in rows[1..] :: x.id != rows[0].id
  {
    forall x | x in rows[1..] ensures x.id != rows[0].id {
      var i :| 0 <= i < |rows[1..]| && rows[1..][i] == x;
      assert rows[i + 1] == x;
    }
  }

  lemma {:induction false} NewestFirstDescends(rows: seq<Row>)
    requires DistinctIds(rows)
    ensures Descending(NewestFirst(rows))
    ensures forall x :: x in NewestFirst(rows) <==> x in rows
    decreases |rows|
  {
    hide Place, Above, Descending, DistinctIds;
    if rows != [] {
      DistinctTail(rows);
      NewestFirstDescends(rows[1..]);
      assert rows == [rows[0]] + rows[1..];
      PlaceDescends(rows[0], NewestFirst(rows[1..]));
    } else {
      DescendingEmpty();
    }
  }

  lemma DescendingEmpty()
    ensures Descending([])
  {}

  lemma {:induction false} WhereMembers(env: Env, t: Table, clauses: seq<Clause>)
    requires DistinctIds(t)
    ensures forall x :: x in Where(env, t, clauses) <==> x in t && AllHold(env, clauses, x)
    ensures DistinctIds(Where(env, t, clauses))
    decreases |t|
  {
    hide AllHold, DistinctIds;
    if t != [] {
      DistinctTail(t);
      WhereMembers(env, t[1..], clauses);
      var rest := Where(env, t[1..], clauses);
      assert t == [t[0]] + t[1..];
      if AllHold(env, clauses, t[0]) {
        DistinctCons(t[0], rest);
      } else {
        assert [] + rest == rest;
      }
    } else {
      DistinctNone();
    }
  }

  lemma DistinctNone()
    ensures DistinctIds([])
  {}

  lemma DistinctCons(r: Row, rest: seq<Row>)
    requires DistinctIds(rest) && forall x | x in rest :: x.id != r.id
    ensures DistinctIds([r] + rest)
  {
    assert forall j | 0 <= j < |rest| :: rest[j] in rest;
  }

  /** The rows a query selects: those that match, each once, newest first. */
  lemma SelectMembers(env: Env, t: Table, p: Query)
    requires WellKeyed(t)
    ensures var found := Select(env, t, ClausesOf(env, p));
            && Descending(found)
            && (forall r :: r in found <==> r in t && Wanted(env, p, r) && BelowCursor(env, p, r))
  {
    hide AllHold, ClausesOf, Where, NewestFirst, Wanted, BelowCursor, Descending, DistinctIds;
    WhereMembers(env, t, ClausesOf(env, p));
    NewestFirstDescends(Where(env, t, ClausesOf(env, p)));
    forall r ensures AllHold(env, ClausesOf(env, p), r) <==> Wanted(env, p, r) && BelowCursor(env, p, r) {
      ClausesMean(env, p, r);
    }
  }

  /** Two descending lists with the same rows are the same list. */
  lemma {:induction false} UniqueDescending(a: seq<Row>, b: seq<Row>)
    requires Descending(a) && Descending(b) && forall r :: r in a <==> r in b
    ensures a == b
    decreases |a|
  {
    if a == [] {
      if b != [] { HasFirst(b); }
    } else {
      assert a[0] in b;
      assert b[0] in a;
      FirstIsFirst(a, b);
      DescendingTail(a);
      DescendingTail(b);
      hide Descending, Above;
      UniqueDescending(a[1..], b[1..]);
      assert a == [a[0]] + a[1..] && b == [b[0]] + b[1..];
    }
  }

  lemma HasFirst(b: seq<Row>)
    requires b != []
    ensures b[0] in b
  {}

  lemma FirstIsFirst(a: seq<Row>, b: seq<Row>)
    requires Descending(a) && Descending(b) && a != [] && b != [] && a[0] in b && b[0] in a
    ensures a[0] == b[0]
  {
    var i :| 0 <= i < |b| && b[i] == a[0];
    var j :| 0 <= j < |a| && a[j] == b[0];
  }

  lemma DescendingTail(a: seq<Row>)
    requires Descending(a) && a != []
    ensures Descending(a[1..])
    ensures forall r :: r in a[1..] <==> r in a && r != a[0]
  {
    forall r | r in a[1..] ensures r in a && r != a[0] {
      var i :| 0 <= i < |a[1..]| && a[1..][i] == r;
      assert a[i + 1] == r && Above(a[0], a[i + 1]);
    }
    assert a == [a[0]] + a[1..];
  }

  // ---- Following the cursor ------------------------------------------------

  function PageAt(env: Env, t: Table, p: Query): Page {
    PageOf(Select(env, t, ClausesOf(env, p)), p.limit)
  }

  function Next(p: Query, page: Page): Query {
    p.(beforeId := page.nextId, beforeTs := page.nextTs)
  }

  /** What a client collects that asks again with the given cursor until there is no more;
      `tables` holds the table as each request finds it. */
  function Follow(env: Env, tables: seq<Table>, p: Query): seq<Row> {
    if tables == [] then []
    else
      var page := PageAt(env, tables[0], p);
      page.entries + if page.hasMore then Follow(env, tables[1..], Next(p, page)) else []
  }

  predicate Finished(env: Env, tables: seq<Table>, p: Query) {
    tables != [] &&
      var page := PageAt(env, tables[0], p);
      page.hasMore ==> Finished(env, tables[1..], Next(p, page))
  }

  /** The two tables hold the same wanted rows below the cursor; rows above it may differ. */
  ghost predicate SameBelow(env: Env, p: Query, t: Table, t': Table) {
    forall r: Row | Wanted(env, p, r) && BelowCursor(env, p, r) :: r in t <==> r in t'
  }

  /** Between two requests the table changes only above the cursor the client holds. */
  ghost predicate Undisturbed(env: Env, tables: seq<Table>, p: Query) {
    |tables| >= 2 ==>
      var page := PageAt(env, tables[0], p);
      page.hasMore ==>
        && SameBelow(env, Next(p, page), tables[0], tables[1])
        && Undisturbed(env, tables[1..], Next(p, page))
  }

  /** Each row's text timestamp converts to its epoch. */
  predicate Dated(env: Env, t: Table) {
    forall i | 0 <= i < |t| :: env.epochOf(t[i].ts) == t[i].epoch
  }

  predicate Proper(env: Env, tables: seq<Table>) {
    forall i | 0 <= i < |tables| :: WellKeyed(tables[i]) && Dated(env, tables[i])
  }

  /** The query starts at the newest row or at a cursor with its timestamp. */
  predicate FullCursor(p: Query) {
    p.beforeId.Some? && p.beforeId.value > 0 ==> p.beforeTs.Some?
  }

  /** Below the cursor that a page gives are exactly the rows after that page. */
  lemma CursorContinues(env: Env, t: Table, p: Query, m: nat, r: Row)
    requires WellKeyed(t) && Dated(env, t) && FullCursor(p)
    requires var found := Select(env, t, ClausesOf(env, p)); 0 < m <= |found|
    ensures var found := Select(env, t, ClausesOf(env, p));
            var last := found[m - 1];
            var p' := p.(beforeId := Some(last.id), beforeTs := Some(last.ts));
            r in t && Wanted(env, p', r) && BelowCursor(env, p', r) <==> r in found[m..]
  {
    hide Select, ClausesOf, Wanted;
    SelectMembers(env, t, p);
    var found := Select(env, t, ClausesOf(env, p));
    var last := found[m - 1];
    assert last in t && last.id > 0 && env.epochOf(last.ts) == last.epoch;
    var p' := p.(beforeId := Some(last.id), beforeTs := Some(last.ts));
    assert Wanted(env, p', r) <==> Wanted(env, p, r) by { WantedKeeps(env, p, p', r); }
    assert BelowCursor(env, p', r) <==> Above(last, r);
    SplitDescending(found, m, r);
    if Above(last, r) && r in t && Wanted(env, p, r) {
      assert BelowCursor(env, p, last);
    }
  }

  lemma WantedKeeps(env: Env, p: Query, p': Query, r: Row)
    requires p' == p.(beforeId := p'.beforeId, beforeTs := p'.beforeTs)
    ensures Wanted(env, p', r) <==> Wanted(env, p, r)
  {
    hide NamedBy, LikeOrNull;
  }

  lemma SplitDescending(found: seq<Row>, m: nat, r: Row)
    requires Descending(found) && 0 < m <= |found|
    ensures r in found[m..] <==> r in found && Above(found[m - 1], r)
    ensures Descending(found[m..])
  {
    if r in found[m..] {
      var i :| 0 <= i < |found[m..]| && found[m..][i] == r;
      assert found[m + i] == r;
    }
    if r in found && Above(found[m - 1], r) {
      var i :| 0 <= i < |found| && found[i] == r;
      assert i >= m;
      assert found[m..][i - m] == r;
    }
  }

  /** The next request selects exactly what the page left. */
  lemma NextSelectsRest(env: Env, t: Table, t': Table, p: Query)
    requires WellKeyed(t) && Dated(env, t) && WellKeyed(t') && FullCursor(p) && p.limit != 0
    requires PageAt(env, t, p).hasMore && SameBelow(env, Next(p, PageAt(env, t, p)), t, t')
    ensures var found := Select(env, t, ClausesOf(env, p));
            var page := PageAt(env, t, p);
            && page.entries != [] && |page.entries| <= |found| && page.entries == found[..|page.entries|]
            && Select(env, t', ClausesOf(env, Next(p, page))) == found[|page.entries|..]
            && FullCursor(Next(p, page))
  {
    hide Select, ClausesOf, Wanted, BelowCursor, Descending, Dated, WellKeyed, PageOf;
    var found := Select(env, t, ClausesOf(env, p));
    var page := PageAt(env, t, p);
    PageMeans(found, p.limit);
    var m := |page.entries|;
    assert page.entries == found[..m] && page.entries[m - 1] == found[m - 1];
    var p' := Next(p, page);
    SelectMembers(env, t, p);
    SelectMembers(env, t', p');
    SplitDescending(found, m, found[m - 1]);
    forall r ensures r in Select(env, t', ClausesOf(env, p')) <==> r in found[m..] {
      CursorContinues(env, t, p, m, r);
    }
    UniqueDescending(Select(env, t', ClausesOf(env, p')), found[m..]);
  }

  /** Following the cursor to the end collects every matching row exactly once, newest first,
      however the table changed above the cursor meanwhile; only a limit of 0 collects nothing. */
  lemma {:induction false} FollowCollectsAll(env: Env, tables: seq<Table>, p: Query)
    requires Proper(env, tables) && FullCursor(p) && p.limit != 0
    requires Undisturbed(env, tables, p) && Finished(env, tables, p)
    ensures Follow(env, tables, p) == Select(env, tables[0], ClausesOf(env, p))
    decreases |tables|
  {
    hide Select, ClausesOf, SameBelow, PageOf, WellKeyed, Dated, FullCursor, Next;
    var found := Select(env, tables[0], ClausesOf(env, p));
    var page := PageAt(env, tables[0], p);
    PageMeans(found, p.limit);
    if page.hasMore {
      NextSelectsRest(env, tables[0], tables[1], p);
      LimitStays(p, page);
      FollowCollectsAll(env, tables[1..], Next(p, page));
      assert found == found[..|page.entries|] + found[|page.entries|..];
    } else {
      NoMoreIsAll(found, p.limit);
      assert page.entries + [] == page.entries;
    }
  }

  lemma LimitStays(p: Query, page: Page)
    ensures Next(p, page).limit == p.limit
  {}

  lemma NoMoreIsAll(found: seq<Row>, limit: int)
    requires !PageOf(found, limit).hasMore
    ensures PageOf(found, limit).entries == found
  {}

  lemma {:induction false} NothingAtZero(env: Env, tables: seq<Table>, p: Query)
    requires p.limit == 0
    ensures Follow(env, tables, p) == []
    decreases |tables|
  {
    hide Select, ClausesOf, PageOf, Next;
    if tables != [] {
      var page := PageAt(env, tables[0], p);
      PageMeans(Select(env, tables[0], ClausesOf(env, p)), 0);
      LimitStays(p, page);
      NothingAtZero(env, tables[1..], Next(p, page));
    }
  }

  /** The wanted rows after the page all have ids below the start cursor's. */
  predicate IdsContinue(env: Env, t: Table, p: Query, page: Page) {
    p.beforeId.Some? && page.entries != [] ==>
      forall i | 0 <= i < |t| && Wanted(env, p, t[i]) && Above(page.entries[|page.entries| - 1], t[i]) ::
        t[i].id < p.beforeId.value
  }

  /** The cursor of a first page that has more, whatever the start: the walk goes on with the
      wanted rows of the table that come after the page. */
  lemma RestOfWalk(env: Env, tables: seq<Table>, p: Query)
    requires Proper(env, tables) && p.limit != 0 && Undisturbed(env, tables, p) && Finished(env, tables, p)
    requires PageAt(env, tables[0], p).hasMore
    ensures var page := PageAt(env, tables[0], p);
            var rest := Follow(env, tables[1..], Next(p, page));
            && page.entries != [] && page.entries[|page.entries| - 1] in tables[0]
            && Descending(rest)
            && (forall r :: r in rest <==>
                  r in tables[0] && Wanted(env, p, r) && Above(page.entries[|page.entries| - 1], r))
  {
    hide Select, ClausesOf, Wanted, PageOf, Descending, Above;
    var t, t' := tables[0], tables[1];
    var found := Select(env, t, ClausesOf(env, p));
    var page := PageAt(env, t, p);
    PageMeans(found, p.limit);
    SelectMembers(env, t, p);
    var last := page.entries[|page.entries| - 1];
    assert last == found[|page.entries| - 1] && last in found;
    var p' := Next(p, page);
    FollowCollectsAll(env, tables[1..], p');
    SelectMembers(env, t', p');
    forall r ensures Wanted(env, p', r) && BelowCursor(env, p', r) <==> Wanted(env, p, r) && Above(last, r) {
      WantedKeeps(env, p, p', r);
      BelowIsAbove(env, p', last, r);
    }
  }

  lemma BelowIsAbove(env: Env, p: Query, last: Row, r: Row)
    requires p.beforeId == Some(last.id) && last.id > 0
    requires p.beforeTs.Some? && env.epochOf(p.beforeTs.value) == last.epoch
    ensures BelowCursor(env, p, r) <==> Above(last, r)
  {}

  /** A start cursor that has an id but no timestamp filters by id alone, while the cursors after
      it order by timestamp. The walk collects what its start selects exactly when there is one
      page, or when every wanted row after the first page has an id below the start's. */
  lemma IdOnlyStartExactly(env: Env, tables: seq<Table>, p: Query)
    requires Proper(env, tables) && p.limit != 0 && Undisturbed(env, tables, p) && Finished(env, tables, p)
    requires !FullCursor(p)
    ensures var page := PageAt(env, tables[0], p);
            (Follow(env, tables, p) == Select(env, tables[0], ClausesOf(env, p)))
            <==> (!page.hasMore || IdsContinue(env, tables[0], p, page))
  {
    hide Select, ClausesOf, Wanted, PageOf, Descending, Above, Next, Undisturbed, WellKeyed, Dated;
    var t := tables[0];
    var found := Select(env, t, ClausesOf(env, p));
    var page := PageAt(env, t, p);
    PageMeans(found, p.limit);
    if page.hasMore {
      RestOfWalk(env, tables, p);
      var m := |page.entries|;
      var rest, left := Follow(env, tables[1..], Next(p, page)), found[m..];
      assert found == page.entries + left;
      assert Follow(env, tables, p) == page.entries + rest;
      AppendSame(page.entries, rest, left);
      SelectMembers(env, t, p);
      var last := page.entries[m - 1];
      assert last == found[m - 1];
      forall r ensures r in left <==> r in found && Above(last, r) { SplitDescending(found, m, r); }
      SplitDescending(found, m, last);
      if rest == left {
        forall i | 0 <= i < |t| && Wanted(env, p, t[i]) && Above(last, t[i]) ensures t[i].id < p.beforeId.value {
          assert t[i] in rest;
          assert t[i] in found;
        }
      } else {
        if IdsContinue(env, t, p, page) {
          UniqueDescending(rest, left);
        }
      }
    } else {
      NoMoreIsAll(found, p.limit);
      assert page.entries + [] == page.entries;
    }
  }

  lemma AppendSame<T>(a: seq<T>, b: seq<T>, c: seq<T>)
    ensures a + b == a + c <==> b == c
  {
    if a + b == a + c { assert (a + b)[|a|..] == b && (a + c)[|a|..] == c; }
  }

  /** When a finished walk has collected exactly what its start selects, for every start and
      every limit. */
  predicate Collects(env: Env, t: Table, p: Query) {
    var page := PageAt(env, t, p);
    if p.limit == 0 then Select(env, t, ClausesOf(env, p)) == []
    else FullCursor(p) || !page.hasMore || IdsContinue(env, t, p, page)
  }

  lemma FollowIsCompleteExactly(env: Env, tables: seq<Table>, p: Query)
    requires Proper(env, tables) && Undisturbed(env, tables, p) && Finished(env, tables, p)
    ensures (Follow(env, tables, p) == Select(env, tables[0], ClausesOf(env, p))) <==> Collects(env, tables[0], p)
  {
    hide Select, ClausesOf, Undisturbed, Proper, FullCursor, IdsContinue, PageAt, Follow, Finished;
    if p.limit == 0 {
      NothingAtZero(env, tables, p);
    } else if FullCursor(p) {
      FollowCollectsAll(env, tables, p);
    } else {
      IdOnlyStartExactly(env, tables, p);
    }
  }

  /** And the walk does finish: one request more than there are matching rows is enough. */
  lemma {:induction false} FollowFinishes(env: Env, tables: seq<Table>, p: Query)
    requires Proper(env, tables) && FullCursor(p) && p.limit != 0 && Undisturbed(env, tables, p)
    requires tables != [] && |tables| > |Select(env, tables[0], ClausesOf(env, p))|
    ensures Finished(env, tables, p)
    decreases |tables|
  {
    hide Select, ClausesOf, SameBelow, PageOf, WellKeyed, Dated, FullCursor, Next;
    var found := Select(env, tables[0], ClausesOf(env, p));
    var page := PageAt(env, tables[0], p);
    PageMeans(found, p.limit);
    if page.hasMore {
      NextSelectsRest(env, tables[0], tables[1], p);
      LimitStays(p, page);
      FollowFinishes(env, tables[1..], Next(p, page));
    }
  }

  // ---- A start cursor without its timestamp --------------------------------

  const ROW_A := Row(1, 5.0, "a", None, None, "")
  const ROW_B := Row(20, 4.0, "b", None, None, "")
  const ROW_C := Row(2, 3.0, "c", None, None, "")

  /** And it can fail: a walk from such a start that collects a row the start had excluded. */
  lemma IdOnlyStartCollectsMore(env: Env)
    requires env.lower("") != "authenticity" && env.epochOf("a") == 5.0
    ensures var t := [ROW_A, ROW_B, ROW_C];
            var p := Query("", "", "", "", "", 1, Some(10), None);
            && WellKeyed(t)
            && ROW_B in Follow(env, [t, t, t], p)
            && ROW_B !in Select(env, t, ClausesOf(env, p))
  {
    hide Select, ClausesOf;
    var t := [ROW_A, ROW_B, ROW_C];
    var p := Query("", "", "", "", "", 1, Some(10), None);
    SelectMembers(env, t, p);
    UniqueDescending(Select(env, t, ClausesOf(env, p)), [ROW_A, ROW_C]);
    var page := PageAt(env, t, p);
    assert page.entries == [ROW_A] && page.hasMore && page.nextId == Some(1) && page.nextTs == Some("a");
    var p' := Next(p, page);
    SelectMembers(env, t, p');
    UniqueDescending(Select(env, t, ClausesOf(env, p')), [ROW_B, ROW_C]);
    var page' := PageAt(env, t, p');
    assert page'.entries == [ROW_B];
    assert [t, t, t][1..] == [t, t];
    assert ROW_B in Follow(env, [t, t], p');
  }
}
