/** The event list and detail queries (`handlers/events.py`) over the rows
    of the `events` table: filter, order newest first, take a page. Times
    are compared as the stored RFC 3339 text, as SQLite compares them. */
module EventsQuery {
  import opened Wrappers
  import opened Text
  import opened Schemas
  import opened IngestUtils

  /** The largest page the list query returns. */
  const MaxLimit := 500

  /** The requested page size clamped to [1, `MaxLimit`]. */
  function ClampLimit(limit: int): (r: int)
    ensures 1 <= r <= MaxLimit
    ensures 1 <= limit <= MaxLimit ==> r == limit
    ensures limit < 1 ==> r == 1
    ensures limit > MaxLimit ==> r == MaxLimit
  {
    var capped := if limit < MaxLimit then limit else MaxLimit;
    if capped < 1 then 1 else capped
  }

  /** The list query's parameters. Time bounds are the `isoformat()` text
      of the UTC datetime the caller passed; list filters may be absent or
      empty. */
  datatype EventsRequest = EventsRequest(
    from: Option<string>,
    to: Option<string>,
    app: Option<seq<string>>,
    eventType: Option<seq<string>>,
    level: Option<seq<string>>,
    userId: Option<string>,
    srcIp: Option<string>,
    requestId: Option<string>,
    httpStatus: Option<int>,
    q: Option<string>,
    limit: int,
    beforeTs: Option<string>,
    beforeId: Option<int>)

  /** The keyset cursor: the time and identifier of the last row already
      shown. */
  datatype Cursor = Cursor(ts: string, id: int)

  /** The `ValueError` the list query raises for half a cursor. */
  datatype QueryError = CursorIncomplete

  /** The `EventDetailsNotFound` error of the detail query. */
  datatype NotFound = NotFound(id: int)

  /** The `WHERE` clause of the list query, with times already rendered as
      stored. */
  datatype Conditions = Conditions(
    from: Option<string>,
    to: Option<string>,
    apps: Option<seq<string>>,
    eventTypes: Option<seq<string>>,
    levels: Option<seq<string>>,
    userId: Option<string>,
    srcIp: Option<string>,
    requestId: Option<string>,
    httpStatus: Option<int>,
    q: Option<string>,
    cursor: Option<Cursor>)

  function Render(t: Option<string>): (r: Option<string>)
    ensures r.Some? <==> t.Some?
    ensures t.Some? ==> r.value == DtToUtcRfc3339Z(t.value)
  {
    if t.None? then None else Some(DtToUtcRfc3339Z(t.value))
  }

  /** `column IN list`, applied only for a non-empty list; a NULL column
      never matches. */
  predicate InList(value: Option<string>, list: Option<seq<string>>) {
    list.None? || |list.value| == 0 || (value.Some? && value.value in list.value)
  }

  /** `column == given`, applied only when a value is given; a NULL column
      never matches. */
  predicate EqualsGiven<T(==)>(value: Option<T>, given: Option<T>) {
    given.None? || value == given
  }

  /** `column.contains(q)`: SQLite's `LIKE '%q%'`, which ignores ASCII case;
      a NULL column never matches. */
  predicate ContainsText(value: Option<string>, q: string) {
    value.Some? && Contains(CaseFold(value.value), CaseFold(q))
  }

  /** Every filter except the cursor. */
  predicate Filtered(c: Conditions, e: Event) {
    && (c.from.None? || !StrLt(e.ts, c.from.value))
    && (c.to.None? || !StrLt(c.to.value, e.ts))
    && InList(e.app, c.apps)
    && InList(e.eventType, c.eventTypes)
    && InList(e.level, c.levels)
    && EqualsGiven(e.userId, c.userId)
    && EqualsGiven(e.srcIp, c.srcIp)
    && EqualsGiven(e.requestId, c.requestId)
    && EqualsGiven(e.httpStatus, c.httpStatus)
    && (c.q.None? || ContainsText(e.message, c.q.value) || ContainsText(e.httpPath, c.q.value))
  }

  /** The keyset condition: strictly after the cursor in the list order. */
  predicate AfterCursor(cursor: Option<Cursor>, r: Row) {
    cursor.None? || StrLt(r.event.ts, cursor.value.ts) || (r.event.ts == cursor.value.ts && r.id < cursor.value.id)
  }

  predicate Matches(c: Conditions, r: Row) {
    Filtered(c, r.event) && AfterCursor(c.cursor, r)
  }

  /** `a` may be listed before `b`: newer time, or the same time and a
      larger or equal identifier. */
  predicate NotAfter(a: Row, b: Row) {
    StrLt(b.event.ts, a.event.ts) || (a.event.ts == b.event.ts && a.id >= b.id)
  }

  predicate NewestFirst(rows: seq<Row>) {
    forall i, j | 0 <= i < j < |rows| :: NotAfter(rows[i], rows[j])
  }

  lemma NotAfterTotal(a: Row, b: Row)
    ensures NotAfter(a, b) || NotAfter(b, a)
  {
    StrLtTotal(a.event.ts, b.event.ts);
  }

  lemma NotAfterTransitive(a: Row, b: Row, c: Row)
    requires NotAfter(a, b) && NotAfter(b, c)
    ensures NotAfter(a, c)
  {
    if StrLt(b.event.ts, a.event.ts) && StrLt(c.event.ts, b.event.ts) {
      StrLtTransitive(c.event.ts, b.event.ts, a.event.ts);
    }
  }

  /** The rows that pass the `WHERE` clause, in table order. */
  function FilterRows(rows: seq<Row>, c: Conditions): seq<Row> {
    if |rows| == 0 then []
    else (if Matches(c, rows[0]) then [rows[0]] else []) + FilterRows(rows[1..], c)
  }

  /** Places `x` before the first row it may precede. */
  function Insert(x: Row, sorted: seq<Row>): seq<Row> {
    if |sorted| == 0 then [x]
    else if NotAfter(x, sorted[0]) then [x] + sorted
    else [sorted[0]] + Insert(x, sorted[1..])
  }

  /** `ORDER BY ts DESC, id DESC`. */
  function SortNewestFirst(rows: seq<Row>): seq<Row> {
    if |rows| == 0 then [] else Insert(rows[0], SortNewestFirst(rows[1..]))
  }

  /** Filter, order, take the first `limit`. */
  function Select(rows: seq<Row>, c: Conditions, limit: nat): seq<Row> {
    var all := SortNewestFirst(FilterRows(rows, c));
    if limit < |all| then all[..limit] else all
  }

  /** The conditions the list query builds from its parameters. */
  function ConditionsOf(req: EventsRequest): Conditions
    requires req.beforeTs.Some? == req.beforeId.Some?
  {
    Conditions(Render(req.from), Render(req.to), req.app, req.eventType, req.level,
               req.userId, req.srcIp, req.requestId, req.httpStatus, req.q,
               if req.beforeTs.Some? then Some(Cursor(DtToUtcRfc3339Z(req.beforeTs.value), req.beforeId.value)) else None)
  }

  /** `get_events_all` over the stored rows. */
  function GetEventsAll(rows: seq<Row>, req: EventsRequest): (r: Result<seq<Row>, QueryError>)
    ensures r.Err? <==> req.beforeTs.Some? != req.beforeId.Some?
    ensures r.Ok? ==> 1 <= ClampLimit(req.limit) && |r.value| <= ClampLimit(req.limit)
  {
    var limit := ClampLimit(req.limit);
    if req.beforeTs.Some? || req.beforeId.Some? then
      if req.beforeTs.None? || req.beforeId.None? then Err(CursorIncomplete)
      else Ok(Select(rows, ConditionsOf(req), limit))
    else Ok(Select(rows, ConditionsOf(req), limit))
  }

  /** `get_event_details`: the row with identifier `id`, or `NotFound`. */
  function GetEventDetails(rows: seq<Row>, id: int): (r: Result<Row, NotFound>)
    ensures r.Ok? ==> r.value in rows && r.value.id == id
    ensures r.Err? <==> forall row | row in rows :: row.id != id
    ensures r.Err? ==> r.error == NotFound(id)
  {
    if |rows| == 0 then Err(NotFound(id))
    else if rows[0].id == id then Ok(rows[0])
    else GetEventDetails(rows[1..], id)
  }

  /** A row passes the `WHERE` clause exactly when it is stored and matches;
      filtering keeps every matching row with its multiplicity. */
  lemma {:induction false} FilterRowsMembers(rows: seq<Row>, c: Conditions)
    ensures forall r :: r in FilterRows(rows, c) <==> r in rows && Matches(c, r)
    ensures forall r | Matches(c, r) :: multiset(FilterRows(rows, c))[r] == multiset(rows)[r]
    ensures forall r | !Matches(c, r) :: multiset(FilterRows(rows, c))[r] == 0
  {
    if |rows| > 0 {
      FilterRowsMembers(rows[1..], c);
      assert rows == [rows[0]] + rows[1..];
    }
  }

  /** A row that may precede every row of an ordered list may head it. */
  lemma ConsOrdered(h: Row, s: seq<Row>)
    requires NewestFirst(s)
    requires forall y | y in s :: NotAfter(h, y)
    ensures NewestFirst([h] + s)
  {
    var r := [h] + s;
    forall i, j | 0 <= i < j < |r|
      ensures NotAfter(r[i], r[j])
    {
      assert r[j] == s[j - 1];
      if i > 0 {
        assert r[i] == s[i - 1];
      }
    }
  }

  /** Inserting adds exactly `x`. */
  lemma {:induction false} InsertAdds(x: Row, sorted: seq<Row>)
    ensures multiset(Insert(x, sorted)) == multiset(sorted) + multiset{x}
  {
    if |sorted| > 0 && !NotAfter(x, sorted[0]) {
      InsertAdds(x, sorted[1..]);
      assert sorted == [sorted[0]] + sorted[1..];
    }
  }

  /** Inserting into an ordered list keeps it ordered. */
  lemma {:induction false} InsertOrdered(x: Row, sorted: seq<Row>)
    requires NewestFirst(sorted)
    ensures NewestFirst(Insert(x, sorted))
  {
    if |sorted| > 0 {
      if NotAfter(x, sorted[0]) {
        forall y | y in sorted
          ensures NotAfter(x, y)
        {
          var j :| 0 <= j < |sorted| && sorted[j] == y;
          if j > 0 {
            NotAfterTransitive(x, sorted[0], y);
          }
        }
        ConsOrdered(x, sorted);
      } else {
        NotAfterTotal(x, sorted[0]);
        var tail := sorted[1..];
        InsertOrdered(x, tail);
        InsertAdds(x, tail);
        var ins := Insert(x, tail);
        forall y | y in ins
          ensures NotAfter(sorted[0], y)
        {
          assert y in multiset(ins);
          if y != x {
            assert y in multiset(tail);
            var j :| 0 <= j < |tail| && tail[j] == y;
            assert sorted[j + 1] == y;
          }
        }
        ConsOrdered(sorted[0], ins);
      }
    }
  }

  /** Ordering yields a list newest first. */
  lemma {:induction false} SortNewestFirstOrders(rows: seq<Row>)
    ensures NewestFirst(SortNewestFirst(rows))
  {
    if |rows| > 0 {
      SortNewestFirstOrders(rows[1..]);
      InsertOrdered(rows[0], SortNewestFirst(rows[1..]));
    }
  }

  /** Ordering keeps the rows, each as often as before. */
  lemma {:induction false} SortNewestFirstPermutes(rows: seq<Row>)
    ensures multiset(SortNewestFirst(rows)) == multiset(rows)
  {
    if |rows| > 0 {
      SortNewestFirstPermutes(rows[1..]);
      InsertAdds(rows[0], SortNewestFirst(rows[1..]));
      assert rows == [rows[0]] + rows[1..];
    }
  }

  /** Every stored matching row is in the ordered result. */
  lemma MatchesAreListed(rows: seq<Row>, c: Conditions)
    ensures forall r | r in rows && Matches(c, r) :: r in SortNewestFirst(FilterRows(rows, c))
  {
    var filtered := FilterRows(rows, c);
    FilterRowsMembers(rows, c);
    SortNewestFirstPermutes(filtered);
    forall r | r in rows && Matches(c, r)
      ensures r in SortNewestFirst(filtered)
    {
      assert r in multiset(filtered);
    }
  }

  /** Every listed row is stored and satisfies every supplied filter and
      the cursor; the page is ordered newest first; it holds `limit` rows
      or every matching row. */
  lemma SelectSound(rows: seq<Row>, c: Conditions, limit: nat)
    ensures var page := Select(rows, c, limit);
      && (forall r | r in page :: r in rows && Matches(c, r))
      && NewestFirst(page)
      && |page| == (if limit < |FilterRows(rows, c)| then limit else |FilterRows(rows, c)|)
  {
    var filtered := FilterRows(rows, c);
    var all := SortNewestFirst(filtered);
    FilterRowsMembers(rows, c);
    SortNewestFirstOrders(filtered);
    SortNewestFirstPermutes(filtered);
    assert |all| == |filtered| by {
      assert |multiset(all)| == |multiset(filtered)|;
    }
    var page := Select(rows, c, limit);
    forall r | r in page
      ensures r in rows && Matches(c, r)
    {
      assert r in multiset(all);
    }
  }

  /** Taking the first `limit` rows of an ordered list leaves off only
      rows that come after every row taken, and only when `limit` were
      taken. */
  lemma TakeIsTop(all: seq<Row>, limit: nat)
    requires NewestFirst(all)
    ensures var page := if limit < |all| then all[..limit] else all;
      forall r | r in all && r !in page :: |page| == limit && forall p | p in page :: NotAfter(p, r)
  {
    var page := if limit < |all| then all[..limit] else all;
    forall r | r in all && r !in page
      ensures |page| == limit && forall p | p in page :: NotAfter(p, r)
    {
      var j :| 0 <= j < |all| && all[j] == r;
      assert j >= |page|;
      forall p | p in page
        ensures NotAfter(p, r)
      {
        var i :| 0 <= i < |page| && page[i] == p;
        assert all[i] == p;
      }
    }
  }

  /** The page is the start of the full ordered result, and a matching row
      left off the page comes after every row on it: the page is the
      newest `limit` matching rows. */
  lemma SelectIsTop(rows: seq<Row>, c: Conditions, limit: nat)
    ensures var all := SortNewestFirst(FilterRows(rows, c));
      var page := Select(rows, c, limit);
      && IsPrefix(page, all)
      && forall r | r in rows && Matches(c, r) && r !in page ::
           |page| == limit && forall p | p in page :: NotAfter(p, r)
  {
    var all := SortNewestFirst(FilterRows(rows, c));
    MatchesAreListed(rows, c);
    SortNewestFirstOrders(FilterRows(rows, c));
    TakeIsTop(all, limit);
  }

  /** A request with a whole cursor or none is answered with the newest
      `ClampLimit(limit)` stored rows that satisfy every supplied filter,
      newest first. */
  lemma GetEventsAllPage(rows: seq<Row>, req: EventsRequest)
    requires req.beforeTs.Some? == req.beforeId.Some?
    ensures GetEventsAll(rows, req).Ok?
    ensures var page := GetEventsAll(rows, req).value;
      var c := ConditionsOf(req);
      && (forall r | r in page :: r in rows && Matches(c, r))
      && NewestFirst(page)
      && (forall r | r in rows && Matches(c, r) && r !in page ::
            |page| == ClampLimit(req.limit) && forall p | p in page :: NotAfter(p, r))
  {
    var c := ConditionsOf(req);
    var limit := ClampLimit(req.limit);
    assert GetEventsAll(rows, req) == Ok(Select(rows, c, limit));
    SelectSound(rows, c, limit);
    SelectIsTop(rows, c, limit);
  }

  /** Every row of a page satisfies every filter the request supplies, in
      the request's own terms: the time bounds, the non-empty lists, the
      exact values, the text search and the cursor. */
  lemma GetEventsAllFilters(rows: seq<Row>, req: EventsRequest, r: Row)
    requires GetEventsAll(rows, req).Ok? && r in GetEventsAll(rows, req).value
    ensures r in rows
    ensures req.from.Some? ==> !StrLt(r.event.ts, DtToUtcRfc3339Z(req.from.value))
    ensures req.to.Some? ==> !StrLt(DtToUtcRfc3339Z(req.to.value), r.event.ts)
    ensures req.app.Some? && req.app.value != [] ==> r.event.app.Some? && r.event.app.value in req.app.value
    ensures req.eventType.Some? && req.eventType.value != [] ==> r.event.eventType.Some? && r.event.eventType.value in req.eventType.value
    ensures req.level.Some? && req.level.value != [] ==> r.event.level.Some? && r.event.level.value in req.level.value
    ensures req.userId.Some? ==> r.event.userId == req.userId
    ensures req.srcIp.Some? ==> r.event.srcIp == req.srcIp
    ensures req.requestId.Some? ==> r.event.requestId == req.requestId
    ensures req.httpStatus.Some? ==> r.event.httpStatus == req.httpStatus
    ensures req.q.Some? ==> ContainsText(r.event.message, req.q.value) || ContainsText(r.event.httpPath, req.q.value)
    ensures req.beforeTs.Some? ==>
      var bts := DtToUtcRfc3339Z(req.beforeTs.value);
      StrLt(r.event.ts, bts) || (r.event.ts == bts && r.id < req.beforeId.value)
  {
    GetEventsAllPage(rows, req);
    assert Matches(ConditionsOf(req), r);
  }

  /** An empty list filter is no filter. */
  lemma EmptyListIsNoFilter(value: Option<string>)
    ensures InList(value, Some([])) == InList(value, None)
    ensures InList(value, None)
  {
  }

  /** Identifiers are unique among the rows. */
  predicate UniqueIds(rows: seq<Row>) {
    forall i, j | 0 <= i < |rows| && 0 <= j < |rows| && rows[i].id == rows[j].id :: rows[i] == rows[j]
  }

  /** A row on a newest-first page is not after the page's last row's
      cursor. */
  lemma PageRowNotAfterCursor(page: seq<Row>, i: nat)
    requires NewestFirst(page) && i < |page|
    ensures !AfterCursor(Some(Cursor(page[|page| - 1].event.ts, page[|page| - 1].id)), page[i])
  {
    var last := page[|page| - 1];
    var r := page[i];
    if i < |page| - 1 {
      assert NotAfter(r, last);
    }
    StrLtIrreflexive(r.event.ts);
    if StrLt(last.event.ts, r.event.ts) {
      StrLtAsymmetric(last.event.ts, r.event.ts);
    }
  }

  /** A row that comes after the last row, and is not that row, is after
      its cursor when identifiers are unique. */
  lemma AfterLastIsAfterCursor(rows: seq<Row>, last: Row, r: Row)
    requires UniqueIds(rows) && last in rows && r in rows && r != last
    requires NotAfter(last, r)
    ensures AfterCursor(Some(Cursor(last.event.ts, last.id)), r)
  {
    var i :| 0 <= i < |rows| && rows[i] == r;
    var k :| 0 <= k < |rows| && rows[k] == last;
    assert r.id != last.id;
  }

  /** Keyset paging neither skips nor repeats: with the last row of a page
      as the cursor of the next request, a matching row is on the next
      page's candidates exactly when it was not on this page. */
  lemma NextPageContinues(rows: seq<Row>, c: Conditions, limit: nat)
    requires UniqueIds(rows)
    requires |Select(rows, c, limit)| > 0
    ensures var page := Select(rows, c, limit);
      var last := page[|page| - 1];
      var next := c.(cursor := Some(Cursor(last.event.ts, last.id)));
      forall r | r in rows && Matches(c, r) :: r in page <==> !Matches(next, r)
  {
    var page := Select(rows, c, limit);
    var last := page[|page| - 1];
    var next := c.(cursor := Some(Cursor(last.event.ts, last.id)));
    SelectSound(rows, c, limit);
    SelectIsTop(rows, c, limit);
    assert last in page;
    forall r | r in rows && Matches(c, r)
      ensures r in page <==> !Matches(next, r)
    {
      if r in page {
        var i :| 0 <= i < |page| && page[i] == r;
        PageRowNotAfterCursor(page, i);
      } else {
        AfterLastIsAfterCursor(rows, last, r);
      }
    }
  }
}
