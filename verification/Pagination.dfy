/**
 * Keyset pagination as the three `findAll` methods do it: newest first, one row
 * more than the page to see whether there is a next one, and a cursor made from
 * the last row returned. Creation times are microseconds, as the columns hold
 * them; the cursor holds the milliseconds of a JavaScript date. Ids are numbers
 * in the order in which the database compares them.
 */
module Pagination {
  import opened Wrappers
  import opened Orders

  datatype Row<T> = Row(createdAt: nat, id: nat, body: T)

  datatype Cursor = Cursor(createdAt: nat, id: nat)

  datatype Page<T> = Page(data: seq<Row<T>>, nextCursor: Option<Cursor>, hasNextPage: bool)

  const MICROS_PER_MILLI := 1000

  /** The cursor of a row: what is left of its key after a trip through a JavaScript date. */
  function CursorOf<T>(r: Row<T>): Cursor {
    Cursor(r.createdAt / MICROS_PER_MILLI * MICROS_PER_MILLI, r.id)
  }

  /** `(createdAt, id) < (:createdAt, :id)`, which the listing of users spells out as below. */
  predicate BelowCursor(createdAt: nat, id: nat, c: Cursor) {
    createdAt < c.createdAt || (createdAt == c.createdAt && id < c.id)
  }

  predicate Below<T>(r: Row<T>, c: Option<Cursor>) {
    c.Some? ==> BelowCursor(r.createdAt, r.id, c.value)
  }

  /** ORDER BY createdAt DESC, id DESC: `a` comes before `b`. */
  predicate Before<T>(a: Row<T>, b: Row<T>) {
    b.createdAt < a.createdAt || (b.createdAt == a.createdAt && b.id < a.id)
  }

  predicate Descending<T>(s: seq<Row<T>>) {
    forall i, j :: 0 <= i < j < |s| ==> Before(s[i], s[j])
  }

  /** Ids are primary keys. */
  predicate DistinctIds<T>(s: seq<Row<T>>) {
    forall i, j :: 0 <= i < j < |s| ==> s[i].id != s[j].id
  }

  function Insert<T(==,!new)>(r: Row<T>, s: seq<Row<T>>): (out: seq<Row<T>>)
    ensures |out| == |s| + 1
  {
    if s == [] then [r]
    else if Before(r, s[0]) then [r] + s
    else [s[0]] + Insert(r, s[1..])
  }

  /** The rows that match and lie below the cursor, in descending order. */
  function Select<T(==,!new)>(table: seq<Row<T>>, matches: T -> bool, c: Option<Cursor>): (out: seq<Row<T>>)
    ensures |out| <= |table|
  {
    if table == [] then []
    else if matches(table[0].body) && Below(table[0], c) then Insert(table[0], Select(table[1..], matches, c))
    else Select(table[1..], matches, c)
  }

  function Take<T>(s: seq<T>, n: nat): seq<T> {
    if |s| <= n then s else s[..n]
  }

  /** The first page of a list, said without fetching one row too many and popping it. */
  function PageOf<T>(rows: seq<Row<T>>, limit: nat): Page<T>
    requires limit >= 1
  {
    if |rows| <= limit then Page(rows, None, false)
    else Page(rows[..limit], Some(CursorOf(rows[limit - 1])), true)
  }

  /** The page that follows a cursor. */
  function NextPage<T(==,!new)>(table: seq<Row<T>>, matches: T -> bool, c: Option<Cursor>, limit: nat): Page<T>
    requires limit >= 1
  {
    PageOf(Select(table, matches, c), limit)
  }

  /** Fetching one row more than the page and popping it. */
  lemma PoppedPage<T>(rows: seq<Row<T>>, limit: nat)
    ensures |Take(rows, limit + 1)| > limit <==> |rows| > limit
    ensures |rows| > limit ==> Take(rows, limit + 1)[..|Take(rows, limit + 1)| - 1] == rows[..limit]
    ensures |rows| <= limit ==> Take(rows, limit + 1) == rows
  {
  }

  // ----- one query

  lemma {:induction false} InsertMembers<T(!new)>(r: Row<T>, s: seq<Row<T>>)
    ensures forall x :: x in Insert(r, s) <==> x == r || x in s
  {
    if s != [] && !Before(r, s[0]) {
      assert s == [s[0]] + s[1..];
      InsertMembers(r, s[1..]);
    }
  }

  /** The query finds the rows that match and lie below the cursor, and no others. */
  lemma {:induction false} SelectMembers<T(!new)>(table: seq<Row<T>>, matches: T -> bool, c: Option<Cursor>)
    ensures forall x :: x in Select(table, matches, c) <==> x in table && matches(x.body) && Below(x, c)
  {
    if table != [] {
      assert table == [table[0]] + table[1..];
      SelectMembers(table[1..], matches, c);
      InsertMembers(table[0], Select(table[1..], matches, c));
    }
  }

  lemma {:induction false} InsertDescends<T(!new)>(r: Row<T>, s: seq<Row<T>>)
    requires Descending(s) && forall x :: x in s ==> x.id != r.id
    ensures Descending(Insert(r, s))
  {
    if s != [] && !Before(r, s[0]) {
      assert s[0] in s;
      assert forall x :: x in s[1..] ==> x in s;
      InsertDescends(r, s[1..]);
      InsertMembers(r, s[1..]);
      var tail := Insert(r, s[1..]);
      forall j | 0 <= j < |tail|
        ensures Before(s[0], tail[j])
      {
        assert tail[j] in tail;
        if tail[j] != r {
          var i :| 0 <= i < |s[1..]| && s[1..][i] == tail[j];
          assert tail[j] == s[i + 1];
        }
      }
    }
  }

  lemma {:induction false} SelectDescends<T(!new)>(table: seq<Row<T>>, matches: T -> bool, c: Option<Cursor>)
    requires DistinctIds(table)
    ensures Descending(Select(table, matches, c))
  {
    if table != [] {
      SelectDescends(table[1..], matches, c);
      SelectMembers(table[1..], matches, c);
      if matches(table[0].body) && Below(table[0], c) {
        forall x | x in Select(table[1..], matches, c)
          ensures x.id != table[0].id
        {
          var i :| 0 <= i < |table[1..]| && table[1..][i] == x;
          assert x == table[i + 1];
        }
        InsertDescends(table[0], Select(table[1..], matches, c));
      }
    }
  }

  lemma PageFacts<T(!new)>(table: seq<Row<T>>, matches: T -> bool, c: Option<Cursor>, limit: nat)
    requires limit >= 1 && DistinctIds(table)
    ensures var page := NextPage(table, matches, c, limit);
            && Descending(page.data)
            && (forall x :: x in page.data ==> x in table && matches(x.body) && Below(x, c))
            && (page.nextCursor.Some? ==>
                  |page.data| == limit && page.nextCursor == Some(CursorOf(page.data[limit - 1])))
            && (forall x :: x in Select(table, matches, c) && x !in page.data ==>
                  page.nextCursor.Some? && Before(page.data[limit - 1], x))
  {
    SelectDescends(table, matches, c);
    SelectMembers(table, matches, c);
    var rows := Select(table, matches, c);
    var page := NextPage(table, matches, c, limit);
    forall x | x in page.data
      ensures x in table && matches(x.body) && Below(x, c)
    {
      assert x in rows;
    }
    assert forall i :: 0 <= i < |page.data| ==> page.data[i] == rows[i];
    forall x | x in rows && x !in page.data
      ensures page.nextCursor.Some? && Before(page.data[limit - 1], x)
    {
      var i :| 0 <= i < |rows| && rows[i] == x;
      assert i >= |page.data|;
    }
  }

  /**
   * What a page is, said without the query: the wanted rows below the cursor, as
   * many as fit, newest first; what is left comes after; and there is a next
   * page, with the cursor of the last row, exactly when something is left.
   */
  ghost predicate Lists<T(!new)>(table: seq<Row<T>>, wanted: T -> bool, c: Option<Cursor>, limit: nat, page: Page<T>) {
    && Descending(page.data) && |page.data| <= limit
    && (forall x :: x in page.data ==> x in table && wanted(x.body) && Below(x, c))
    && (forall x :: x in table && wanted(x.body) && Below(x, c) && x !in page.data ==>
          && page.hasNextPage
          && |page.data| == limit
          && page.data != [] && Before(page.data[|page.data| - 1], x))
    && (page.hasNextPage ==> exists x :: x in table && wanted(x.body) && Below(x, c) && x !in page.data)
    && page.nextCursor == (
         if page.hasNextPage && page.data != []
         then var last := page.data[|page.data| - 1]; Some(Cursor(last.createdAt / 1000 * 1000, last.id))
         else None)
  }

  lemma NextPageLists<T(!new)>(table: seq<Row<T>>, matches: T -> bool, c: Option<Cursor>, limit: nat)
    requires limit >= 1 && DistinctIds(table)
    ensures Lists(table, matches, c, limit, NextPage(table, matches, c, limit))
  {
    var rows := Select(table, matches, c);
    var page := NextPage(table, matches, c, limit);
    PageFacts(table, matches, c, limit);
    SelectMembers(table, matches, c);
    SelectDescends(table, matches, c);
    if page.hasNextPage {
      var x := rows[limit];
      assert x in rows && Before(page.data[limit - 1], x);
      assert x !in page.data by {
        assert forall i :: 0 <= i < limit ==> page.data[i] == rows[i] && Before(rows[i], x);
      }
    }
  }

  /** Wanting the same rows is listing the same rows. */
  lemma ListsSame<T(!new)>(table: seq<Row<T>>, f: T -> bool, g: T -> bool, c: Option<Cursor>, limit: nat, page: Page<T>)
    requires Lists(table, f, c, limit, page) && forall x :: f(x) == g(x)
    ensures Lists(table, g, c, limit, page)
  {
  }

  // ----- the three listings

  function SafeLimit(limit: int): (r: nat)
    ensures 1 <= r <= 100
    ensures 1 <= limit <= 100 ==> r == limit
    ensures limit < 1 ==> r == 1
    ensures limit > 100 ==> r == 100
  {
    var low := if limit < 1 then 1 else limit;
    if low > 100 then 100 else low
  }

  lemma {:induction false} SelectSame<T(!new)>(table: seq<Row<T>>, f: T -> bool, g: T -> bool, c: Option<Cursor>)
    requires forall x :: f(x) == g(x)
    ensures Select(table, f, c) == Select(table, g, c)
  {
    if table != [] {
      SelectSame(table[1..], f, g, c);
    }
  }

  /** What the listings of orders and of drivers do once the query is built. */
  method FetchPage<T(==,!new)>(table: seq<Row<T>>, where: T -> bool, cursor: Option<Cursor>, safeLimit: nat)
    returns (page: Page<T>)
    requires safeLimit >= 1
    ensures page == NextPage(table, where, cursor, safeLimit)
  {
    var found := Select(table, where, cursor);
    var rows := Take(found, safeLimit + 1);
    PoppedPage(found, safeLimit);
    var hasNextPage := |rows| > safeLimit;
    if hasNextPage {
      rows := rows[..|rows| - 1];
    }
    var nextCursor := if hasNextPage then Some(CursorOf(rows[|rows| - 1])) else None;
    page := Page(rows, nextCursor, hasNextPage);
  }

  datatype OrderInfo = OrderInfo(customerId: string, orderStatus: OrderStatus, deleted: bool)

  predicate OrderVisible(user: JwtUser, status: Option<OrderStatus>, o: OrderInfo) {
    && !o.deleted
    && (user.role == Customer ==> o.customerId == user.userId)
    && (status.Some? ==> o.orderStatus == status.value)
  }

  /** OrdersService.findAll */
  method FindAllOrders(table: seq<Row<OrderInfo>>, user: JwtUser, limit: int, cursor: Option<Cursor>,
                       status: Option<OrderStatus>)
    returns (page: Page<OrderInfo>)
    ensures page == NextPage(table, (o: OrderInfo) => OrderVisible(user, status, o), cursor, SafeLimit(limit))
    ensures DistinctIds(table) ==>
              Lists(table,
                    (o: OrderInfo) =>
                      && !o.deleted
                      && (user.role == Customer ==> o.customerId == user.userId)
                      && (status.Some? ==> o.orderStatus == status.value),
                    cursor, if limit < 1 then 1 else if limit > 100 then 100 else limit, page)
  {
    var where := (o: OrderInfo) => !o.deleted;
    if user.role == Customer {
      var base := where;
      where := (o: OrderInfo) => base(o) && o.customerId == user.userId;
    }
    if status.Some? {
      var base := where;
      where := (o: OrderInfo) => base(o) && o.orderStatus == status.value;
    }
    page := FetchPage(table, where, cursor, SafeLimit(limit));
    SelectSame(table, where, (o: OrderInfo) => OrderVisible(user, status, o), cursor);
    if DistinctIds(table) {
      NextPageLists(table, where, cursor, SafeLimit(limit));
      ListsSame(table, where,
                (o: OrderInfo) =>
                  && !o.deleted
                  && (user.role == Customer ==> o.customerId == user.userId)
                  && (status.Some? ==> o.orderStatus == status.value),
                cursor, SafeLimit(limit), page);
    }
  }

  datatype DriverInfo = DriverInfo(onlineStatus: bool)

  predicate DriverVisible(onlineOnly: bool, d: DriverInfo) {
    onlineOnly ==> d.onlineStatus
  }

  /** DriversService.findAll */
  method FindAllDrivers(table: seq<Row<DriverInfo>>, limit: int, cursor: Option<Cursor>, onlineOnly: bool)
    returns (page: Page<DriverInfo>)
    ensures page == NextPage(table, (d: DriverInfo) => DriverVisible(onlineOnly, d), cursor, SafeLimit(limit))
    ensures DistinctIds(table) ==>
              Lists(table, (d: DriverInfo) => onlineOnly ==> d.onlineStatus,
                    cursor, if limit < 1 then 1 else if limit > 100 then 100 else limit, page)
  {
    var where := (d: DriverInfo) => true;
    if onlineOnly {
      where := (d: DriverInfo) => d.onlineStatus;
    }
    page := FetchPage(table, where, cursor, SafeLimit(limit));
    SelectSame(table, where, (d: DriverInfo) => DriverVisible(onlineOnly, d), cursor);
    if DistinctIds(table) {
      NextPageLists(table, where, cursor, SafeLimit(limit));
      ListsSame(table, where, (d: DriverInfo) => onlineOnly ==> d.onlineStatus, cursor, SafeLimit(limit), page);
    }
  }

  const EVERY_USER: (()) -> bool := u => true

  /**
   * UsersService.findAll. The limit is taken as given. A limit of zero makes the
   * method throw (it asks an empty array for its last element) unless nothing at
   * all is left to list. For a negative one the database library is asked for
   * fewer rows than one: `answer` is what it makes of that, `None` if it throws.
   */
  method FindAllUsers(table: seq<Row<()>>, limit: int, cursor: Option<Cursor>, answer: Option<seq<Row<()>>>)
    returns (page: Option<Page<()>>)
    ensures limit >= 1 ==> page == Some(NextPage(table, EVERY_USER, cursor, limit))
    ensures limit >= 1 && DistinctIds(table) ==> page.Some? && Lists(table, EVERY_USER, cursor, limit, page.value)
    ensures limit == 0 ==> (page.None? <==> Select(table, EVERY_USER, cursor) != [])
    ensures limit == 0 && page.Some? ==> page == Some(Page([], None, false))
    ensures limit < 0 ==> (page.Some? <==> answer.Some? && |answer.value| >= 2)
    ensures limit < 0 && page.Some? ==>
              && page.value.data == answer.value[..|answer.value| - 1]
              && page.value.nextCursor == Some(CursorOf(answer.value[|answer.value| - 2]))
              && page.value.hasNextPage
  {
    var found := Select(table, EVERY_USER, cursor);
    var users: seq<Row<()>>;
    if limit >= 0 {
      PoppedPage(found, limit);
      users := Take(found, limit + 1);
    } else {
      if answer.None? { return None; }
      users := answer.value;
    }
    var hasMore := |users| > limit;
    if hasMore {
      if |users| > 0 { users := users[..|users| - 1]; }
      if |users| == 0 { return None; }
    }
    var nextCursor := if hasMore then Some(CursorOf(users[|users| - 1])) else None;
    page := Some(Page(users, nextCursor, hasMore));
    if limit >= 1 && DistinctIds(table) {
      NextPageLists(table, EVERY_USER, cursor, limit);
    }
  }

  // ----- traversals

  /** The pages of a traversal; `tables[i]` is the table as the i-th request finds it. */
  function Traverse<T(==,!new)>(tables: seq<seq<Row<T>>>, matches: T -> bool, c: Option<Cursor>,
                                limit: nat): seq<Page<T>>
    requires limit >= 1
  {
    if tables == [] then []
    else
      var page := NextPage(tables[0], matches, c, limit);
      [page] + (if page.nextCursor.None? then [] else Traverse(tables[1..], matches, page.nextCursor, limit))
  }

  function Rows<T>(pages: seq<Page<T>>): seq<Row<T>> {
    if pages == [] then [] else pages[0].data + Rows(pages[1..])
  }

  /** The traversal ran to its end: the last page had no next cursor. */
  predicate Complete<T>(pages: seq<Page<T>>) {
    pages != [] && pages[|pages| - 1].nextCursor.None?
  }

  predicate TablesOk<T>(tables: seq<seq<Row<T>>>) {
    forall i :: 0 <= i < |tables| ==> DistinctIds(tables[i])
  }

  /** A row never changes its creation time; all else about the tables may change between requests. */
  ghost predicate KeysImmutable<T(!new)>(tables: seq<seq<Row<T>>>) {
    forall i, j, x, y :: 0 <= i < |tables| && 0 <= j < |tables| && x in tables[i] && y in tables[j] && x.id == y.id
      ==> x.createdAt == y.createdAt
  }

  lemma CompleteRest<T(!new)>(tables: seq<seq<Row<T>>>, matches: T -> bool, c: Option<Cursor>, limit: nat)
    requires limit >= 1 && tables != [] && NextPage(tables[0], matches, c, limit).nextCursor.Some?
    ensures var page := NextPage(tables[0], matches, c, limit);
            var pages := Traverse(tables, matches, c, limit);
            var rest := Traverse(tables[1..], matches, page.nextCursor, limit);
            && pages == [page] + rest
            && Rows(pages) == page.data + Rows(rest)
            && (Complete(pages) ==> Complete(rest))
  {
    var page := NextPage(tables[0], matches, c, limit);
    var rest := Traverse(tables[1..], matches, page.nextCursor, limit);
    assert ([page] + rest)[1..] == rest;
  }

  lemma CompletePrepended<T(!new)>(tables: seq<seq<Row<T>>>, matches: T -> bool, c: Option<Cursor>, limit: nat)
    requires limit >= 1 && tables != [] && NextPage(tables[0], matches, c, limit).nextCursor.Some?
    ensures var next := NextPage(tables[0], matches, c, limit).nextCursor;
            Complete(Traverse(tables[1..], matches, next, limit)) ==> Complete(Traverse(tables, matches, c, limit))
  {
  }

  /** The row stands in one of the tables. */
  predicate InSome<T(==)>(tables: seq<seq<Row<T>>>, x: Row<T>) {
    exists i :: 0 <= i < |tables| && x in tables[i]
  }

  lemma InSomeTail<T(!new)>(tables: seq<seq<Row<T>>>, x: Row<T>)
    requires tables != [] && InSome(tables[1..], x)
    ensures InSome(tables, x)
  {
    var i :| 0 <= i < |tables[1..]| && x in tables[1..][i];
    assert x in tables[i + 1];
  }

  lemma ConcatDescends<T(!new)>(a: seq<Row<T>>, b: seq<Row<T>>, next: Cursor, c: Option<Cursor>)
    requires Descending(a) && Descending(b) && a != []
    requires next == CursorOf(a[|a| - 1])
    requires forall x :: x in b ==> Below(x, Some(next))
    requires forall x :: x in a ==> Below(x, c)
    ensures Descending(a + b)
    ensures forall x :: x in a + b ==> Below(x, c)
  {
    var last := a[|a| - 1];
    assert last in a;
    assert next.createdAt <= last.createdAt;
    forall j | 0 <= j < |b|
      ensures Before(last, b[j]) && Below(b[j], c)
    {
      assert b[j] in b;
    }
    forall i, j | 0 <= i < |a| && 0 <= j < |b|
      ensures Before(a[i], b[j])
    {
      assert Before(last, b[j]);
      assert i < |a| - 1 ==> Before(a[i], last);
    }
  }

  lemma {:induction false} TraversalDescends<T(!new)>(tables: seq<seq<Row<T>>>, matches: T -> bool,
        c: Option<Cursor>, limit: nat)
    requires limit >= 1 && TablesOk(tables)
    ensures Descending(Rows(Traverse(tables, matches, c, limit)))
    ensures forall x :: x in Rows(Traverse(tables, matches, c, limit)) ==> Below(x, c)
    decreases |tables|
  {
    if tables != [] {
      var page := NextPage(tables[0], matches, c, limit);
      PageFacts(tables[0], matches, c, limit);
      if page.nextCursor.Some? {
        TraversalDescends(tables[1..], matches, page.nextCursor, limit);
        CompleteRest(tables, matches, c, limit);
        var rest := Rows(Traverse(tables[1..], matches, page.nextCursor, limit));
        ConcatDescends(page.data, rest, page.nextCursor.value, c);
      } else {
        assert [page][1..] == [] && Rows([page]) == page.data;
      }
    }
  }

  lemma {:induction false} TraversalInTables<T(!new)>(tables: seq<seq<Row<T>>>, matches: T -> bool,
        c: Option<Cursor>, limit: nat, x: Row<T>)
    requires limit >= 1 && x in Rows(Traverse(tables, matches, c, limit))
    ensures InSome(tables, x)
    decreases |tables|
  {
    var page := NextPage(tables[0], matches, c, limit);
    assert [page][1..] == [] && Rows([page]) == page.data;
    if x in page.data {
      SelectMembers(tables[0], matches, c);
      assert x in Select(tables[0], matches, c);
    } else {
      CompleteRest(tables, matches, c, limit);
      TraversalInTables(tables[1..], matches, page.nextCursor, limit, x);
      InSomeTail(tables, x);
    }
  }

  /**
   * No row is ever returned twice, however the table changes between requests
   * and whatever precision the cursor has.
   */
  lemma NoRowTwice<T(!new)>(tables: seq<seq<Row<T>>>, matches: T -> bool, c: Option<Cursor>, limit: nat)
    requires limit >= 1 && TablesOk(tables) && KeysImmutable(tables)
    ensures DistinctIds(Rows(Traverse(tables, matches, c, limit)))
  {
    TraversalDescends(tables, matches, c, limit);
    var rows := Rows(Traverse(tables, matches, c, limit));
    forall i, j | 0 <= i < j < |rows|
      ensures rows[i].id != rows[j].id
    {
      TraversalInTables(tables, matches, c, limit, rows[i]);
      TraversalInTables(tables, matches, c, limit, rows[j]);
      var k :| 0 <= k < |tables| && rows[i] in tables[k];
      var l :| 0 <= l < |tables| && rows[j] in tables[l];
    }
  }

  predicate HasKey<T>(r: Row<T>, createdAt: nat, id: nat) {
    r.createdAt == createdAt && r.id == id
  }

  ghost predicate There<T(!new)>(table: seq<Row<T>>, matches: T -> bool, createdAt: nat, id: nat) {
    exists r :: r in table && HasKey(r, createdAt, id) && matches(r.body)
  }

  /** A row with this key is in every table, and matches there. */
  ghost predicate AlwaysThere<T(!new)>(tables: seq<seq<Row<T>>>, matches: T -> bool, createdAt: nat, id: nat) {
    forall i :: 0 <= i < |tables| ==> There(tables[i], matches, createdAt, id)
  }

  /** The key comes after the last row of the page, but not below the cursor made from it. */
  predicate LostAfter<T>(page: Page<T>, createdAt: nat, id: nat) {
    && page.nextCursor.Some? && page.data != []
    && var last := page.data[|page.data| - 1];
       && (createdAt < last.createdAt || (createdAt == last.createdAt && id < last.id))
       && !BelowCursor(createdAt, id, page.nextCursor.value)
  }

  ghost predicate NeverLost<T>(pages: seq<Page<T>>, createdAt: nat, id: nat) {
    forall k :: 0 <= k < |pages| ==> !LostAfter(pages[k], createdAt, id)
  }

  ghost predicate Returned<T>(rows: seq<Row<T>>, createdAt: nat, id: nat) {
    exists i :: 0 <= i < |rows| && HasKey(rows[i], createdAt, id)
  }

  lemma ReturnedConcat<T(!new)>(a: seq<Row<T>>, b: seq<Row<T>>, createdAt: nat, id: nat)
    ensures Returned(a + b, createdAt, id) <==> Returned(a, createdAt, id) || Returned(b, createdAt, id)
  {
    if Returned(a, createdAt, id) {
      var i :| 0 <= i < |a| && HasKey(a[i], createdAt, id);
      assert (a + b)[i] == a[i];
    }
    if Returned(b, createdAt, id) {
      var i :| 0 <= i < |b| && HasKey(b[i], createdAt, id);
      assert (a + b)[|a| + i] == b[i];
    }
  }

  lemma {:induction false} DataInRows<T(!new)>(pages: seq<Page<T>>, k: nat, x: Row<T>)
    requires k < |pages| && x in pages[k].data
    ensures x in Rows(pages)
  {
    if k > 0 {
      DataInRows(pages[1..], k - 1, x);
    }
  }

  /** The pages that follow a cursor neither return nor lose a key that is not below it. */
  lemma NotConcerned<T(!new)>(tables: seq<seq<Row<T>>>, matches: T -> bool, next: Cursor, limit: nat,
                              createdAt: nat, id: nat)
    requires limit >= 1 && TablesOk(tables) && !BelowCursor(createdAt, id, next)
    ensures var rest := Traverse(tables, matches, Some(next), limit);
            && !Returned(Rows(rest), createdAt, id)
            && NeverLost(rest, createdAt, id)
  {
    var rest := Traverse(tables, matches, Some(next), limit);
    TraversalDescends(tables, matches, Some(next), limit);
    assert forall i :: 0 <= i < |Rows(rest)| ==> Rows(rest)[i] in Rows(rest);
    forall k | 0 <= k < |rest|
      ensures !LostAfter(rest[k], createdAt, id)
    {
      if rest[k].data != [] {
        var last := rest[k].data[|rest[k].data| - 1];
        DataInRows(rest, k, last);
      }
    }
  }

  lemma ReturnedInPage<T(!new)>(table: seq<Row<T>>, data: seq<Row<T>>, r: Row<T>)
    requires DistinctIds(table) && r in table && forall x :: x in data ==> x in table
    ensures Returned(data, r.createdAt, r.id) <==> r in data
  {
    if Returned(data, r.createdAt, r.id) {
      var i :| 0 <= i < |data| && HasKey(data[i], r.createdAt, r.id);
      assert data[i] in data;
      var a :| 0 <= a < |table| && table[a] == data[i];
      var b :| 0 <= b < |table| && table[b] == r;
      assert a == b;
    }
  }

  lemma FirstPage<T(!new)>(table: seq<Row<T>>, matches: T -> bool, c: Option<Cursor>, limit: nat, createdAt: nat,
                           id: nat)
    returns (r: Row<T>)
    requires limit >= 1 && DistinctIds(table) && There(table, matches, createdAt, id)
    requires c.Some? ==> BelowCursor(createdAt, id, c.value)
    ensures HasKey(r, createdAt, id)
    ensures var page := NextPage(table, matches, c, limit);
            && Descending(page.data)
            && (Returned(page.data, createdAt, id) <==> r in page.data)
            && (page.nextCursor.None? ==> r in page.data)
            && (page.nextCursor.Some? ==>
                  page.data != [] && page.nextCursor == Some(CursorOf(page.data[|page.data| - 1])))
            && (r !in page.data ==> Before(page.data[|page.data| - 1], r))
  {
    r :| r in table && HasKey(r, createdAt, id) && matches(r.body);
    PageFacts(table, matches, c, limit);
    SelectMembers(table, matches, c);
    assert r in Select(table, matches, c);
    ReturnedInPage(table, NextPage(table, matches, c, limit).data, r);
  }

  lemma AlwaysThereTail<T(!new)>(tables: seq<seq<Row<T>>>, matches: T -> bool, createdAt: nat, id: nat)
    requires tables != [] && AlwaysThere(tables, matches, createdAt, id)
    ensures AlwaysThere(tables[1..], matches, createdAt, id)
  {
    forall i | 0 <= i < |tables[1..]|
      ensures There(tables[1..][i], matches, createdAt, id)
    {
      assert tables[1..][i] == tables[i + 1];
    }
  }

  /** The first page either returns the row, or loses it, or leaves it to the pages that follow. */
  lemma FirstAndRest<T(!new)>(page: Page<T>, rest: seq<Page<T>>, r: Row<T>)
    requires Descending(page.data) && page.data != []
    requires page.nextCursor == Some(CursorOf(page.data[|page.data| - 1]))
    requires Returned(page.data, r.createdAt, r.id) <==> r in page.data
    requires r !in page.data ==> Before(page.data[|page.data| - 1], r)
    requires if BelowCursor(r.createdAt, r.id, page.nextCursor.value)
             then Returned(Rows(rest), r.createdAt, r.id) <==> NeverLost(rest, r.createdAt, r.id)
             else !Returned(Rows(rest), r.createdAt, r.id) && NeverLost(rest, r.createdAt, r.id)
    ensures Returned(page.data + Rows(rest), r.createdAt, r.id) <==> NeverLost([page] + rest, r.createdAt, r.id)
  {
    ReturnedConcat(page.data, Rows(rest), r.createdAt, r.id);
    assert ([page] + rest)[0] == page;
    assert forall k :: 0 <= k < |rest| ==> ([page] + rest)[k + 1] == rest[k];
    assert NeverLost([page] + rest, r.createdAt, r.id)
      <==> !LostAfter(page, r.createdAt, r.id) && NeverLost(rest, r.createdAt, r.id) by {
      assert forall k :: 1 <= k < |[page] + rest| ==> ([page] + rest)[k] == rest[k - 1];
    }
    if r in page.data {
      var i :| 0 <= i < |page.data| && page.data[i] == r;
    }
  }

  /**
   * A row that is there and matches throughout a complete traversal is returned
   * (and then, by `NoRowTwice`, once) if and only if it does not fall between
   * the last row of some page and the milliseconds of that row.
   */
  lemma {:induction false} PresentThroughout<T(!new)>(tables: seq<seq<Row<T>>>, matches: T -> bool,
        c: Option<Cursor>, limit: nat, createdAt: nat, id: nat)
    requires limit >= 1 && TablesOk(tables) && AlwaysThere(tables, matches, createdAt, id)
    requires c.Some? ==> BelowCursor(createdAt, id, c.value)
    requires Complete(Traverse(tables, matches, c, limit))
    ensures var pages := Traverse(tables, matches, c, limit);
            Returned(Rows(pages), createdAt, id)
            <==> NeverLost(pages, createdAt, id)
    decreases |tables|
  {
    var page := NextPage(tables[0], matches, c, limit);
    var r := FirstPage(tables[0], matches, c, limit, createdAt, id);
    if page.nextCursor.None? {
      assert [page][1..] == [] && Rows([page]) == page.data;
    } else {
      CompleteRest(tables, matches, c, limit);
      if BelowCursor(createdAt, id, page.nextCursor.value) {
        AlwaysThereTail(tables, matches, createdAt, id);
        PresentThroughout(tables[1..], matches, page.nextCursor, limit, createdAt, id);
      } else {
        NotConcerned(tables[1..], matches, page.nextCursor.value, limit, createdAt, id);
      }
      FirstAndRest(page, Traverse(tables[1..], matches, page.nextCursor, limit), r);
    }
  }

  // ----- completeness, judged by the tables

  /** The row comes before the key in the order of the listings. */
  predicate BeforeKey<T>(x: Row<T>, createdAt: nat, id: nat) {
    createdAt < x.createdAt || (createdAt == x.createdAt && id < x.id)
  }

  /** The key lies below the cursor of every matching row that comes before it: no cursor can skip it. */
  ghost predicate CursorsPass<T(!new)>(table: seq<Row<T>>, matches: T -> bool, createdAt: nat, id: nat) {
    forall x :: x in table && matches(x.body) && BeforeKey(x, createdAt, id)
      ==> BelowCursor(createdAt, id, CursorOf(x))
  }

  ghost predicate AllPass<T(!new)>(tables: seq<seq<Row<T>>>, matches: T -> bool, createdAt: nat, id: nat) {
    forall i :: 0 <= i < |tables| ==> CursorsPass(tables[i], matches, createdAt, id)
  }

  lemma PassesPage<T(!new)>(table: seq<Row<T>>, matches: T -> bool, c: Option<Cursor>, limit: nat, createdAt: nat,
                            id: nat)
    requires limit >= 1 && DistinctIds(table) && CursorsPass(table, matches, createdAt, id)
    ensures !LostAfter(NextPage(table, matches, c, limit), createdAt, id)
  {
    var page := NextPage(table, matches, c, limit);
    PageFacts(table, matches, c, limit);
    if page.data != [] {
      assert page.data[|page.data| - 1] in page.data;
    }
  }

  lemma {:induction false} PassesTraversal<T(!new)>(tables: seq<seq<Row<T>>>, matches: T -> bool, c: Option<Cursor>,
        limit: nat, createdAt: nat, id: nat)
    requires limit >= 1 && TablesOk(tables) && AllPass(tables, matches, createdAt, id)
    ensures NeverLost(Traverse(tables, matches, c, limit), createdAt, id)
    decreases |tables|
  {
    if tables != [] {
      var page := NextPage(tables[0], matches, c, limit);
      PassesPage(tables[0], matches, c, limit, createdAt, id);
      if page.nextCursor.Some? {
        assert forall i :: 0 <= i < |tables[1..]| ==> tables[1..][i] == tables[i + 1];
        PassesTraversal(tables[1..], matches, page.nextCursor, limit, createdAt, id);
      }
    }
  }

  predicate NowhereElse<T>(rows: seq<Row<T>>, i: nat, id: nat) {
    forall j :: 0 <= j < |rows| && rows[j].id == id ==> j == i
  }

  /** The key stands at exactly one place of the rows returned. */
  ghost predicate ReturnedOnce<T>(rows: seq<Row<T>>, createdAt: nat, id: nat) {
    exists i :: 0 <= i < |rows| && HasKey(rows[i], createdAt, id) && NowhereElse(rows, i, id)
  }

  /**
   * Complete pages over a changing table: a row that is there and matches
   * throughout a complete traversal is returned exactly once, if in each of the
   * tables it lies below the cursors of the matching rows before it.
   */
  lemma ThereReturnedOnce<T(!new)>(tables: seq<seq<Row<T>>>, matches: T -> bool, c: Option<Cursor>, limit: nat,
                                   createdAt: nat, id: nat)
    requires limit >= 1 && TablesOk(tables) && KeysImmutable(tables)
    requires AlwaysThere(tables, matches, createdAt, id) && AllPass(tables, matches, createdAt, id)
    requires c.Some? ==> BelowCursor(createdAt, id, c.value)
    requires Complete(Traverse(tables, matches, c, limit))
    ensures ReturnedOnce(Rows(Traverse(tables, matches, c, limit)), createdAt, id)
  {
    var rows := Rows(Traverse(tables, matches, c, limit));
    PassesTraversal(tables, matches, c, limit, createdAt, id);
    PresentThroughout(tables, matches, c, limit, createdAt, id);
    NoRowTwice(tables, matches, c, limit);
    var i :| 0 <= i < |rows| && HasKey(rows[i], createdAt, id);
    assert NowhereElse(rows, i, id);
  }

  /** Every creation time is a whole number of milliseconds: column and cursor have one precision. */
  ghost predicate WholeMillis<T(!new)>(tables: seq<seq<Row<T>>>) {
    forall i, x :: 0 <= i < |tables| && x in tables[i] ==> x.createdAt % MICROS_PER_MILLI == 0
  }

  /** With cursor and column at one precision nothing is lost, and nothing returned twice. */
  lemma OnePrecisionLosesNothing<T(!new)>(tables: seq<seq<Row<T>>>, matches: T -> bool, c: Option<Cursor>,
                                          limit: nat, createdAt: nat, id: nat)
    requires limit >= 1 && TablesOk(tables) && KeysImmutable(tables) && WholeMillis(tables)
    requires AlwaysThere(tables, matches, createdAt, id)
    requires c.Some? ==> BelowCursor(createdAt, id, c.value)
    requires Complete(Traverse(tables, matches, c, limit))
    ensures ReturnedOnce(Rows(Traverse(tables, matches, c, limit)), createdAt, id)
  {
    assert AllPass(tables, matches, createdAt, id);
    ThereReturnedOnce(tables, matches, c, limit, createdAt, id);
  }

  // ----- a table that does not change

  /** The rows of a descending list that a cursor leaves. */
  function Rest<T>(s: seq<Row<T>>, c: Cursor): (r: seq<Row<T>>)
    ensures |r| <= |s|
  {
    if s == [] then [] else if BelowCursor(s[0].createdAt, s[0].id, c) then s else Rest(s[1..], c)
  }

  /** What a complete traversal of an unchanging table returns, given its rows in order. */
  function Scan<T>(s: seq<Row<T>>, limit: nat): seq<Row<T>>
    requires limit >= 1
    decreases |s|
  {
    if |s| <= limit then s else s[..limit] + Scan(Rest(s[limit..], CursorOf(s[limit - 1])), limit)
  }

  /** At the end of each page, the row that follows is below the cursor made from the row before it. */
  predicate BoundariesSafe<T>(s: seq<Row<T>>, limit: nat)
    requires limit >= 1
    decreases |s|
  {
    |s| > limit ==>
      && BelowCursor(s[limit].createdAt, s[limit].id, CursorOf(s[limit - 1]))
      && BoundariesSafe(s[limit..], limit)
  }

  lemma {:induction false} ScanShrinks<T(!new)>(s: seq<Row<T>>, limit: nat)
    requires limit >= 1
    ensures |Scan(s, limit)| <= |s|
    decreases |s|
  {
    if |s| > limit {
      ScanShrinks(Rest(s[limit..], CursorOf(s[limit - 1])), limit);
    }
  }

  /** The pages of an unchanging table give the whole sorted, filtered list exactly when every page boundary is safe. */
  lemma {:induction false} ScanIsWhole<T(!new)>(s: seq<Row<T>>, limit: nat)
    requires limit >= 1
    ensures Scan(s, limit) == s <==> BoundariesSafe(s, limit)
    decreases |s|
  {
    if |s| > limit {
      var tail := s[limit..];
      var rest := Rest(tail, CursorOf(s[limit - 1]));
      assert tail[0] == s[limit];
      if BelowCursor(s[limit].createdAt, s[limit].id, CursorOf(s[limit - 1])) {
        ScanIsWhole(tail, limit);
        assert s == s[..limit] + tail;
        assert Scan(s, limit)[limit..] == Scan(tail, limit);
      } else {
        ScanShrinks(rest, limit);
        assert rest == Rest(tail[1..], CursorOf(s[limit - 1]));
        assert |Scan(s, limit)| < |s|;
      }
    }
  }

  /** Rows made at whole milliseconds are never lost at a boundary. */
  lemma {:induction false} WholeMillisAreSafe<T(!new)>(s: seq<Row<T>>, limit: nat)
    requires limit >= 1 && Descending(s)
    requires forall i :: 0 <= i < |s| ==> s[i].createdAt % MICROS_PER_MILLI == 0
    ensures BoundariesSafe(s, limit)
    decreases |s|
  {
    if |s| > limit {
      assert Before(s[limit - 1], s[limit]);
      WholeMillisAreSafe(s[limit..], limit);
    }
  }

  /** Descending lists with the same members are the same list. */
  lemma {:induction false} SameList<T(!new)>(a: seq<Row<T>>, b: seq<Row<T>>)
    requires Descending(a) && Descending(b) && forall x :: x in a <==> x in b
    ensures a == b
  {
    assert a != [] ==> a[0] in b;
    assert b != [] ==> b[0] in a;
    if a != [] && b != [] {
      var i :| 0 <= i < |b| && b[i] == a[0];
      var j :| 0 <= j < |a| && a[j] == b[0];
      assert a[0] == b[0];
      forall x
        ensures x in a[1..] <==> x in b[1..]
      {
        assert x in a <==> x == a[0] || x in a[1..];
        assert x in b <==> x == b[0] || x in b[1..];
      }
      SameList(a[1..], b[1..]);
    }
  }

  lemma {:induction false} RestMembers<T(!new)>(s: seq<Row<T>>, c: Cursor)
    requires Descending(s)
    ensures Descending(Rest(s, c))
    ensures forall x :: x in Rest(s, c) <==> x in s && Below(x, Some(c))
  {
    if s != [] {
      assert s == [s[0]] + s[1..];
      RestMembers(s[1..], c);
    }
  }

  /** In a descending list only rows after place `limit - 1` lie below the cursor made there. */
  lemma BelowIsAfter<T(!new)>(s: seq<Row<T>>, limit: nat)
    requires Descending(s) && 1 <= limit < |s|
    ensures var next := Some(CursorOf(s[limit - 1]));
            forall x :: x in s && Below(x, next) <==> x in s[limit..] && Below(x, next)
  {
    forall i | 0 <= i < |s| && Below(s[i], Some(CursorOf(s[limit - 1])))
      ensures s[i] in s[limit..]
    {
      assert i >= limit;
      assert s[i] == s[limit..][i - limit];
    }
  }

  /** The query for the next page finds the rows that the cursor leaves of the rows after this page. */
  lemma NextSelect<T(!new)>(table: seq<Row<T>>, matches: T -> bool, c: Option<Cursor>, limit: nat)
    requires limit >= 1 && DistinctIds(table) && |Select(table, matches, c)| > limit
    ensures var s := Select(table, matches, c);
            var next := CursorOf(s[limit - 1]);
            Select(table, matches, Some(next)) == Rest(s[limit..], next)
  {
    var s := Select(table, matches, c);
    var next := CursorOf(s[limit - 1]);
    SelectDescends(table, matches, c);
    SelectDescends(table, matches, Some(next));
    SelectMembers(table, matches, c);
    SelectMembers(table, matches, Some(next));
    RestMembers(s[limit..], next);
    BelowIsAfter(s, limit);
    assert s[limit - 1] in s;
    assert forall x: Row<T> :: Below(x, Some(next)) ==> Below(x, c);
    SameList(Select(table, matches, Some(next)), Rest(s[limit..], next));
  }

  function Copies<T>(table: seq<Row<T>>, n: nat): (r: seq<seq<Row<T>>>)
    ensures |r| == n && forall i :: 0 <= i < n ==> r[i] == table
  {
    if n == 0 then [] else [table] + Copies(table, n - 1)
  }

  lemma CopiesTail<T(!new)>(table: seq<Row<T>>, n: nat)
    requires n >= 1
    ensures Copies(table, n)[0] == table && Copies(table, n)[1..] == Copies(table, n - 1)
  {
  }

  lemma LastPage<T(!new)>(tables: seq<seq<Row<T>>>, matches: T -> bool, c: Option<Cursor>, limit: nat)
    requires limit >= 1 && tables != [] && NextPage(tables[0], matches, c, limit).nextCursor.None?
    ensures Complete(Traverse(tables, matches, c, limit))
    ensures Rows(Traverse(tables, matches, c, limit)) == NextPage(tables[0], matches, c, limit).data
  {
    var page := NextPage(tables[0], matches, c, limit);
    assert Traverse(tables, matches, c, limit) == [page];
    assert [page][1..] == [] && Rows([page]) == page.data;
  }

  lemma CopiesStep<T(!new)>(table: seq<Row<T>>, matches: T -> bool, c: Option<Cursor>, limit: nat, n: nat)
    requires limit >= 1 && n >= 1
    ensures var page := NextPage(table, matches, c, limit);
            var pages := Traverse(Copies(table, n), matches, c, limit);
            var rest := Traverse(Copies(table, n - 1), matches, page.nextCursor, limit);
            && (page.nextCursor.None? ==> Complete(pages) && Rows(pages) == page.data)
            && (page.nextCursor.Some? ==> Rows(pages) == page.data + Rows(rest) && (Complete(rest) ==> Complete(pages)))
  {
    CopiesTail(table, n);
    if NextPage(table, matches, c, limit).nextCursor.None? {
      LastPage(Copies(table, n), matches, c, limit);
    } else {
      CompleteRest(Copies(table, n), matches, c, limit);
      CompletePrepended(Copies(table, n), matches, c, limit);
    }
  }

  /** The rows that `n` requests to an unchanging table return. */
  function Requests<T(==,!new)>(table: seq<Row<T>>, matches: T -> bool, c: Option<Cursor>, limit: nat,
                                n: nat): seq<Row<T>>
    requires limit >= 1
    decreases n
  {
    if n == 0 then []
    else
      var page := NextPage(table, matches, c, limit);
      if page.nextCursor.None? then page.data
      else page.data + Requests(table, matches, page.nextCursor, limit, n - 1)
  }

  lemma {:induction false} TraverseCopies<T(!new)>(table: seq<Row<T>>, matches: T -> bool, c: Option<Cursor>,
        limit: nat, n: nat)
    requires limit >= 1
    ensures Rows(Traverse(Copies(table, n), matches, c, limit)) == Requests(table, matches, c, limit, n)
    decreases n
  {
    if n > 0 {
      CopiesStep(table, matches, c, limit, n);
      TraverseCopies(table, matches, NextPage(table, matches, c, limit).nextCursor, limit, n - 1);
    }
  }

  /** What is left to list after a page that has a next one. */
  lemma NextFacts<T(!new)>(table: seq<Row<T>>, matches: T -> bool, c: Option<Cursor>, limit: nat, page: Page<T>)
    requires limit >= 1 && DistinctIds(table) && page == NextPage(table, matches, c, limit)
    ensures page.nextCursor.None? ==> page.data == Scan(Select(table, matches, c), limit)
    ensures page.nextCursor.Some? ==>
              && |Select(table, matches, page.nextCursor)| < |Select(table, matches, c)|
              && Scan(Select(table, matches, c), limit)
                 == page.data + Scan(Select(table, matches, page.nextCursor), limit)
  {
    if page.nextCursor.Some? {
      NextSelect(table, matches, c, limit);
    }
  }

  /** The traversal of an unchanging table with `n` requests runs to its end. */
  ghost predicate Ends<T(!new)>(table: seq<Row<T>>, matches: T -> bool, c: Option<Cursor>, limit: nat, n: nat)
    requires limit >= 1
    decreases n
  {
    n > 0 && var page := NextPage(table, matches, c, limit);
             page.nextCursor.None? || Ends(table, matches, page.nextCursor, limit, n - 1)
  }

  lemma {:induction false} EndsCompletes<T(!new)>(table: seq<Row<T>>, matches: T -> bool, c: Option<Cursor>,
        limit: nat, n: nat)
    requires limit >= 1 && Ends(table, matches, c, limit, n)
    ensures Complete(Traverse(Copies(table, n), matches, c, limit))
    decreases n
  {
    var page := NextPage(table, matches, c, limit);
    CopiesStep(table, matches, c, limit, n);
    if page.nextCursor.Some? {
      EndsCompletes(table, matches, page.nextCursor, limit, n - 1);
    }
  }

  lemma {:induction false} EnoughRequests<T(!new)>(table: seq<Row<T>>, matches: T -> bool, c: Option<Cursor>,
        limit: nat, n: nat)
    requires limit >= 1 && DistinctIds(table) && n > |Select(table, matches, c)|
    ensures Ends(table, matches, c, limit, n)
    decreases n
  {
    var page := NextPage(table, matches, c, limit);
    NextFacts(table, matches, c, limit, page);
    if page.nextCursor.Some? {
      EnoughRequests(table, matches, page.nextCursor, limit, n - 1);
    }
  }

  lemma {:induction false} RequestsScan<T(!new)>(table: seq<Row<T>>, matches: T -> bool, c: Option<Cursor>,
        limit: nat, n: nat)
    requires limit >= 1 && DistinctIds(table) && n > |Select(table, matches, c)|
    ensures Requests(table, matches, c, limit, n) == Scan(Select(table, matches, c), limit)
    decreases n
  {
    var page := NextPage(table, matches, c, limit);
    NextFacts(table, matches, c, limit, page);
    if page.nextCursor.Some? {
      RequestsScan(table, matches, page.nextCursor, limit, n - 1);
    }
  }

  /**
   * On an unchanging table the pages of a complete traversal concatenate to the
   * full sorted, filtered list if and only if every page boundary is safe.
   */
  lemma FixedTableWhole<T(!new)>(table: seq<Row<T>>, matches: T -> bool, limit: nat, n: nat)
    requires limit >= 1 && DistinctIds(table) && n > |Select(table, matches, None)|
    ensures var pages := Traverse(Copies(table, n), matches, None, limit);
            && Complete(pages)
            && (Rows(pages) == Select(table, matches, None) <==> BoundariesSafe(Select(table, matches, None), limit))
  {
    TraverseCopies(table, matches, None, limit, n);
    EnoughRequests(table, matches, None, limit, n);
    EndsCompletes(table, matches, None, limit, n);
    RequestsScan(table, matches, None, limit, n);
    ScanIsWhole(Select(table, matches, None), limit);
  }

  // ----- exactly when no traversal loses a row

  /** Each request of the traversal finds one of the tables of the family. */
  ghost predicate Drawn<T(!new)>(family: set<seq<Row<T>>>, tables: seq<seq<Row<T>>>) {
    forall i :: 0 <= i < |tables| ==> tables[i] in family
  }

  ghost predicate FamilyOk<T(!new)>(family: set<seq<Row<T>>>, matches: T -> bool, createdAt: nat, id: nat) {
    && (forall t :: t in family ==> DistinctIds(t) && There(t, matches, createdAt, id))
    && (forall t, u, x, y :: t in family && u in family && x in t && y in u && x.id == y.id
          ==> x.createdAt == y.createdAt)
  }

  /** However the table changes within the family, and with whatever limit, complete pages return the key once. */
  ghost predicate NeverSkipped<T(!new)>(family: set<seq<Row<T>>>, matches: T -> bool, createdAt: nat, id: nat) {
    forall tables, limit: nat
      | limit >= 1 && Drawn(family, tables) && Complete(Traverse(tables, matches, None, limit)) ::
      ReturnedOnce(Rows(Traverse(tables, matches, None, limit)), createdAt, id)
  }

  /** A cursor that skips the key does so when the limit makes its row the last of the first page. */
  lemma FirstPageSkips<T(!new)>(table: seq<Row<T>>, matches: T -> bool, x: Row<T>, createdAt: nat, id: nat)
    returns (limit: nat)
    requires DistinctIds(table) && There(table, matches, createdAt, id)
    requires x in table && matches(x.body) && BeforeKey(x, createdAt, id)
    requires !BelowCursor(createdAt, id, CursorOf(x))
    ensures limit >= 1 && LostAfter(NextPage(table, matches, None, limit), createdAt, id)
  {
    var s := Select(table, matches, None);
    SelectMembers(table, matches, None);
    SelectDescends(table, matches, None);
    var r :| r in table && HasKey(r, createdAt, id) && matches(r.body);
    assert x in s && r in s;
    var k :| 0 <= k < |s| && s[k] == x;
    var l :| 0 <= l < |s| && s[l] == r;
    assert k < l;
    limit := k + 1;
  }

  lemma FirstPageLoses<T(!new)>(tables: seq<seq<Row<T>>>, matches: T -> bool, limit: nat, createdAt: nat, id: nat)
    requires limit >= 1 && tables != [] && LostAfter(NextPage(tables[0], matches, None, limit), createdAt, id)
    ensures !NeverLost(Traverse(tables, matches, None, limit), createdAt, id)
  {
    assert Traverse(tables, matches, None, limit)[0] == NextPage(tables[0], matches, None, limit);
  }

  lemma ThereInCopies<T(!new)>(table: seq<Row<T>>, matches: T -> bool, createdAt: nat, id: nat, n: nat)
    requires There(table, matches, createdAt, id)
    ensures AlwaysThere(Copies(table, n), matches, createdAt, id)
  {
  }

  /** Complete pages of the table, unchanged, then do not return the key. */
  lemma SkippedByLimit<T(!new)>(table: seq<Row<T>>, matches: T -> bool, x: Row<T>, createdAt: nat, id: nat)
    returns (limit: nat, n: nat)
    requires DistinctIds(table) && There(table, matches, createdAt, id)
    requires x in table && matches(x.body) && BeforeKey(x, createdAt, id)
    requires !BelowCursor(createdAt, id, CursorOf(x))
    ensures limit >= 1 && Complete(Traverse(Copies(table, n), matches, None, limit))
    ensures !Returned(Rows(Traverse(Copies(table, n), matches, None, limit)), createdAt, id)
  {
    limit := FirstPageSkips(table, matches, x, createdAt, id);
    n := |Select(table, matches, None)| + 1;
    EnoughRequests(table, matches, None, limit, n);
    EndsCompletes(table, matches, None, limit, n);
    ThereInCopies(table, matches, createdAt, id, n);
    FirstPageLoses(Copies(table, n), matches, limit, createdAt, id);
    PresentThroughout(Copies(table, n), matches, None, limit, createdAt, id);
  }

  /**
   * The exact condition of completeness over changing tables: complete pages
   * return a row that is always there exactly once, for every limit and every
   * way in which the table changes, if and only if in no table the cursor of a
   * matching row before it skips it.
   */
  lemma CompleteExactly<T(!new)>(family: set<seq<Row<T>>>, matches: T -> bool, createdAt: nat, id: nat)
    requires FamilyOk(family, matches, createdAt, id)
    ensures NeverSkipped(family, matches, createdAt, id)
            <==> forall t :: t in family ==> CursorsPass(t, matches, createdAt, id)
  {
    if forall t :: t in family ==> CursorsPass(t, matches, createdAt, id) {
      forall tables, limit: nat
        | limit >= 1 && Drawn(family, tables) && Complete(Traverse(tables, matches, None, limit))
        ensures ReturnedOnce(Rows(Traverse(tables, matches, None, limit)), createdAt, id)
      {
        ThereReturnedOnce(tables, matches, None, limit, createdAt, id);
      }
    } else {
      var t :| t in family && !CursorsPass(t, matches, createdAt, id);
      var x :| x in t && matches(x.body) && BeforeKey(x, createdAt, id) && !BelowCursor(createdAt, id, CursorOf(x));
      var limit, n := SkippedByLimit(t, matches, x, createdAt, id);
      assert Drawn(family, Copies(t, n));
      assert !ReturnedOnce(Rows(Traverse(Copies(t, n), matches, None, limit)), createdAt, id);
    }
  }

  /** The loss does happen: of two rows made in one millisecond, pages of one row list only the newer. */
  lemma RowLost(newer: nat, older: nat)
    requires newer != older
    ensures var a, b := Row(1500, newer, ()), Row(1200, older, ());
            && Select([a, b], EVERY_USER, None) == [a, b]
            && Rows(Traverse(Copies([a, b], 3), EVERY_USER, None, 1)) == [a]
  {
    var a, b := Row(1500, newer, ()), Row(1200, older, ());
    assert [a, b][1..] == [b] && [b][1..] == [];
    assert Select([b], EVERY_USER, None) == [b];
    TraverseCopies([a, b], EVERY_USER, None, 1, 3);
    RequestsScan([a, b], EVERY_USER, None, 1, 3);
    assert [a, b][1..] == [b];
    assert Rest([b], CursorOf(a)) == [];
  }
}
