/** Keyset pagination of the order list. */
module Pagination {
  import opened Common
  import opened Orders

  datatype Status = Uncompleted | Completed | All | Unknown

  datatype Cursor = Cursor(status: Status, createdAt: Instant, completedAt: Option<Instant>, id: Id)

  /** The cursor parameter of a request: absent, undecodable, or a cursor. */
  datatype CursorText = Absent | Garbled | Encoded(cursor: Cursor)

  datatype Page = Page(items: seq<Order>, next: Option<Cursor>)

  datatype ListError = InvalidCursor | InvalidStatus

  predicate Matches(status: Status, workspace: Id, o: Order) {
    && o.workspace == workspace
    && (status.Uncompleted? ==> o.completedAt.None?)
    && (status.Completed? ==> o.completedAt.Some?)
  }

  /** The cursor predicates of the three queries. A completed listing ignores a cursor that has
      no completion time. */
  predicate AfterCursor(status: Status, cursor: Option<Cursor>, o: Order)
    requires status.Completed? ==> o.completedAt.Some?
  {
    if cursor.None? then true
    else
      var c := cursor.value;
      match status
      case Uncompleted => o.createdAt > c.createdAt || (o.createdAt == c.createdAt && o.id > c.id)
      case Completed =>
        c.completedAt.None?
        || o.completedAt.value < c.completedAt.value
        || (o.completedAt.value == c.completedAt.value && o.createdAt < c.createdAt)
        || (o.completedAt.value == c.completedAt.value && o.createdAt == c.createdAt && o.id < c.id)
      case _ => o.createdAt < c.createdAt || (o.createdAt == c.createdAt && o.id < c.id)
  }

  // ---- The order of a listing ----

  /** A position in a listing; positions are compared left to right. */
  datatype Key = Key(first: int, second: int, third: int) {
    predicate Less(other: Key) {
      || first < other.first
      || (first == other.first && second < other.second)
      || (first == other.first && second == other.second && third < other.third)
    }
  }

  function MakeKey(status: Status, createdAt: Instant, completedAt: Option<Instant>, id: Id): Key {
    match status
    case Uncompleted => Key(createdAt, id, 0)
    case Completed => Key(if completedAt.Some? then -completedAt.value else 0, -createdAt, -(id as int))
    case _ => Key(-createdAt, -(id as int), 0)
  }

  function KeyOf(status: Status, o: Order): Key {
    MakeKey(status, o.createdAt, o.completedAt, o.id)
  }

  /** Where a cursor stands; none when it does not restrict the query. */
  function Position(status: Status, cursor: Option<Cursor>): Option<Key> {
    if cursor.None? || (status.Completed? && cursor.value.completedAt.None?) then None
    else Some(MakeKey(status, cursor.value.createdAt, cursor.value.completedAt, cursor.value.id))
  }

  predicate Beyond(position: Option<Key>, k: Key) {
    position.None? || position.value.Less(k)
  }

  /** The three cursor predicates say one thing: the row comes after the cursor in the order of
      the listing. */
  lemma CursorMeansBeyond(status: Status, cursor: Option<Cursor>, o: Order)
    requires status.Completed? ==> o.completedAt.Some?
    ensures AfterCursor(status, cursor, o) <==> Beyond(Position(status, cursor), KeyOf(status, o))
  {
  }

  // ---- ORDER BY ----

  predicate DistinctIds(rows: set<Order>) {
    forall a, b | a in rows && b in rows && a.id == b.id :: a == b
  }

  predicate Precedes(status: Status, a: Order, b: Order) {
    KeyOf(status, a).Less(KeyOf(status, b))
  }

  lemma KeysCompare(status: Status, a: Order, b: Order)
    ensures a.id != b.id ==> Precedes(status, a, b) || Precedes(status, b, a)
  {
  }

  lemma KeysChain(status: Status, a: Order, b: Order, c: Order)
    requires Precedes(status, a, b) && Precedes(status, b, c)
    ensures Precedes(status, a, c)
  {
  }

  predicate IsLeast(status: Status, rows: set<Order>, m: Order) {
    m in rows && forall o | o in rows :: o == m || Precedes(status, m, o)
  }

  lemma {:induction false} LeastExists(status: Status, rows: set<Order>)
    requires rows != {} && DistinctIds(rows)
    ensures exists m :: m in rows && IsLeast(status, rows, m)
    decreases |rows|
  {
    hide Precedes;
    var x :| x in rows;
    var rest := rows - {x};
    if rest == {} {
      assert rows == {x};
      assert IsLeast(status, rows, x);
    } else {
      LeastExists(status, rest);
      var m :| m in rest && IsLeast(status, rest, m);
      assert x.id != m.id;
      KeysCompare(status, x, m);
      var least := if Precedes(status, m, x) then m else x;
      forall o | o in rows ensures o == least || Precedes(status, least, o) {
        if o in rest && o != m && least == x { KeysChain(status, x, m, o); }
      }
      assert IsLeast(status, rows, least);
    }
  }

  predicate Ascending(status: Status, s: seq<Order>) {
    forall i, j :: 0 <= i < j < |s| ==> Precedes(status, s[i], s[j])
  }

  lemma KeysDiffer(status: Status, a: Order, b: Order)
    ensures !(Precedes(status, a, b) && Precedes(status, b, a))
  {
  }

  lemma LeastIsUnique(status: Status, rows: set<Order>, a: Order, b: Order)
    requires IsLeast(status, rows, a) && IsLeast(status, rows, b)
    ensures a == b
  {
    KeysDiffer(status, a, b);
  }

  function Least(status: Status, rows: set<Order>): (m: Order)
    requires rows != {} && DistinctIds(rows)
    ensures IsLeast(status, rows, m)
  {
    LeastExists(status, rows);
    assert forall a, b | a in rows && b in rows && IsLeast(status, rows, a) && IsLeast(status, rows, b) :: a == b by {
      forall a, b | a in rows && b in rows && IsLeast(status, rows, a) && IsLeast(status, rows, b) ensures a == b {
        LeastIsUnique(status, rows, a, b);
      }
    }
    var m :| m in rows && IsLeast(status, rows, m);
    m
  }

  /** The rows in the order of the listing. */
  function Sorted(status: Status, rows: set<Order>): seq<Order>
    requires DistinctIds(rows)
    decreases |rows|
  {
    if rows == {} then []
    else
      var m := Least(status, rows);
      [m] + Sorted(status, rows - {m})
  }

  lemma {:induction false} SortedMembers(status: Status, rows: set<Order>, o: Order)
    requires DistinctIds(rows)
    ensures o in Sorted(status, rows) <==> o in rows
    decreases |rows|
  {
    hide Precedes, IsLeast;
    if rows != {} {
      var m := Least(status, rows);
      assert m in rows by { LeastIsMember(status, rows); }
      SortedMembers(status, rows - {m}, o);
    }
  }

  lemma LeastIsMember(status: Status, rows: set<Order>)
    requires rows != {} && DistinctIds(rows)
    ensures Least(status, rows) in rows
    ensures forall o | o in rows - {Least(status, rows)} :: Precedes(status, Least(status, rows), o)
  {
    hide Precedes;
  }

  lemma AscendingCons(status: Status, m: Order, rest: seq<Order>)
    requires Ascending(status, rest) && forall j :: 0 <= j < |rest| ==> Precedes(status, m, rest[j])
    ensures Ascending(status, [m] + rest)
  {
    hide Precedes;
  }

  lemma {:induction false} SortedMeaning(status: Status, rows: set<Order>)
    requires DistinctIds(rows)
    ensures Ascending(status, Sorted(status, rows))
    ensures forall o :: o in Sorted(status, rows) <==> o in rows
    decreases |rows|
  {
    hide Precedes, DistinctIds, IsLeast, Ascending;
    forall o ensures o in Sorted(status, rows) <==> o in rows { SortedMembers(status, rows, o); }
    if rows == {} {
      AscendingNothing(status);
    } else {
      var m := Least(status, rows);
      LeastIsMember(status, rows);
      FewerIds(rows, m);
      var rest := Sorted(status, rows - {m});
      SortedMeaning(status, rows - {m});
      forall j | 0 <= j < |rest| ensures Precedes(status, m, rest[j]) {
        assert rest[j] in rest;
      }
      AscendingCons(status, m, rest);
    }
  }

  lemma AscendingNothing(status: Status)
    ensures Ascending(status, [])
  {
  }

  lemma FewerIds(rows: set<Order>, m: Order)
    requires DistinctIds(rows)
    ensures DistinctIds(rows - {m})
  {
  }

  /** There is only one way to order a set of rows. */
  lemma {:induction false} OrderIsUnique(status: Status, a: seq<Order>, b: seq<Order>)
    requires Ascending(status, a) && Ascending(status, b)
    requires forall o :: o in a <==> o in b
    ensures a == b
  {
    HasHead(b);
    if a != [] {
      assert a[0] in b;
      assert b[0] in a;
      assert a[0] == b[0];
      forall o ensures o in a[1..] <==> o in b[1..] {
        if o in a[1..] { assert o in b && o != b[0]; }
        if o in b[1..] { assert o in a && o != a[0]; }
      }
      OrderIsUnique(status, a[1..], b[1..]);
    }
  }

  // ---- The query ----

  function Candidates(orders: map<Id, Order>, workspace: Id, status: Status, cursor: Option<Cursor>): (r: set<Order>)
    requires Keyed(orders)
    ensures DistinctIds(r)
  {
    set id | id in orders && Matches(status, workspace, orders[id]) && AfterCursor(status, cursor, orders[id])
      :: orders[id]
  }

  function Rows(orders: map<Id, Order>, workspace: Id, status: Status, cursor: Option<Cursor>): seq<Order>
    requires Keyed(orders)
  {
    Sorted(status, Candidates(orders, workspace, status, cursor))
  }

  /** The whole listing, as one query without a limit would return it. */
  function Listing(orders: map<Id, Order>, workspace: Id, status: Status): seq<Order>
    requires Keyed(orders)
  {
    Rows(orders, workspace, status, None)
  }

  function Clamped(limit: int): (n: nat)
    ensures 1 <= n <= 200
  {
    if limit <= 0 then 50 else if limit > 200 then 200 else limit
  }

  function CursorAt(status: Status, o: Order): Cursor {
    Cursor(status, o.createdAt, o.completedAt, o.id)
  }

  function PageOf(orders: map<Id, Order>, workspace: Id, status: Status, limit: int, cursor: Option<Cursor>): Page
    requires Keyed(orders)
  {
    var rows, n := Rows(orders, workspace, status, cursor), Clamped(limit);
    if |rows| > n then Page(rows[..n], Some(CursorAt(status, rows[n - 1]))) else Page(rows, None)
  }

  /** Order.List: it asks for one row more than the page holds, to learn whether to hand out a
      cursor. */
  method List(orders: map<Id, Order>, workspace: Id, status: Status, limit: int, cursor: CursorText)
    returns (r: Result<Page, ListError>)
    requires Keyed(orders)
    ensures cursor.Garbled? ==> r == Failure(InvalidCursor)
    ensures !cursor.Garbled? && status.Unknown? ==> r == Failure(InvalidStatus)
    ensures !cursor.Garbled? && !status.Unknown? ==>
              && r == Success(PageOf(orders, workspace, status, limit,
                                     if cursor.Encoded? then Some(cursor.cursor) else None))
              && PageInColumns(orders, workspace, status, limit,
                               if cursor.Encoded? then Some(cursor.cursor) else None, r.value)
  {
    var n := limit;
    if n <= 0 { n := 50; }
    if n > 200 { n := 200; }
    if cursor.Garbled? { return Failure(InvalidCursor); }
    if status.Unknown? { return Failure(InvalidStatus); }
    var decoded := if cursor.Encoded? then Some(cursor.cursor) else None;
    var rows := Rows(orders, workspace, status, decoded);
    var schemas := if |rows| > n + 1 then rows[..n + 1] else rows;
    assert |rows| > n ==> schemas[..n] == rows[..n];
    var next: Option<Cursor> := None;
    if |schemas| > n {
      var last := schemas[n - 1];
      schemas := schemas[..n];
      next := Some(CursorAt(status, last));
    }
    PageColumns(orders, workspace, status, limit, decoded);
    return Success(Page(schemas, next));
  }

  // ---- One page ----

  lemma RowsMeaning(orders: map<Id, Order>, workspace: Id, status: Status, cursor: Option<Cursor>, o: Order)
    requires Keyed(orders)
    ensures o in Rows(orders, workspace, status, cursor) <==>
            && o.id in orders && orders[o.id] == o && Matches(status, workspace, o)
            && Beyond(Position(status, cursor), KeyOf(status, o))
  {
    hide Beyond, Position, KeyOf;
    SortedMeaning(status, Candidates(orders, workspace, status, cursor));
    if Matches(status, workspace, o) { CursorMeansBeyond(status, cursor, o); }
  }

  lemma SortedRows(orders: map<Id, Order>, workspace: Id, status: Status, cursor: Option<Cursor>)
    requires Keyed(orders)
    ensures Ascending(status, Rows(orders, workspace, status, cursor))
  {
    SortedMeaning(status, Candidates(orders, workspace, status, cursor));
  }

  /** Cutting an ascending list cuts it by position. */
  lemma SplitMember(status: Status, rows: seq<Order>, n: nat, o: Order)
    requires Ascending(status, rows) && 1 <= n <= |rows|
    ensures o in rows[n..] <==> o in rows && KeyOf(status, rows[n - 1]).Less(KeyOf(status, o))
    ensures o in rows[..n] <==> o in rows && !KeyOf(status, rows[n - 1]).Less(KeyOf(status, o))
  {
    if o in rows {
      var i :| 0 <= i < |rows| && rows[i] == o;
      if i < n - 1 { assert Precedes(status, rows[i], rows[n - 1]); }
      if i > n - 1 { assert Precedes(status, rows[n - 1], rows[i]); assert rows[n..][i - n] == o; }
      if i <= n - 1 { assert rows[..n][i] == o; }
    }
  }

  /** What a page returns: its rows ascend, they all lie beyond its cursor and up to the next
      one, and every matching row there is among them. */
  lemma PageMeaning(orders: map<Id, Order>, workspace: Id, status: Status, limit: int, cursor: Option<Cursor>)
    requires Keyed(orders)
    ensures var p := PageOf(orders, workspace, status, limit, cursor);
            && |p.items| <= Clamped(limit) && Ascending(status, p.items)
            && (p.next.Some? ==>
                  |p.items| == Clamped(limit) && p.next == Some(CursorAt(status, p.items[|p.items| - 1])))
            && (forall o :: o in p.items <==>
                  && o.id in orders && orders[o.id] == o && Matches(status, workspace, o)
                  && Beyond(Position(status, cursor), KeyOf(status, o))
                  && (p.next.Some? ==> !Beyond(Position(status, p.next), KeyOf(status, o))))
  {
    hide Rows, Matches, Keyed;
    var rows, p := Rows(orders, workspace, status, cursor), PageOf(orders, workspace, status, limit, cursor);
    SortedRows(orders, workspace, status, cursor);
    if p.next.Some? { NextPosition(orders, workspace, status, limit, cursor); }
    hide Beyond, Position, KeyOf, PageOf, Precedes, MakeKey;
    forall o
      ensures o in p.items <==>
              && o.id in orders && orders[o.id] == o && Matches(status, workspace, o)
              && Beyond(Position(status, cursor), KeyOf(status, o))
              && (p.next.Some? ==> !Beyond(Position(status, p.next), KeyOf(status, o)))
    {
      RowsMeaning(orders, workspace, status, cursor, o);
      if p.next.Some? {
        SplitMember(status, rows, Clamped(limit), o);
        BeyondOne(KeyOf(status, rows[Clamped(limit) - 1]), KeyOf(status, o));
      }
    }
  }

  lemma BeyondOne(a: Key, b: Key)
    ensures Beyond(Some(a), b) <==> a.Less(b)
  {
  }

  lemma NextPosition(orders: map<Id, Order>, workspace: Id, status: Status, limit: int, cursor: Option<Cursor>)
    requires Keyed(orders)
    ensures var p, rows := PageOf(orders, workspace, status, limit, cursor), Rows(orders, workspace, status, cursor);
            p.next.Some? ==>
              |rows| > Clamped(limit) && Position(status, p.next) == Some(KeyOf(status, rows[Clamped(limit) - 1]))
  {
    hide Rows;
    var p, rows := PageOf(orders, workspace, status, limit, cursor), Rows(orders, workspace, status, cursor);
    if p.next.Some? { RowsMeaning(orders, workspace, status, cursor, rows[Clamped(limit) - 1]); }
  }

  /** The rows after a page are what remains of the rows it was taken from. */
  lemma NextRows(orders: map<Id, Order>, workspace: Id, status: Status, limit: int, cursor: Option<Cursor>)
    requires Keyed(orders)
    ensures var p := PageOf(orders, workspace, status, limit, cursor);
            p.next.Some? ==>
              Rows(orders, workspace, status, cursor) == p.items + Rows(orders, workspace, status, p.next)
  {
    hide AfterCursor, Candidates, Sorted;
    var rows, p := Rows(orders, workspace, status, cursor), PageOf(orders, workspace, status, limit, cursor);
    if p.next.Some? {
      var n := Clamped(limit);
      PageMeaning(orders, workspace, status, limit, cursor);
      var rest := Rows(orders, workspace, status, p.next);
      SortedRows(orders, workspace, status, cursor);
      SortedRows(orders, workspace, status, p.next);
      forall o ensures o in rest <==> o in rows[n..] {
        RowsMeaning(orders, workspace, status, p.next, o);
        RowsMeaning(orders, workspace, status, cursor, o);
        BeyondIsTransitive(Position(status, cursor), KeyOf(status, rows[n - 1]), KeyOf(status, o)) by {
          RowsMeaning(orders, workspace, status, cursor, rows[n - 1]);
        }
        SplitMember(status, rows, n, o);
      }
      OrderIsUnique(status, rest, rows[n..]);
    }
  }

  lemma BeyondIsTransitive(position: Option<Key>, a: Key, b: Key)
    requires Beyond(position, a)
    ensures a.Less(b) ==> Beyond(position, b)
  {
  }

  // ---- A page in the columns of its rows ----

  /** A stored order of the workspace, uncompleted or completed if that is asked for. */
  predicate Belongs(orders: map<Id, Order>, workspace: Id, status: Status, o: Order) {
    && o.id in orders && orders[o.id] == o && o.workspace == workspace
    && (status == Uncompleted ==> o.completedAt == None)
    && (status == Completed ==> o.completedAt != None)
  }

  /** Oldest first for uncompleted orders; last completed first, then newest, for completed ones; newest
      first for all. Identifiers break ties in the same direction. */
  predicate InOrder(status: Status, a: Order, b: Order) {
    match status
    case Uncompleted => a.createdAt < b.createdAt || (a.createdAt == b.createdAt && a.id < b.id)
    case Completed =>
      && a.completedAt.Some? && b.completedAt.Some?
      && (|| a.completedAt.value > b.completedAt.value
          || (a.completedAt == b.completedAt && a.createdAt > b.createdAt)
          || (a.completedAt == b.completedAt && a.createdAt == b.createdAt && a.id > b.id))
    case _ => a.createdAt > b.createdAt || (a.createdAt == b.createdAt && a.id > b.id)
  }

  /** The order comes after the one the cursor was made from. */
  predicate AfterIt(status: Status, c: Cursor, o: Order) {
    match status
    case Uncompleted => o.createdAt > c.createdAt || (o.createdAt == c.createdAt && o.id > c.id)
    case Completed =>
      c.completedAt.Some? ==>
        && o.completedAt.Some?
        && (|| o.completedAt.value < c.completedAt.value
            || (o.completedAt == c.completedAt && o.createdAt < c.createdAt)
            || (o.completedAt == c.completedAt && o.createdAt == c.createdAt && o.id < c.id))
    case _ => o.createdAt < c.createdAt || (o.createdAt == c.createdAt && o.id < c.id)
  }

  predicate Wanted(orders: map<Id, Order>, workspace: Id, status: Status, cursor: Option<Cursor>, o: Order) {
    Belongs(orders, workspace, status, o) && (cursor.Some? ==> AfterIt(status, cursor.value, o))
  }

  /** What a page is: wanted orders, in order, at most the limit of them. Without a next cursor they are
      all there is; with one the page is full, the cursor is that of its last order, and whatever is
      wanted besides comes after it, and something does. */
  ghost predicate PageInColumns(orders: map<Id, Order>, workspace: Id, status: Status, limit: int,
                                cursor: Option<Cursor>, p: Page)
  {
    var most := if limit <= 0 then 50 else if limit > 200 then 200 else limit;
    && |p.items| <= most
    && (forall i :: 0 <= i < |p.items| ==> Wanted(orders, workspace, status, cursor, p.items[i]))
    && (forall i, j :: 0 <= i < j < |p.items| ==> InOrder(status, p.items[i], p.items[j]))
    && (p.next.None? ==> forall o :: Wanted(orders, workspace, status, cursor, o) ==> o in p.items)
    && (p.next.Some? ==>
          && |p.items| == most
          && var last := p.items[most - 1];
          && p.next.value == Cursor(status, last.createdAt, last.completedAt, last.id)
          && (forall o :: Wanted(orders, workspace, status, cursor, o) && o !in p.items ==> InOrder(status, last, o))
          && exists o :: Wanted(orders, workspace, status, cursor, o) && o !in p.items)
  }

  lemma OrderInColumns(status: Status, a: Order, b: Order)
    requires status.Completed? ==> a.completedAt.Some? && b.completedAt.Some?
    ensures InOrder(status, a, b) <==> Precedes(status, a, b)
  {
  }

  lemma WantedIsSelected(orders: map<Id, Order>, workspace: Id, status: Status, cursor: Option<Cursor>, o: Order)
    ensures Wanted(orders, workspace, status, cursor, o) <==>
            && o.id in orders && orders[o.id] == o && Matches(status, workspace, o)
            && Beyond(Position(status, cursor), KeyOf(status, o))
  {
  }

  lemma PageColumns(orders: map<Id, Order>, workspace: Id, status: Status, limit: int, cursor: Option<Cursor>)
    requires Keyed(orders)
    ensures PageInColumns(orders, workspace, status, limit, cursor, PageOf(orders, workspace, status, limit, cursor))
  {
    hide PageOf, Wanted, InOrder, Beyond, Position, KeyOf, Precedes, Rows, Matches;
    var p := PageOf(orders, workspace, status, limit, cursor);
    PageMeaning(orders, workspace, status, limit, cursor);
    forall o
      ensures Wanted(orders, workspace, status, cursor, o) <==>
              && o.id in orders && orders[o.id] == o && Matches(status, workspace, o)
              && Beyond(Position(status, cursor), KeyOf(status, o))
    {
      WantedIsSelected(orders, workspace, status, cursor, o);
    }
    forall i | 0 <= i < |p.items| ensures Wanted(orders, workspace, status, cursor, p.items[i]) {
      assert p.items[i] in p.items;
    }
    forall i, j | 0 <= i < j < |p.items| ensures InOrder(status, p.items[i], p.items[j]) {
      WantedIsComparable(orders, workspace, status, cursor, p.items[i]);
      WantedIsComparable(orders, workspace, status, cursor, p.items[j]);
      OrderInColumns(status, p.items[i], p.items[j]);
    }
    if p.next.Some? { NextInColumns(orders, workspace, status, limit, cursor); }
  }

  lemma WantedIsComparable(orders: map<Id, Order>, workspace: Id, status: Status, cursor: Option<Cursor>, o: Order)
    requires Wanted(orders, workspace, status, cursor, o)
    ensures status.Completed? ==> o.completedAt.Some?
  {
  }

  /** The rest of the listing comes after the page, and is not empty. */
  lemma NextInColumns(orders: map<Id, Order>, workspace: Id, status: Status, limit: int, cursor: Option<Cursor>)
    requires Keyed(orders) && PageOf(orders, workspace, status, limit, cursor).next.Some?
    ensures var p := PageOf(orders, workspace, status, limit, cursor);
            && |p.items| == Clamped(limit)
            && var last := p.items[|p.items| - 1];
            && p.next.value == Cursor(status, last.createdAt, last.completedAt, last.id)
            && (forall o :: Wanted(orders, workspace, status, cursor, o) && o !in p.items ==> InOrder(status, last, o))
            && exists o :: Wanted(orders, workspace, status, cursor, o) && o !in p.items
  {
    hide Wanted, InOrder, Precedes, Rows, Matches, Beyond, Position, KeyOf;
    var p := PageOf(orders, workspace, status, limit, cursor);
    var rows, n := Rows(orders, workspace, status, cursor), Clamped(limit);
    var last := p.items[n - 1];
    SortedRows(orders, workspace, status, cursor);
    forall o ensures o in rows <==> Wanted(orders, workspace, status, cursor, o) {
      RowsMeaning(orders, workspace, status, cursor, o);
      WantedIsSelected(orders, workspace, status, cursor, o);
    }
    assert last == rows[n - 1];
    assert forall k :: 0 <= k < n ==> rows[k] == p.items[k] && p.items[k] in p.items;
    forall o | Wanted(orders, workspace, status, cursor, o) && o !in p.items ensures InOrder(status, last, o) {
      var i :| 0 <= i < |rows| && rows[i] == o;
      assert i >= n;
      assert Precedes(status, rows[n - 1], rows[i]);
      WantedIsComparable(orders, workspace, status, cursor, last);
      WantedIsComparable(orders, workspace, status, cursor, o);
      OrderInColumns(status, last, o);
    }
    assert rows[n] in rows;
    RestIsNotOnPage(status, rows, n);
  }

  lemma RestIsNotOnPage(status: Status, rows: seq<Order>, n: nat)
    requires Ascending(status, rows) && n < |rows|
    ensures rows[n] !in rows[..n]
  {
    hide Precedes;
    if rows[n] in rows[..n] {
      var i :| 0 <= i < n && rows[i] == rows[n];
      KeysDiffer(status, rows[i], rows[n]);
    }
  }

  // ---- A walk over a table that does not change ----

  /** The pages a client sees that follows the cursors from `cursor` on. */
  function Walk(orders: map<Id, Order>, workspace: Id, status: Status, limit: int, cursor: Option<Cursor>): seq<Page>
    requires Keyed(orders)
    decreases |Rows(orders, workspace, status, cursor)|
  {
    var p := PageOf(orders, workspace, status, limit, cursor);
    NextRows(orders, workspace, status, limit, cursor);
    [p] + (if p.next.None? then [] else Walk(orders, workspace, status, limit, p.next))
  }

  function Returned(pages: seq<Page>): seq<Order> {
    if pages == [] then [] else pages[0].items + Returned(pages[1..])
  }

  lemma {:induction false} WalkFrom(orders: map<Id, Order>, workspace: Id, status: Status, limit: int,
                                  cursor: Option<Cursor>)
    requires Keyed(orders)
    ensures var pages := Walk(orders, workspace, status, limit, cursor);
            && Returned(pages) == Rows(orders, workspace, status, cursor)
            && |pages| >= 1
            && (forall i :: 0 <= i < |pages| ==>
                  && |pages[i].items| <= Clamped(limit)
                  && (pages[i].next.None? <==> i == |pages| - 1)
                  && (i < |pages| - 1 ==> |pages[i].items| == Clamped(limit))
                  && (pages[i].items == [] ==> i == 0 && Rows(orders, workspace, status, cursor) == []))
    decreases |Rows(orders, workspace, status, cursor)|
  {
    hide Rows, PageOf;
    var p := PageOf(orders, workspace, status, limit, cursor);
    PageMeaning(orders, workspace, status, limit, cursor);
    LastPage(orders, workspace, status, limit, cursor);
    NextRows(orders, workspace, status, limit, cursor);
    if p.next.Some? {
      WalkFrom(orders, workspace, status, limit, p.next);
      var pages, rest := Walk(orders, workspace, status, limit, cursor), Walk(orders, workspace, status, limit, p.next);
      assert pages == [p] + rest;
      assert forall i :: 1 <= i < |pages| ==> pages[i] == rest[i - 1];
    } else {
      assert Walk(orders, workspace, status, limit, cursor) == [p];
      assert p.items + [] == p.items;
    }
  }

  lemma LastPage(orders: map<Id, Order>, workspace: Id, status: Status, limit: int, cursor: Option<Cursor>)
    requires Keyed(orders)
    ensures var p := PageOf(orders, workspace, status, limit, cursor);
            var rows := Rows(orders, workspace, status, cursor);
            && (p.next.None? ==> p.items == rows)
            && (p.next.Some? ==> |rows| > |p.items| && Rows(orders, workspace, status, p.next) != [])
  {
    hide Sorted, Candidates;
    NextRows(orders, workspace, status, limit, cursor);
  }

  /** Frozen-table pagination: for every status and any requested limit, following the cursors
      from the start terminates; every page holds at most the clamped limit, and all but the last
      exactly that many; only the first can be empty; a nil cursor comes exactly with the last
      page; and the pages concatenate to the whole listing in its order. */
  lemma FrozenWalk(orders: map<Id, Order>, workspace: Id, status: Status, limit: int)
    requires Keyed(orders)
    ensures var pages := Walk(orders, workspace, status, limit, None);
            && Returned(pages) == Listing(orders, workspace, status)
            && (forall i :: 0 <= i < |pages| ==>
                  && |pages[i].items| <= Clamped(limit)
                  && (pages[i].next.None? <==> i == |pages| - 1)
                  && (i < |pages| - 1 ==> |pages[i].items| == Clamped(limit))
                  && (pages[i].items == [] ==> |pages| == 1))
  {
    hide Rows, Walk;
    WalkFrom(orders, workspace, status, limit, None);
  }

  // ---- A walk while the table changes ----

  /** A cursor walk in which the table may be different at every request. */
  ghost predicate WalkOver(tables: seq<map<Id, Order>>, workspace: Id, status: Status,
                         limits: seq<int>, pages: seq<Page>) {
    && |tables| == |limits| == |pages| && pages != []
    && (forall i :: 0 <= i < |tables| ==> Keyed(tables[i]))
    && (forall i :: 0 <= i < |pages| ==>
          pages[i] == PageOf(tables[i], workspace, status, limits[i], if i == 0 then None else pages[i - 1].next))
    && (forall i :: 0 <= i < |pages| - 1 ==> pages[i].next.Some?)
  }

  function CursorOf(pages: seq<Page>, i: nat): Option<Cursor>
    requires i <= |pages|
  {
    if i == 0 then None else pages[i - 1].next
  }

  /** Wherever the order is in the tables, it stands at `k` in the listing. */
  ghost predicate StandsAt(tables: seq<map<Id, Order>>, status: Status, id: Id, k: Key) {
    forall i :: 0 <= i < |tables| && id in tables[i] ==> KeyOf(status, tables[i][id]) == k
  }

  lemma PageOfWalk(tables: seq<map<Id, Order>>, workspace: Id, status: Status, limits: seq<int>, pages: seq<Page>,
                   i: nat, o: Order)
    requires WalkOver(tables, workspace, status, limits, pages) && i < |pages|
    ensures Ascending(status, pages[i].items)
    ensures o in pages[i].items <==>
              && o.id in tables[i] && tables[i][o.id] == o && Matches(status, workspace, o)
              && Beyond(Position(status, CursorOf(pages, i)), KeyOf(status, o))
              && (pages[i].next.Some? ==> !Beyond(Position(status, pages[i].next), KeyOf(status, o)))
  {
    hide PageOf;
    PageMeaning(tables[i], workspace, status, limits[i], CursorOf(pages, i));
  }

  /** Cursors only move forward. */
  lemma {:induction false} CursorsAdvance(tables: seq<map<Id, Order>>, workspace: Id, status: Status, limits: seq<int>,
                                          pages: seq<Page>, i: nat, j: nat, k: Key)
    requires WalkOver(tables, workspace, status, limits, pages) && i <= j < |pages|
    requires Beyond(Position(status, CursorOf(pages, j)), k)
    ensures Beyond(Position(status, CursorOf(pages, i)), k)
    decreases j - i
  {
    hide PageOf;
    if i < j {
      var p := pages[j - 1];
      PageMeaning(tables[j - 1], workspace, status, limits[j - 1], CursorOf(pages, j - 1));
      var last := p.items[|p.items| - 1];
      assert last in p.items;
      PageOfWalk(tables, workspace, status, limits, pages, j - 1, last);
      assert Position(status, p.next) == Some(KeyOf(status, last));
      BeyondIsTransitive(Position(status, CursorOf(pages, j - 1)), KeyOf(status, last), k);
      CursorsAdvance(tables, workspace, status, limits, pages, i, j - 1, k);
    }
  }

  /** An order that moves in the listing only moves towards its front. For a completed order: its
      completion time never goes back. */
  ghost predicate NeverBack(tables: seq<map<Id, Order>>, status: Status, id: Id) {
    forall i, j :: 0 <= i <= j < |tables| && id in tables[i] && id in tables[j] ==>
      NotAfter(KeyOf(status, tables[j][id]), KeyOf(status, tables[i][id]))
  }

  predicate NotAfter(a: Key, b: Key) { a == b || a.Less(b) }

  lemma BeyondGoesUp(position: Option<Key>, a: Key, b: Key)
    requires NotAfter(a, b) && Beyond(position, a)
    ensures Beyond(position, b)
  {
  }

  lemma StandingIsNeverBack(tables: seq<map<Id, Order>>, status: Status, id: Id, k: Key)
    requires StandsAt(tables, status, id, k)
    ensures NeverBack(tables, status, id)
  {
    hide KeyOf;
  }

  /** No order is returned twice, whatever happens to the table between the pages, as long as it never
      moves back in the listing. */
  lemma NothingTwiceForward(tables: seq<map<Id, Order>>, workspace: Id, status: Status,
                            limits: seq<int>, pages: seq<Page>,
                            id: Id, i: nat, a: nat, j: nat, b: nat)
    requires WalkOver(tables, workspace, status, limits, pages) && NeverBack(tables, status, id)
    requires i <= j < |pages| && a < |pages[i].items| && b < |pages[j].items|
    requires pages[i].items[a].id == id && pages[j].items[b].id == id
    ensures i == j && a == b
  {
    hide PageOf, KeyOf, NotAfter;
    var x, y := pages[i].items[a], pages[j].items[b];
    PageOfWalk(tables, workspace, status, limits, pages, i, x);
    PageOfWalk(tables, workspace, status, limits, pages, j, y);
    if i < j {
      CursorsAdvance(tables, workspace, status, limits, pages, i + 1, j, KeyOf(status, y));
      BeyondGoesUp(Position(status, pages[i].next), KeyOf(status, y), KeyOf(status, x));
    } else {
      PlacesDiffer(status, pages[i].items, a, b);
    }
  }

  /** The same for an order that keeps its place. */
  lemma NothingTwice(tables: seq<map<Id, Order>>, workspace: Id, status: Status, limits: seq<int>, pages: seq<Page>,
                     id: Id, k: Key, i: nat, a: nat, j: nat, b: nat)
    requires WalkOver(tables, workspace, status, limits, pages) && StandsAt(tables, status, id, k)
    requires i <= j < |pages| && a < |pages[i].items| && b < |pages[j].items|
    requires pages[i].items[a].id == id && pages[j].items[b].id == id
    ensures i == j && a == b
  {
    hide PageOf, KeyOf, WalkOver;
    StandingIsNeverBack(tables, status, id, k);
    NothingTwiceForward(tables, workspace, status, limits, pages, id, i, a, j, b);
  }

  lemma PlacesDiffer(status: Status, s: seq<Order>, a: nat, b: nat)
    requires Ascending(status, s) && a < |s| && b < |s|
    ensures a != b ==> KeyOf(status, s[a]) != KeyOf(status, s[b])
  {
    if a < b { assert Precedes(status, s[a], s[b]); }
    if b < a { assert Precedes(status, s[b], s[a]); }
  }

  predicate Returns(pages: seq<Page>, id: Id) {
    exists i, a :: 0 <= i < |pages| && 0 <= a < |pages[i].items| && pages[i].items[a].id == id
  }

  /** Between two requests the order moves from beyond the cursor to a place the cursor has passed. */
  predicate Jumps(tables: seq<map<Id, Order>>, status: Status, pages: seq<Page>, id: Id, i: nat)
    requires |tables| == |pages| && i < |pages| - 1 && id in tables[i] && id in tables[i + 1]
  {
    && Beyond(Position(status, pages[i].next), KeyOf(status, tables[i][id]))
    && !Beyond(Position(status, pages[i].next), KeyOf(status, tables[i + 1][id]))
  }

  /** When the walk has ended, an order that matched at every request and never jumped the cursor has
      been returned, wherever it moved. */
  lemma MissedOnlyByJump(tables: seq<map<Id, Order>>, workspace: Id, status: Status,
                         limits: seq<int>, pages: seq<Page>, id: Id)
    returns (i: nat, a: nat)
    requires WalkOver(tables, workspace, status, limits, pages) && pages[|pages| - 1].next.None?
    requires forall t :: 0 <= t < |tables| ==> id in tables[t] && Matches(status, workspace, tables[t][id])
    requires forall t :: 0 <= t < |pages| - 1 ==> !Jumps(tables, status, pages, id, t)
    ensures i < |pages| && a < |pages[i].items| && pages[i].items[a].id == id
  {
    hide PageOf, KeyOf;
    i := 0;
    while pages[i].next.Some? && Beyond(Position(status, pages[i].next), KeyOf(status, tables[i][id]))
      invariant i < |pages| && Beyond(Position(status, CursorOf(pages, i)), KeyOf(status, tables[i][id]))
      decreases |pages| - i
    {
      assert !Jumps(tables, status, pages, id, i);
      i := i + 1;
    }
    var o := tables[i][id];
    PageOfWalk(tables, workspace, status, limits, pages, i, o);
    a :| 0 <= a < |pages[i].items| && pages[i].items[a] == o;
  }

  /** When the walk has ended, every order that was there and matched throughout, in one place of
      the listing, has been returned. */
  lemma NothingMissed(tables: seq<map<Id, Order>>, workspace: Id, status: Status, limits: seq<int>, pages: seq<Page>,
                      id: Id, k: Key) returns (i: nat, a: nat)
    requires WalkOver(tables, workspace, status, limits, pages) && StandsAt(tables, status, id, k)
    requires pages[|pages| - 1].next.None?
    requires forall t :: 0 <= t < |tables| ==> id in tables[t] && Matches(status, workspace, tables[t][id])
    ensures i < |pages| && a < |pages[i].items| && pages[i].items[a].id == id
  {
    hide PageOf, KeyOf, Beyond;
    i, a := MissedOnlyByJump(tables, workspace, status, limits, pages, id);
  }

  /** An order that jumped the cursor and never moved back is on no page. */
  lemma JumpIsMissed(tables: seq<map<Id, Order>>, workspace: Id, status: Status, limits: seq<int>, pages: seq<Page>,
                     id: Id, i: nat, j: nat, a: nat)
    requires WalkOver(tables, workspace, status, limits, pages) && NeverBack(tables, status, id)
    requires i < |pages| - 1 && id in tables[i] && id in tables[i + 1] && Jumps(tables, status, pages, id, i)
    requires j < |pages| && a < |pages[j].items|
    ensures pages[j].items[a].id != id
  {
    hide PageOf, KeyOf, NotAfter;
    var y := pages[j].items[a];
    PageOfWalk(tables, workspace, status, limits, pages, j, y);
    if y.id == id {
      if j <= i {
        BeyondGoesUp(Position(status, pages[i].next), KeyOf(status, tables[i][id]), KeyOf(status, y));
        CursorsAdvance(tables, workspace, status, limits, pages, j + 1, i + 1, KeyOf(status, y));
      } else {
        CursorsAdvance(tables, workspace, status, limits, pages, i + 1, j, KeyOf(status, y));
        BeyondGoesUp(Position(status, pages[i].next), KeyOf(status, y), KeyOf(status, tables[i + 1][id]));
      }
    }
  }

  /** Exactly when an order is skipped: an order that matched at every request and never moved back is
      missing from an ended walk if and only if it jumped the cursor between two requests. */
  lemma SkippedIffJumped(tables: seq<map<Id, Order>>, workspace: Id, status: Status,
                         limits: seq<int>, pages: seq<Page>, id: Id)
    requires WalkOver(tables, workspace, status, limits, pages) && pages[|pages| - 1].next.None?
    requires forall t :: 0 <= t < |tables| ==> id in tables[t] && Matches(status, workspace, tables[t][id])
    requires NeverBack(tables, status, id)
    ensures !Returns(pages, id) <==> exists i :: 0 <= i < |pages| - 1 && Jumps(tables, status, pages, id, i)
  {
    hide PageOf, Jumps, NeverBack;
    if exists i :: 0 <= i < |pages| - 1 && Jumps(tables, status, pages, id, i) {
      var i :| 0 <= i < |pages| - 1 && Jumps(tables, status, pages, id, i);
      forall j, a | 0 <= j < |pages| && 0 <= a < |pages[j].items| ensures pages[j].items[a].id != id {
        JumpIsMissed(tables, workspace, status, limits, pages, id, i, j, a);
      }
    } else {
      var i, a := MissedOnlyByJump(tables, workspace, status, limits, pages, id);
    }
  }

  /** The completed listing makes no such promise, because completion times change: an order that
      is reopened and completed again between two requests moves in front of the cursor and is
      never returned, although it matched at every request. */
  lemma CompletedWalkCanMiss(x: Order, y: Order, y': Order)
    requires x.id != y.id && y'.id == y.id && x.workspace == y.workspace == y'.workspace
    requires x.completedAt.Some? && y.completedAt.Some? && y'.completedAt.Some?
    requires y.completedAt.value < x.completedAt.value < y'.completedAt.value
    ensures var t0, t1 := map[x.id := x, y.id := y], map[x.id := x, y.id := y'];
            var p0 := PageOf(t0, x.workspace, Completed, 1, None);
            var p1 := PageOf(t1, x.workspace, Completed, 1, p0.next);
            && WalkOver([t0, t1], x.workspace, Completed, [1, 1], [p0, p1])
            && p0.items == [x] && p1 == Page([], None)
  {
    hide Sorted, Rows;
    var t0, t1 := map[x.id := x, y.id := y], map[x.id := x, y.id := y'];
    RowsMeaning(t0, x.workspace, Completed, None, x);
    RowsMeaning(t0, x.workspace, Completed, None, y);
    var rows := Rows(t0, x.workspace, Completed, None);
    SortedRows(t0, x.workspace, Completed, None);
    forall o ensures o in rows <==> o in [x, y] { RowsMeaning(t0, x.workspace, Completed, None, o); }
    OrderIsUnique(Completed, rows, [x, y]);
    var p0 := PageOf(t0, x.workspace, Completed, 1, None);
    assert p0.items == [x];
    var rest := Rows(t1, x.workspace, Completed, p0.next);
    forall o ensures o !in rest { RowsMeaning(t1, x.workspace, Completed, p0.next, o); }
    assert rest == [] by { SortedRows(t1, x.workspace, Completed, p0.next); OrderIsUnique(Completed, rest, []); }
  }
}

/** Pagination of the table that the mutations of the service change. */
module LivePagination {
  import opened Common
  import opened OrderForms
  import opened Orders
  import opened Pagination
  import OrderVersions

  /** The tables of one run at the moments of the requests. */
  ghost predicate Snapshots(actions: seq<OrderVersions.Action>, cuts: seq<nat>, tables: seq<map<Id, Order>>) {
    && |cuts| == |tables|
    && (forall i :: 0 <= i < |cuts| ==>
          cuts[i] <= |actions| && tables[i] == OrderVersions.Run(actions[..cuts[i]]).table)
    && (forall i, j :: 0 <= i <= j < |cuts| ==> cuts[i] <= cuts[j])
  }

  /** Creation time and identifier never change, so in the listings of all and of uncompleted
      orders an order never moves. */
  lemma OrdersStandStill(actions: seq<OrderVersions.Action>, cuts: seq<nat>, tables: seq<map<Id, Order>>,
                         status: Status, id: Id, i: nat, j: nat)
    requires Snapshots(actions, cuts, tables) && !status.Completed?
    requires i < |tables| && j < |tables| && id in tables[i] && id in tables[j]
    ensures KeyOf(status, tables[i][id]) == KeyOf(status, tables[j][id])
  {
    hide OrderVersions.Run;
    var m, n := if i <= j then i else j, if i <= j then j else i;
    var early, late := actions[..cuts[m]], actions[..cuts[n]];
    assert late == early + actions[cuts[m]..cuts[n]];
    OrderVersions.LifeCycle(early, actions[cuts[m]..cuts[n]], id);
  }

  lemma TablesAreKeyed(actions: seq<OrderVersions.Action>)
    ensures Keyed(OrderVersions.Run(actions).table)
  {
    hide OrderVersions.Run, OrderVersions.LineOk;
    OrderVersions.RunKeepsInv(actions);
    forall id | id in OrderVersions.Run(actions).table ensures OrderVersions.Run(actions).table[id].id == id {
      OrderVersions.TableIsRecorded(OrderVersions.Run(actions), id);
    }
  }

  lemma StandsSomewhere(actions: seq<OrderVersions.Action>, cuts: seq<nat>, tables: seq<map<Id, Order>>,
                        status: Status, id: Id, i: nat)
    requires Snapshots(actions, cuts, tables) && !status.Completed? && i < |tables| && id in tables[i]
    ensures StandsAt(tables, status, id, KeyOf(status, tables[i][id]))
  {
    hide OrderVersions.Run, KeyOf;
    forall j | 0 <= j < |tables| && id in tables[j]
      ensures KeyOf(status, tables[j][id]) == KeyOf(status, tables[i][id]) {
      OrdersStandStill(actions, cuts, tables, status, id, i, j);
    }
  }

  /** Pagination under mutation: over any run of concurrent creates, updates, toggles and deletes,
      a cursor walk through all or through the uncompleted orders returns no order twice. */
  lemma {:induction false} NoOrderTwice(actions: seq<OrderVersions.Action>, cuts: seq<nat>, tables: seq<map<Id, Order>>,
                     workspace: Id, status: Status, limits: seq<int>, pages: seq<Page>, i: nat, a: nat, j: nat, b: nat)
    requires Snapshots(actions, cuts, tables) && (status.All? || status.Uncompleted?)
    requires WalkOver(tables, workspace, status, limits, pages)
    requires i < |pages| && j < |pages| && a < |pages[i].items| && b < |pages[j].items|
    requires pages[i].items[a].id == pages[j].items[b].id
    ensures i == j && a == b
  {
    hide OrderVersions.Run, KeyOf, PageOf;
    var x := pages[i].items[a];
    PageOfWalk(tables, workspace, status, limits, pages, i, x);
    StandsSomewhere(actions, cuts, tables, status, x.id, i);
    var k := KeyOf(status, tables[i][x.id]);
    if i <= j { NothingTwice(tables, workspace, status, limits, pages, x.id, k, i, a, j, b); }
    else { NothingTwice(tables, workspace, status, limits, pages, x.id, k, j, b, i, a); }
  }

  /** And once it has ended, every order that matched at every request has been returned. */
  lemma {:induction false} NoOrderMissed(actions: seq<OrderVersions.Action>, cuts: seq<nat>,
                                          tables: seq<map<Id, Order>>,
                      workspace: Id, status: Status, limits: seq<int>, pages: seq<Page>, id: Id)
    requires Snapshots(actions, cuts, tables) && (status.All? || status.Uncompleted?)
    requires WalkOver(tables, workspace, status, limits, pages) && pages[|pages| - 1].next.None?
    requires forall t :: 0 <= t < |tables| ==> id in tables[t] && Matches(status, workspace, tables[t][id])
    ensures exists i, a :: 0 <= i < |pages| && 0 <= a < |pages[i].items| && pages[i].items[a].id == id
  {
    hide OrderVersions.Run, KeyOf, PageOf, Matches;
    StandsSomewhere(actions, cuts, tables, status, id, 0);
    var i, a := NothingMissed(tables, workspace, status, limits, pages, id, KeyOf(status, tables[0][id]));
  }

  // ---- Completed orders ----

  /** The commits of one order carry clock readings that do not go back. */
  ghost predicate ClockForward(s: OrderVersions.State, id: Id) {
    id in s.history ==>
      forall k :: 0 <= k < |s.history[id]| - 1 ==> s.history[id][k].updatedAt <= s.history[id][k + 1].updatedAt
  }

  lemma {:induction false} LineForward(line: seq<Order>, i: nat, j: nat)
    requires forall k :: 0 <= k < |line| - 1 ==> line[k].updatedAt <= line[k + 1].updatedAt
    requires i <= j < |line|
    ensures line[i].updatedAt <= line[j].updatedAt
    decreases j - i
  {
    if i < j { LineForward(line, i, j - 1); }
  }

  /** The row of a snapshot is a committed row of the whole run. */
  lemma SnapshotRow(actions: seq<OrderVersions.Action>, cut: nat, id: Id)
    requires cut <= |actions| && id in OrderVersions.Run(actions[..cut]).table
    ensures var s, o := OrderVersions.Run(actions), OrderVersions.Run(actions[..cut]).table[id];
            && o.id == id && id in OrderVersions.Run(actions[..cut]).history
            && o.version == |OrderVersions.Run(actions[..cut]).history[id]|
            && OrderVersions.Recorded(s, o) && RowOk(o)
  {
    hide OrderVersions.Run, OrderVersions.LineOk, RowOk;
    var early, later := actions[..cut], actions[cut..];
    assert early + later == actions;
    OrderVersions.RunKeepsInv(early);
    OrderVersions.TableIsRecorded(OrderVersions.Run(early), id);
    OrderVersions.RunExtends(early, later);
    OrderVersions.LifeCycle(early, [], id);
  }

  /** In a run whose clock readings for an order do not go back, a completed order never moves back in
      the completed listing: its completion time is the clock reading of the commit that set it. */
  lemma CompletedMovesForward(actions: seq<OrderVersions.Action>, cuts: seq<nat>, tables: seq<map<Id, Order>>,
                              workspace: Id, id: Id)
    requires Snapshots(actions, cuts, tables) && ClockForward(OrderVersions.Run(actions), id)
    requires forall t :: 0 <= t < |tables| ==> id in tables[t] && Matches(Completed, workspace, tables[t][id])
    ensures NeverBack(tables, Completed, id)
  {
    hide OrderVersions.Run, KeyOf, NotAfter;
    forall i, j | 0 <= i <= j < |tables|
      ensures NotAfter(KeyOf(Completed, tables[j][id]), KeyOf(Completed, tables[i][id])) {
      LaterIsForward(actions, cuts[i], cuts[j], workspace, id);
    }
  }

  lemma LaterIsForward(actions: seq<OrderVersions.Action>, m: nat, n: nat, workspace: Id, id: Id)
    requires m <= n <= |actions| && ClockForward(OrderVersions.Run(actions), id)
    requires var t, t' := OrderVersions.Run(actions[..m]).table, OrderVersions.Run(actions[..n]).table;
             id in t && id in t' && Matches(Completed, workspace, t[id]) && Matches(Completed, workspace, t'[id])
    ensures NotAfter(KeyOf(Completed, OrderVersions.Run(actions[..n]).table[id]),
                     KeyOf(Completed, OrderVersions.Run(actions[..m]).table[id]))
  {
    hide OrderVersions.Run, RowOk, KeyOf, NotAfter, SameIdentity, ClockForward, OrderVersions.Recorded;
    var a, b := OrderVersions.Run(actions[..m]).table[id], OrderVersions.Run(actions[..n]).table[id];
    SnapshotRow(actions, m, id);
    SnapshotRow(actions, n, id);
    LaterVersion(actions, m, n, id);
    VersionsForward(OrderVersions.Run(actions), a, b);
    ForwardKeys(a, b);
  }

  lemma LaterVersion(actions: seq<OrderVersions.Action>, m: nat, n: nat, id: Id)
    requires m <= n <= |actions|
    requires id in OrderVersions.Run(actions[..m]).table && id in OrderVersions.Run(actions[..n]).table
    ensures var a, b := OrderVersions.Run(actions[..m]).table[id], OrderVersions.Run(actions[..n]).table[id];
            a.version <= b.version && SameIdentity(a, b)
  {
    hide OrderVersions.Run, RowOk, Storable;
    assert actions[..m] + actions[m..n] == actions[..n];
    OrderVersions.LifeCycle(actions[..m], actions[m..n], id);
  }

  lemma VersionsForward(s: OrderVersions.State, a: Order, b: Order)
    requires OrderVersions.Recorded(s, a) && OrderVersions.Recorded(s, b) && a.id == b.id && a.version <= b.version
    requires ClockForward(s, a.id)
    ensures a.updatedAt <= b.updatedAt
  {
    LineForward(s.history[a.id], a.version - 1, b.version - 1);
  }

  lemma ForwardKeys(a: Order, b: Order)
    requires RowOk(a) && RowOk(b) && SameIdentity(a, b) && a.completedAt.Some? && b.completedAt.Some?
    requires a.updatedAt <= b.updatedAt
    ensures NotAfter(KeyOf(Completed, b), KeyOf(Completed, a))
  {
    hide NormalForm, TotalPrice, CanServe, StatusOk;
  }

  /** Over any run of the service in which the clock readings of an order do not go back: an order that
      was completed at every request is returned at most once by a walk through the completed orders,
      and is missing from an ended one if and only if it jumped the cursor, that is, it was reopened and
      completed again while it still lay beyond the cursor. */
  lemma {:induction false} CompletedSkippedIff(actions: seq<OrderVersions.Action>, cuts: seq<nat>,
                                               tables: seq<map<Id, Order>>,
                                               workspace: Id, limits: seq<int>, pages: seq<Page>, id: Id)
    requires Snapshots(actions, cuts, tables) && ClockForward(OrderVersions.Run(actions), id)
    requires WalkOver(tables, workspace, Completed, limits, pages) && pages[|pages| - 1].next.None?
    requires forall t :: 0 <= t < |tables| ==> id in tables[t] && Matches(Completed, workspace, tables[t][id])
    ensures !Returns(pages, id) <==> exists i :: 0 <= i < |pages| - 1 && Jumps(tables, Completed, pages, id, i)
    ensures forall i, a, j, b |
              0 <= i <= j < |pages| && 0 <= a < |pages[i].items| && 0 <= b < |pages[j].items|
              && pages[i].items[a].id == id && pages[j].items[b].id == id ::
              i == j && a == b
  {
    hide OrderVersions.Run, PageOf, NeverBack, Snapshots, ClockForward, Jumps, Matches, KeyOf;
    CompletedMovesForward(actions, cuts, tables, workspace, id);
    SkippedIffJumped(tables, workspace, Completed, limits, pages, id);
    forall i, a, j, b | 0 <= i <= j < |pages| && 0 <= a < |pages[i].items| && 0 <= b < |pages[j].items|
      && pages[i].items[a].id == id && pages[j].items[b].id == id
      ensures i == j && a == b
    {
      NothingTwiceForward(tables, workspace, Completed, limits, pages, id, i, a, j, b);
    }
  }
}
