// Keyset pagination: pages of an ordered list, and a client that follows the cursors.

module Keyset {
  import opened Lines
  import opened Sequences
  import opened Sorting

  // A row's place in the order is its time and id; the rest of its columns are one value here.
  datatype Row = Row(id: string, at: int, columns: string)

  datatype Direction = Asc | Desc

  // The ordering key of the boundary row: a time, or the id itself.
  datatype Value = AtTime(at: int) | AtId(text: string)

  datatype Cursor = Cursor(value: Value, direction: Direction, id: string)

  datatype Page = Page(data: seq<Row>, nextCursor: Option<Cursor>)

  type Order = (Row, Row) -> bool

  type Condition = Row -> bool

  type List = (seq<Row>, Option<Cursor>) -> Page

  // ---------------------------------------------------------------- queries

  function ById(): Order {
    (a: Row, b: Row) => StrLess(a.id, b.id)
  }

  function TimeThenId(a: Row, b: Row): bool {
    a.at < b.at || (a.at == b.at && StrLess(a.id, b.id))
  }

  function ByTime(direction: Direction): Order {
    (a: Row, b: Row) => if direction == Asc then TimeThenId(a, b) else TimeThenId(b, a)
  }

  // The rows that meet the condition, in order, at most so many.
  function FindMany(order: Order, where: Condition, table: seq<Row>, take: nat): seq<Row> {
    var rows := Sort(order, Filter(where, table));
    if |rows| <= take then rows else rows[..take]
  }

  type Boundary = Row -> Cursor

  function TimeCursor(direction: Direction): Boundary {
    (last: Row) => Cursor(AtTime(last.at), direction, last.id)
  }

  function IdCursor(): Boundary {
    (last: Row) => Cursor(AtId(last.id), Asc, last.id)
  }

  function TakePage(rows: seq<Row>, limit: nat, boundary: Boundary): Page {
    if |rows| == 0 then Page([], None)
    else
      var data := if |rows| > limit then rows[..limit] else rows;
      Page(data, if |rows| > limit && |data| > 0 then Some(boundary(data[|data| - 1])) else None)
  }

  // Strictly beyond a time cursor, in the cursor's own direction.
  predicate BeyondTime(cursor: Option<Cursor>, row: Row) {
    cursor.Some? && cursor.value.value.AtTime? ==>
      var c := cursor.value;
      if c.direction == Asc then row.at > c.value.at || (row.at == c.value.at && StrLess(c.id, row.id))
      else row.at < c.value.at || (row.at == c.value.at && StrLess(row.id, c.id))
  }

  predicate BeyondId(cursor: Option<Cursor>, row: Row) {
    cursor.Some? ==> if cursor.value.direction == Asc then StrLess(cursor.value.id, row.id) else StrLess(row.id, cursor.value.id)
  }

  function WhereTime(matches: Condition, cursor: Option<Cursor>): Condition {
    (row: Row) => matches(row) && BeyondTime(cursor, row)
  }

  function WhereId(matches: Condition, cursor: Option<Cursor>): Condition {
    (row: Row) => matches(row) && BeyondId(cursor, row)
  }

  function DirectionOf(first: Direction, cursor: Option<Cursor>): Direction {
    if cursor.Some? then cursor.value.direction else first
  }

  function TimePage(direction: Direction, matches: Condition, limit: nat, table: seq<Row>, cursor: Option<Cursor>): Page {
    TakePage(FindMany(ByTime(direction), WhereTime(matches, cursor), table, limit + 1), limit, TimeCursor(direction))
  }

  // Events from the earliest start, opportunities from the latest detection, unless a cursor says otherwise.
  function ListByTime(first: Direction, matches: Condition, limit: nat): List {
    (table: seq<Row>, cursor: Option<Cursor>) => TimePage(DirectionOf(first, cursor), matches, limit, table, cursor)
  }

  // Markets and odds.
  function ListById(matches: Condition, limit: nat): List {
    (table: seq<Row>, cursor: Option<Cursor>) =>
      TakePage(FindMany(ById(), WhereId(matches, cursor), table, limit + 1), limit, IdCursor())
  }

  // ---------------------------------------------------------------- a client that follows the cursors

  datatype Walk = Walk(visited: seq<Row>, cursor: Option<Cursor>, done: bool)

  // One request per table: the table as it is when that page is asked for.
  function Follow(list: List, tables: seq<seq<Row>>): Walk {
    if |tables| == 0 then Walk([], None, false)
    else
      var n := |tables| - 1;
      Next(list, tables[n], Follow(list, tables[..n]))
  }

  function Next(list: List, table: seq<Row>, w: Walk): Walk {
    if w.done then w
    else
      var page := list(table, w.cursor);
      Walk(w.visited + page.data, page.nextCursor, page.nextCursor.None?)
  }
}
