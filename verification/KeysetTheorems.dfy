// A client that follows the cursors sees every row exactly once, in order, even while rows come and go.

module KeysetTheorems {
  import opened Lines
  import opened Sequences
  import opened Sorting
  import opened Keyset

  // ---------------------------------------------------------------- one page

  // What a page of the rows that meet a condition must be.
  ghost predicate IsPage(order: Order, where: Condition, table: seq<Row>, page: Page, boundary: Boundary) {
    && Ascending(order, page.data)
    && (forall x :: x in page.data ==> x in table && where(x))
    && (page.nextCursor.None? ==> forall x :: x in table && where(x) ==> x in page.data)
    && (page.nextCursor.Some? ==>
          && |page.data| > 0 && page.nextCursor == Some(boundary(page.data[|page.data| - 1]))
          && forall x :: x in table && where(x) ==> x in page.data || order(page.data[|page.data| - 1], x))
  }

  lemma {:induction false} FilterComparable(order: Order, where: Condition, table: seq<Row>)
    requires Comparable(order, table)
    ensures Comparable(order, Filter(where, table))
  {
    if |table| > 0 {
      var n := |table| - 1;
      var front := Filter(where, table[..n]);
      FilterComparable(order, where, table[..n]);
      forall i | 0 <= i < |front| ensures order(front[i], table[n]) || order(table[n], front[i]) {
        assert front[i] in table[..n];
      }
    }
  }

  lemma SortedRows(order: Order, where: Condition, table: seq<Row>)
    requires StrictOrder(order) && Comparable(order, table)
    ensures Ascending(order, Sort(order, Filter(where, table)))
    ensures forall x :: x in Sort(order, Filter(where, table)) <==> x in table && where(x)
  {
    FilterComparable(order, where, table);
    SortAscends(order, Filter(where, table));
    SortHolds(order, Filter(where, table));
    forall x ensures x in Sort(order, Filter(where, table)) <==> x in table && where(x) {
      assert x in Sort(order, Filter(where, table)) <==> x in multiset(Sort(order, Filter(where, table)));
      assert x in Filter(where, table) <==> x in multiset(Filter(where, table));
    }
  }

  // The front of an ascending list, and where the rest of it lies.
  lemma FrontAscends(order: Order, all: seq<Row>, limit: nat)
    requires Ascending(order, all) && 0 < limit < |all|
    ensures Ascending(order, all[..limit])
    ensures forall x :: x in all ==> x in all[..limit] || order(all[limit - 1], x)
    ensures forall x :: x in all[..limit] ==> x in all
  {
    forall x | x in all ensures x in all[..limit] || order(all[limit - 1], x) {
      var i :| 0 <= i < |all| && all[i] == x;
      if i < limit {
        assert all[..limit][i] == x;
      }
    }
  }

  lemma TakePageMeans(all: seq<Row>, limit: nat, boundary: Boundary)
    requires limit > 0
    ensures TakePage(if |all| <= limit + 1 then all else all[..limit + 1], limit, boundary)
         == if |all| <= limit then Page(all, None) else Page(all[..limit], Some(boundary(all[limit - 1])))
  {
    if |all| > limit + 1 {
      assert all[..limit + 1][..limit] == all[..limit];
    }
  }

  lemma AscendingIsPage(order: Order, where: Condition, table: seq<Row>, all: seq<Row>, limit: nat, boundary: Boundary)
    requires Ascending(order, all) && limit > 0
    requires forall x :: x in all <==> x in table && where(x)
    ensures IsPage(order, where, table,
                   if |all| <= limit then Page(all, None) else Page(all[..limit], Some(boundary(all[limit - 1]))), boundary)
  {
    if |all| > limit {
      FrontAscends(order, all, limit);
    }
  }

  lemma TakenIsPage(order: Order, where: Condition, table: seq<Row>, limit: nat, boundary: Boundary)
    requires StrictOrder(order) && Comparable(order, table) && limit > 0
    ensures IsPage(order, where, table, TakePage(FindMany(order, where, table, limit + 1), limit, boundary), boundary)
  {
    var all := Sort(order, Filter(where, table));
    SortedRows(order, where, table);
    TakePageMeans(all, limit, boundary);
    AscendingIsPage(order, where, table, all, limit, boundary);
  }

  // ---------------------------------------------------------------- lists

  // The cursor that stands for having seen everything up to a row.
  function CursorAt(boundary: Boundary, last: Option<Row>): Option<Cursor> {
    if last.Some? then Some(boundary(last.value)) else None
  }

  function Beyond(order: Order, matches: Condition, last: Option<Row>): Condition {
    (x: Row) => matches(x) && (last.Some? ==> order(last.value, x))
  }

  ghost predicate Serves(list: List, order: Order, matches: Condition, boundary: Boundary, table: seq<Row>, last: Option<Row>) {
    Comparable(order, table) ==>
      IsPage(order, Beyond(order, matches, last), table, list(table, CursorAt(boundary, last)), boundary)
  }

  // From any boundary the list gives a page of the rows beyond it.
  ghost predicate Paginates(list: List, order: Order, matches: Condition, boundary: Boundary) {
    StrictOrder(order) && forall table, last :: Serves(list, order, matches, boundary, table, last)
  }

  ghost predicate SameCondition(where: Condition, other: Condition) {
    forall x :: where(x) <==> other(x)
  }

  lemma SamePage(order: Order, where: Condition, other: Condition, table: seq<Row>, page: Page, boundary: Boundary)
    requires IsPage(order, where, table, page, boundary) && SameCondition(where, other)
    ensures IsPage(order, other, table, page, boundary)
  {
  }

  lemma IdsAreStrict()
    ensures StrictOrder(ById())
  {
    forall x: Row ensures !ById()(x, x) {
      StrLessIrreflexive(x.id);
    }
    forall x: Row, y: Row, z: Row | ById()(x, y) && ById()(y, z) ensures ById()(x, z) {
      StrLessTransitive(x.id, y.id, z.id);
    }
  }

  lemma TimesAreStrict(direction: Direction)
    ensures StrictOrder(ByTime(direction))
  {
    forall x: Row ensures !ByTime(direction)(x, x) {
      StrLessIrreflexive(x.id);
    }
    forall x: Row, y: Row, z: Row | ByTime(direction)(x, y) && ByTime(direction)(y, z) ensures ByTime(direction)(x, z) {
      if x.at == y.at == z.at {
        if direction == Asc {
          StrLessTransitive(x.id, y.id, z.id);
        } else {
          StrLessTransitive(z.id, y.id, x.id);
        }
      }
    }
  }

  lemma ServesOne(list: List, order: Order, matches: Condition, boundary: Boundary, table: seq<Row>, last: Option<Row>,
      where: Condition, limit: nat)
    requires StrictOrder(order) && limit > 0
    requires list(table, CursorAt(boundary, last)) == TakePage(FindMany(order, where, table, limit + 1), limit, boundary)
    requires SameCondition(where, Beyond(order, matches, last))
    ensures Serves(list, order, matches, boundary, table, last)
  {
    if Comparable(order, table) {
      TakenIsPage(order, where, table, limit, boundary);
      SamePage(order, where, Beyond(order, matches, last), table, list(table, CursorAt(boundary, last)), boundary);
    }
  }

  lemma IdCondition(matches: Condition, last: Option<Row>)
    ensures SameCondition(WhereId(matches, CursorAt(IdCursor(), last)), Beyond(ById(), matches, last))
  {
    var where, beyond := WhereId(matches, CursorAt(IdCursor(), last)), Beyond(ById(), matches, last);
    forall x ensures where(x) <==> beyond(x) {
      assert where(x) == (matches(x) && BeyondId(CursorAt(IdCursor(), last), x));
      assert beyond(x) == (matches(x) && (last.Some? ==> ById()(last.value, x)));
      assert last.Some? ==> ById()(last.value, x) == StrLess(last.value.id, x.id);
    }
  }

  lemma TimeCondition(direction: Direction, matches: Condition, last: Option<Row>)
    ensures SameCondition(WhereTime(matches, CursorAt(TimeCursor(direction), last)), Beyond(ByTime(direction), matches, last))
  {
    var where, beyond := WhereTime(matches, CursorAt(TimeCursor(direction), last)), Beyond(ByTime(direction), matches, last);
    forall x ensures where(x) <==> beyond(x) {
      assert where(x) == (matches(x) && BeyondTime(CursorAt(TimeCursor(direction), last), x));
      assert beyond(x) == (matches(x) && (last.Some? ==> ByTime(direction)(last.value, x)));
    }
  }

  lemma IdList(matches: Condition, limit: nat, table: seq<Row>, cursor: Option<Cursor>)
    ensures ListById(matches, limit)(table, cursor)
         == TakePage(FindMany(ById(), WhereId(matches, cursor), table, limit + 1), limit, IdCursor())
  {
  }

  lemma TimeList(direction: Direction, matches: Condition, limit: nat, table: seq<Row>, last: Option<Row>)
    ensures var cursor := CursorAt(TimeCursor(direction), last);
            ListByTime(direction, matches, limit)(table, cursor) == TimePage(direction, matches, limit, table, cursor)
  {
    assert DirectionOf(direction, CursorAt(TimeCursor(direction), last)) == direction;
  }

  lemma TimesServe(list: List, direction: Direction, matches: Condition, limit: nat, table: seq<Row>, last: Option<Row>)
    requires StrictOrder(ByTime(direction)) && limit > 0
    requires list(table, CursorAt(TimeCursor(direction), last))
          == TimePage(direction, matches, limit, table, CursorAt(TimeCursor(direction), last))
    ensures Serves(list, ByTime(direction), matches, TimeCursor(direction), table, last)
  {
    TimeCondition(direction, matches, last);
    ServesOne(list, ByTime(direction), matches, TimeCursor(direction), table, last,
              WhereTime(matches, CursorAt(TimeCursor(direction), last)), limit);
  }

  lemma IdsPaginate(matches: Condition, limit: nat)
    requires limit > 0
    ensures Paginates(ListById(matches, limit), ById(), matches, IdCursor())
  {
    IdsAreStrict();
    forall table, last ensures Serves(ListById(matches, limit), ById(), matches, IdCursor(), table, last) {
      var cursor := CursorAt(IdCursor(), last);
      IdCondition(matches, last);
      IdList(matches, limit, table, cursor);
      ServesOne(ListById(matches, limit), ById(), matches, IdCursor(), table, last, WhereId(matches, cursor), limit);
    }
  }

  lemma TimesPaginate(direction: Direction, matches: Condition, limit: nat)
    requires limit > 0
    ensures Paginates(ListByTime(direction, matches, limit), ByTime(direction), matches, TimeCursor(direction))
  {
    TimesAreStrict(direction);
    var list, order, boundary := ListByTime(direction, matches, limit), ByTime(direction), TimeCursor(direction);
    forall table, last ensures Serves(list, order, matches, boundary, table, last) {
      TimeList(direction, matches, limit, table, last);
      TimesServe(list, direction, matches, limit, table, last);
    }
  }

  // ---------------------------------------------------------------- following

  ghost predicate InAll(tables: seq<seq<Row>>, x: Row) {
    forall i :: 0 <= i < |tables| ==> x in tables[i]
  }

  ghost predicate InSome(tables: seq<seq<Row>>, x: Row) {
    exists i :: 0 <= i < |tables| && x in tables[i]
  }

  function LastOf(w: Walk): Option<Row> {
    if |w.visited| > 0 then Some(w.visited[|w.visited| - 1]) else None
  }

  // The rows seen are in order, match, and were there; and a row that stays has been seen or lies ahead.
  ghost predicate OnTrack(order: Order, matches: Condition, boundary: Boundary, tables: seq<seq<Row>>, w: Walk) {
    && Ascending(order, w.visited)
    && (forall x :: x in w.visited ==> matches(x) && InSome(tables, x))
    && (!w.done ==> w.cursor == CursorAt(boundary, LastOf(w)))
    && (forall x :: InAll(tables, x) && matches(x) ==> x in w.visited || (!w.done && Beyond(order, matches, LastOf(w))(x)))
  }

  lemma AscendingJoin(order: Order, xs: seq<Row>, ys: seq<Row>)
    requires StrictOrder(order) && Ascending(order, xs) && Ascending(order, ys)
    requires |xs| > 0 ==> forall y :: y in ys ==> order(xs[|xs| - 1], y)
    ensures Ascending(order, xs + ys)
  {
    forall i, j | 0 <= i < j < |xs + ys| ensures order((xs + ys)[i], (xs + ys)[j]) {
      if i < |xs| <= j {
        assert ys[j - |xs|] in ys;
        assert order(xs[|xs| - 1], ys[j - |xs|]);
        assert i < |xs| - 1 ==> order(xs[i], xs[|xs| - 1]);
      }
    }
  }

  lemma NextOnTrack(list: List, order: Order, matches: Condition, boundary: Boundary, tables: seq<seq<Row>>, table: seq<Row>,
      w: Walk)
    requires Paginates(list, order, matches, boundary) && Comparable(order, table)
    requires OnTrack(order, matches, boundary, tables, w)
    ensures OnTrack(order, matches, boundary, tables + [table], Next(list, table, w))
  {
    var more := tables + [table];
    assert more[|tables|] == table;
    forall x | InAll(more, x) ensures InAll(tables, x) && x in table {
      assert forall i :: 0 <= i < |tables| ==> more[i] == tables[i];
    }
    forall x | InSome(tables, x) || x in table ensures InSome(more, x) {
      if InSome(tables, x) {
        var i :| 0 <= i < |tables| && x in tables[i];
        assert x in more[i];
      } else {
        assert x in more[|tables|];
      }
    }
    if !w.done {
      assert Serves(list, order, matches, boundary, table, LastOf(w));
      var page := list(table, w.cursor);
      AscendingJoin(order, w.visited, page.data);
      var next := Next(list, table, w);
      if |page.data| > 0 {
        assert LastOf(next) == Some(page.data[|page.data| - 1]);
      }
      forall x | InAll(more, x) && matches(x)
        ensures x in next.visited || (!next.done && Beyond(order, matches, LastOf(next))(x))
      {
        assert x in w.visited || Beyond(order, matches, LastOf(w))(x);
      }
    }
  }

  // Whatever happens to the table between pages, as long as no two of its rows share a place: the rows
  // seen are in order, so none is seen twice; once the last page is read, every row that stayed is seen.
  lemma {:induction false} FollowOnTrack(list: List, order: Order, matches: Condition, boundary: Boundary, tables: seq<seq<Row>>)
    requires Paginates(list, order, matches, boundary)
    requires forall i :: 0 <= i < |tables| ==> Comparable(order, tables[i])
    ensures OnTrack(order, matches, boundary, tables, Follow(list, tables))
  {
    if |tables| > 0 {
      var n := |tables| - 1;
      FollowOnTrack(list, order, matches, boundary, tables[..n]);
      NextOnTrack(list, order, matches, boundary, tables[..n], tables[n], Follow(list, tables[..n]));
      assert tables == tables[..n] + [tables[n]];
    }
  }

  // ---------------------------------------------------------------- an unchanging table

  function Unchanging(table: seq<Row>, pages: nat): seq<seq<Row>> {
    seq(pages, _ => table)
  }

  lemma AscendingSameItems(order: Order, xs: seq<Row>, ys: seq<Row>)
    requires StrictOrder(order) && Ascending(order, xs) && Ascending(order, ys)
    requires forall x :: x in xs <==> x in ys
    ensures xs == ys
  {
    OnceEach(order, xs);
    OnceEach(order, ys);
    assert forall x :: multiset(xs)[x] == multiset(ys)[x] by {
      forall x ensures multiset(xs)[x] == multiset(ys)[x] {
        assert x in xs <==> x in multiset(xs);
        assert x in ys <==> x in multiset(ys);
      }
    }
    assert multiset(xs) == multiset(ys);
    AscendingUnique(order, xs, ys);
  }

  lemma {:induction false} OnceEach(order: Order, xs: seq<Row>)
    requires StrictOrder(order) && Ascending(order, xs)
    ensures forall x :: multiset(xs)[x] <= 1
  {
    if |xs| > 0 {
      var n := |xs| - 1;
      OnceEach(order, xs[..n]);
      assert xs == xs[..n] + [xs[n]];
      assert xs[n] !in xs[..n];
      assert multiset(xs) == multiset(xs[..n]) + multiset{xs[n]};
      forall x ensures multiset(xs)[x] <= 1 {
        if x == xs[n] {
          assert multiset(xs[..n])[x] == 0;
        }
      }
    }
  }

  // A walk that is not over has seen at least one row a page.
  lemma {:induction false} PagesAreFull(list: List, order: Order, matches: Condition, boundary: Boundary, tables: seq<seq<Row>>)
    requires Paginates(list, order, matches, boundary)
    requires forall i :: 0 <= i < |tables| ==> Comparable(order, tables[i])
    ensures !Follow(list, tables).done ==> |Follow(list, tables).visited| >= |tables|
  {
    if |tables| > 0 {
      var n := |tables| - 1;
      var w := Follow(list, tables[..n]);
      PagesAreFull(list, order, matches, boundary, tables[..n]);
      FollowOnTrack(list, order, matches, boundary, tables[..n]);
      if !w.done {
        assert Serves(list, order, matches, boundary, tables[n], LastOf(w));
      }
    }
  }

  lemma {:induction false} AscendingSubset(order: Order, xs: seq<Row>, ys: seq<Row>)
    requires StrictOrder(order) && Ascending(order, xs) && Ascending(order, ys)
    requires forall x :: x in xs ==> x in ys
    ensures |xs| <= |ys|
  {
    if |xs| > 0 {
      var n := |xs| - 1;
      assert xs[n] in ys;
      var j :| 0 <= j < |ys| && ys[j] == xs[n];
      forall x | x in xs[..n] ensures x in ys[..j] {
        var i :| 0 <= i < n && xs[i] == x;
        assert xs[i] in ys;
        var k :| 0 <= k < |ys| && ys[k] == x;
        assert order(ys[k], ys[j]);
        assert k < j;
        assert ys[..j][k] == x;
      }
      AscendingSubset(order, xs[..n], ys[..j]);
    }
  }

  // Following the cursors over an unchanging table visits exactly the matching rows, each once, in order.
  lemma WalkVisitsAll(list: List, order: Order, matches: Condition, boundary: Boundary, table: seq<Row>, pages: nat)
    requires Paginates(list, order, matches, boundary) && Comparable(order, table)
    requires pages > |Filter(matches, table)|
    ensures var w := Follow(list, Unchanging(table, pages)); w.done && w.visited == Sort(order, Filter(matches, table))
  {
    var tables, all := Unchanging(table, pages), Sort(order, Filter(matches, table));
    var w := Follow(list, tables);
    FollowOnTrack(list, order, matches, boundary, tables);
    SortedRows(order, matches, table);
    forall x | x in w.visited ensures x in all {
      assert InSome(tables, x);
    }
    AscendingSubset(order, w.visited, all);
    PagesAreFull(list, order, matches, boundary, tables);
    assert w.done;
    forall x | x in all ensures x in w.visited {
      assert InAll(tables, x);
    }
    AscendingSameItems(order, w.visited, all);
  }

  // No two rows share an id.
  ghost predicate UniqueIds(table: seq<Row>) {
    forall i, j :: 0 <= i < j < |table| ==> table[i].id != table[j].id
  }

  lemma UniqueIdsCompare(table: seq<Row>, direction: Direction)
    requires UniqueIds(table)
    ensures Comparable(ById(), table) && Comparable(ByTime(direction), table)
  {
    forall i, j | 0 <= i < j < |table|
      ensures StrLess(table[i].id, table[j].id) || StrLess(table[j].id, table[i].id)
    {
      StrLessTotal(table[i].id, table[j].id);
    }
  }

  // The lists of the API: events, opportunities, and markets or odds.
  lemma EveryRowOnce(direction: Direction, matches: Condition, limit: nat, table: seq<Row>, pages: nat)
    requires UniqueIds(table) && limit > 0 && pages > |Filter(matches, table)|
    ensures Follow(ListByTime(direction, matches, limit), Unchanging(table, pages)).visited
         == Sort(ByTime(direction), Filter(matches, table))
    ensures Follow(ListById(matches, limit), Unchanging(table, pages)).visited == Sort(ById(), Filter(matches, table))
  {
    UniqueIdsCompare(table, direction);
    TimesPaginate(direction, matches, limit);
    IdsPaginate(matches, limit);
    WalkVisitsAll(ListByTime(direction, matches, limit), ByTime(direction), matches, TimeCursor(direction), table, pages);
    WalkVisitsAll(ListById(matches, limit), ById(), matches, IdCursor(), table, pages);
  }

  // While rows come and go between pages: what has been seen is in strict order, and once the last page
  // is read every matching row that was there all along has been seen.
  lemma StayingRowsSeen(direction: Direction, matches: Condition, limit: nat, tables: seq<seq<Row>>, x: Row)
    requires limit > 0 && forall i :: 0 <= i < |tables| ==> UniqueIds(tables[i])
    ensures var w := Follow(ListByTime(direction, matches, limit), tables);
            Ascending(ByTime(direction), w.visited) && (w.done && InAll(tables, x) && matches(x) ==> x in w.visited)
    ensures var w := Follow(ListById(matches, limit), tables);
            Ascending(ById(), w.visited) && (w.done && InAll(tables, x) && matches(x) ==> x in w.visited)
  {
    forall i | 0 <= i < |tables| ensures Comparable(ById(), tables[i]) && Comparable(ByTime(direction), tables[i]) {
      UniqueIdsCompare(tables[i], direction);
    }
    TimesPaginate(direction, matches, limit);
    IdsPaginate(matches, limit);
    FollowOnTrack(ListByTime(direction, matches, limit), ByTime(direction), matches, TimeCursor(direction), tables);
    FollowOnTrack(ListById(matches, limit), ById(), matches, IdCursor(), tables);
  }
}
