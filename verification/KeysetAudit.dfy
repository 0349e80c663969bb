// The list of audit logs sorts by time but continues by id: when following its cursors still sees every row.

module KeysetAudit {
  import opened Lines
  import opened Sequences
  import opened Sorting
  import opened Keyset
  import opened KeysetTheorems

  function NewestFirst(): Order {
    ByTime(Desc)
  }

  function AuditCursor(): Boundary {
    (last: Row) => Cursor(AtId(last.id), Desc, last.id)
  }

  // From the newest row, and on below the id of the last one.
  function ListAudits(matches: Condition, limit: nat): List {
    (table: seq<Row>, cursor: Option<Cursor>) =>
      TakePage(FindMany(NewestFirst(), WhereId(matches, cursor), table, limit + 1), limit, AuditCursor())
  }

  // Among the rows that match, ids grow with time.
  ghost predicate IdsFollowTimes(matches: Condition, table: seq<Row>) {
    forall x, y :: x in table && y in table && matches(x) && matches(y) && TimeThenId(x, y) ==> StrLess(x.id, y.id)
  }

  // ---------------------------------------------------------------- when ids grow with time

  lemma IdsAsymmetric(a: Row, b: Row)
    ensures StrLess(a.id, b.id) ==> !StrLess(b.id, a.id) && a != b
  {
    StrLessIrreflexive(a.id);
    if StrLess(a.id, b.id) && StrLess(b.id, a.id) {
      StrLessTransitive(a.id, b.id, a.id);
    }
  }

  // Of two rows of the table the older one has the lower id.
  lemma SameSide(matches: Condition, table: seq<Row>, last: Row, x: Row)
    requires UniqueIds(table) && IdsFollowTimes(matches, table)
    requires x in table && last in table && matches(x) && matches(last)
    ensures StrLess(x.id, last.id) <==> TimeThenId(x, last)
  {
    IdsAsymmetric(x, last);
    StrLessTotal(x.id, last.id);
    if !TimeThenId(x, last) && !TimeThenId(last, x) {
      assert x.id == last.id;
    }
  }

  lemma {:induction false} FilterAgrees(f: Condition, g: Condition, table: seq<Row>)
    requires forall x :: x in table ==> f(x) == g(x)
    ensures Filter(f, table) == Filter(g, table)
  {
    if |table| > 0 {
      FilterAgrees(f, g, table[..|table| - 1]);
    }
  }

  // What both lists have seen so far, and where they go on.
  ghost predicate InStep(matches: Condition, table: seq<Row>, w: Walk, v: Walk) {
    && w.visited == v.visited && w.done == v.done
    && (forall x :: x in w.visited ==> x in table && matches(x))
    && (!w.done ==> w.cursor == CursorAt(AuditCursor(), LastOf(w)) && v.cursor == CursorAt(TimeCursor(Desc), LastOf(v)))
  }

  lemma SameRows(matches: Condition, table: seq<Row>, last: Option<Row>)
    requires UniqueIds(table) && IdsFollowTimes(matches, table)
    requires last.Some? ==> last.value in table && matches(last.value)
    ensures Filter(WhereId(matches, CursorAt(AuditCursor(), last)), table)
         == Filter(WhereTime(matches, CursorAt(TimeCursor(Desc), last)), table)
  {
    var f, g := WhereId(matches, CursorAt(AuditCursor(), last)), WhereTime(matches, CursorAt(TimeCursor(Desc), last));
    forall x | x in table ensures f(x) == g(x) {
      if matches(x) && last.Some? {
        SameSide(matches, table, last.value, x);
      }
    }
    FilterAgrees(f, g, table);
  }

  // Two pages of the same rows, each with its own cursor.
  ghost predicate SameData(page: Page, other: Page, boundary: Boundary, otherBoundary: Boundary) {
    && page.data == other.data && (page.nextCursor.Some? <==> other.nextCursor.Some?)
    && (page.nextCursor.Some? ==>
          && |page.data| > 0 && page.nextCursor == Some(boundary(page.data[|page.data| - 1]))
          && other.nextCursor == Some(otherBoundary(page.data[|page.data| - 1])))
  }

  lemma TakenAlike(rows: seq<Row>, limit: nat, boundary: Boundary, otherBoundary: Boundary)
    ensures SameData(TakePage(rows, limit, boundary), TakePage(rows, limit, otherBoundary), boundary, otherBoundary)
  {
  }

  lemma FoundAlike(order: Order, where: Condition, other: Condition, table: seq<Row>, limit: nat, boundary: Boundary,
      otherBoundary: Boundary)
    requires Filter(where, table) == Filter(other, table)
    ensures SameData(TakePage(FindMany(order, where, table, limit + 1), limit, boundary),
                     TakePage(FindMany(order, other, table, limit + 1), limit, otherBoundary), boundary, otherBoundary)
  {
    TakenAlike(FindMany(order, where, table, limit + 1), limit, boundary, otherBoundary);
  }

  lemma AuditList(matches: Condition, limit: nat, table: seq<Row>, cursor: Option<Cursor>)
    ensures ListAudits(matches, limit)(table, cursor)
         == TakePage(FindMany(NewestFirst(), WhereId(matches, cursor), table, limit + 1), limit, AuditCursor())
  {
  }

  // The page that starts after `last`, as both lists give it.
  lemma SamePages(matches: Condition, limit: nat, table: seq<Row>, last: Option<Row>)
    requires UniqueIds(table) && IdsFollowTimes(matches, table) && limit > 0
    requires last.Some? ==> last.value in table && matches(last.value)
    ensures SameData(ListAudits(matches, limit)(table, CursorAt(AuditCursor(), last)),
                     ListByTime(Desc, matches, limit)(table, CursorAt(TimeCursor(Desc), last)), AuditCursor(), TimeCursor(Desc))
  {
    SameRows(matches, table, last);
    AuditList(matches, limit, table, CursorAt(AuditCursor(), last));
    TimeList(Desc, matches, limit, table, last);
    FoundAlike(NewestFirst(), WhereId(matches, CursorAt(AuditCursor(), last)),
               WhereTime(matches, CursorAt(TimeCursor(Desc), last)), table, limit, AuditCursor(), TimeCursor(Desc));
  }

  lemma PageRows(matches: Condition, limit: nat, table: seq<Row>, last: Option<Row>)
    requires UniqueIds(table) && limit > 0
    ensures AllMatch(matches, table, ListByTime(Desc, matches, limit)(table, CursorAt(TimeCursor(Desc), last)))
  {
    TimesPaginate(Desc, matches, limit);
    UniqueIdsCompare(table, Desc);
    assert Serves(ListByTime(Desc, matches, limit), ByTime(Desc), matches, TimeCursor(Desc), table, last);
  }

  ghost predicate AmongRows(matches: Condition, table: seq<Row>, last: Option<Row>) {
    last.Some? ==> last.value in table && matches(last.value)
  }

  ghost predicate AllMatch(matches: Condition, table: seq<Row>, page: Page) {
    forall x :: x in page.data ==> x in table && matches(x)
  }

  // After the same row both lists give the same page, of rows that match.
  ghost predicate ListsAlike(matches: Condition, table: seq<Row>, list: List, other: List) {
    && (forall last :: AmongRows(matches, table, last) ==>
          SameData(list(table, CursorAt(AuditCursor(), last)), other(table, CursorAt(TimeCursor(Desc), last)), AuditCursor(),
                   TimeCursor(Desc)))
    && (forall last :: AmongRows(matches, table, last) ==> AllMatch(matches, table, other(table, CursorAt(TimeCursor(Desc), last))))
  }

  lemma StepTogether(matches: Condition, table: seq<Row>, w: Walk, v: Walk, list: List, other: List)
    requires ListsAlike(matches, table, list, other) && InStep(matches, table, w, v)
    ensures InStep(matches, table, Next(list, table, w), Next(other, table, v))
  {
    if !w.done {
      var last := LastOf(w);
      assert AmongRows(matches, table, last);
      assert AllMatch(matches, table, other(table, CursorAt(TimeCursor(Desc), last)));
      var next := Next(list, table, w);
      if !next.done {
        assert LastOf(next) == Some(list(table, w.cursor).data[|list(table, w.cursor).data| - 1]);
      }
    }
  }

  lemma {:induction false} WalkTogether(matches: Condition, table: seq<Row>, list: List, other: List, pages: nat)
    requires ListsAlike(matches, table, list, other)
    ensures InStep(matches, table, Follow(list, Unchanging(table, pages)), Follow(other, Unchanging(table, pages)))
  {
    if pages > 0 {
      WalkTogether(matches, table, list, other, pages - 1);
      assert Unchanging(table, pages)[..pages - 1] == Unchanging(table, pages - 1);
      StepTogether(matches, table, Follow(list, Unchanging(table, pages - 1)), Follow(other, Unchanging(table, pages - 1)),
                   list, other);
    }
  }

  // Page by page the list sees what the list by time sees.
  lemma Together(matches: Condition, limit: nat, table: seq<Row>, pages: nat)
    requires UniqueIds(table) && IdsFollowTimes(matches, table) && limit > 0
    ensures Follow(ListAudits(matches, limit), Unchanging(table, pages)).visited
         == Follow(ListByTime(Desc, matches, limit), Unchanging(table, pages)).visited
  {
    var list, other := ListAudits(matches, limit), ListByTime(Desc, matches, limit);
    forall last | AmongRows(matches, table, last)
      ensures SameData(list(table, CursorAt(AuditCursor(), last)), other(table, CursorAt(TimeCursor(Desc), last)), AuditCursor(),
                       TimeCursor(Desc))
    {
      SamePages(matches, limit, table, last);
    }
    forall last | AmongRows(matches, table, last) ensures AllMatch(matches, table, other(table, CursorAt(TimeCursor(Desc), last))) {
      PageRows(matches, limit, table, last);
    }
    WalkTogether(matches, table, list, other, pages);
  }

  // ---------------------------------------------------------------- when they do not

  // Two neighbours of the sorted rows whose ids are the wrong way round.
  lemma {:induction false} Inversion(all: seq<Row>, i: nat, j: nat) returns (k: nat)
    requires i < j < |all| && !StrLess(all[j].id, all[i].id)
    ensures k + 1 < |all| && !StrLess(all[k + 1].id, all[k].id)
    decreases j - i
  {
    if i + 1 == j {
      k := i;
    } else if !StrLess(all[i + 1].id, all[i].id) {
      k := i;
    } else {
      if StrLess(all[j].id, all[i + 1].id) {
        StrLessTransitive(all[j].id, all[i + 1].id, all[i].id);
      }
      k := Inversion(all, i + 1, j);
    }
  }

  lemma FindInversion(matches: Condition, table: seq<Row>) returns (k: nat)
    requires UniqueIds(table) && !IdsFollowTimes(matches, table)
    ensures var all := Sort(NewestFirst(), Filter(matches, table)); k + 1 < |all| && !StrLess(all[k + 1].id, all[k].id)
  {
    var all := Sort(NewestFirst(), Filter(matches, table));
    TimesAreStrict(Desc);
    UniqueIdsCompare(table, Desc);
    SortedRows(NewestFirst(), matches, table);
    var x, y :| x in table && y in table && matches(x) && matches(y) && TimeThenId(x, y) && !StrLess(x.id, y.id);
    var i, j := Places(NewestFirst(), all, y, x);
    k := Inversion(all, i, j);
  }

  lemma Places(order: Order, all: seq<Row>, first: Row, second: Row) returns (i: nat, j: nat)
    requires StrictOrder(order) && Ascending(order, all) && first in all && second in all && order(first, second)
    ensures i < j < |all| && all[i] == first && all[j] == second
  {
    i :| i < |all| && all[i] == first;
    j :| j < |all| && all[j] == second;
    assert !order(second, first);
    if j < i {
      AscendingAt(order, all, j, i);
    }
  }

  lemma AscendingAt(order: Order, all: seq<Row>, i: nat, j: nat)
    requires Ascending(order, all) && i < j < |all|
    ensures order(all[i], all[j])
  {
  }

  // A walk that has left a row behind: it lies above every cursor from now on.
  ghost predicate LeftBehind(w: Walk, row: Row) {
    && row !in w.visited
    && (!w.done ==> w.cursor.Some? && w.cursor.value.direction == Desc && !StrLess(row.id, w.cursor.value.id))
  }

  // Everything on a page after a cursor lies below its id.
  ghost predicate AllBelow(data: seq<Row>, id: string) {
    forall x :: x in data ==> StrLess(x.id, id)
  }

  lemma WhereBelow(matches: Condition, cursor: Cursor, data: seq<Row>, where: Condition)
    requires where == WhereId(matches, Some(cursor)) && cursor.direction == Desc && forall x :: x in data ==> where(x)
    ensures AllBelow(data, cursor.id)
  {
    forall x | x in data ensures StrLess(x.id, cursor.id) {
      assert where(x);
    }
  }

  lemma TakenMeets(order: Order, where: Condition, table: seq<Row>, limit: nat, boundary: Boundary, page: Page)
    requires StrictOrder(order) && Comparable(order, table) && limit > 0
    requires page == TakePage(FindMany(order, where, table, limit + 1), limit, boundary)
    ensures EndsAtLast(page, boundary) && forall x :: x in page.data ==> where(x)
  {
    TakenIsPage(order, where, table, limit, boundary);
    PageMeets(order, where, table, page, boundary);
  }

  lemma PageBelow(matches: Condition, limit: nat, table: seq<Row>, cursor: Cursor, where: Condition, page: Page)
    requires UniqueIds(table) && limit > 0 && cursor.direction == Desc && where == WhereId(matches, Some(cursor))
    requires page == TakePage(FindMany(NewestFirst(), where, table, limit + 1), limit, AuditCursor())
    ensures AllBelow(page.data, cursor.id) && EndsAtLast(page, AuditCursor())
  {
    TimesAreStrict(Desc);
    UniqueIdsCompare(table, Desc);
    TakenMeets(NewestFirst(), where, table, limit, AuditCursor(), page);
    WhereBelow(matches, cursor, page.data, where);
  }

  ghost predicate EndsAtLast(page: Page, boundary: Boundary) {
    page.nextCursor.Some? ==> |page.data| > 0 && page.nextCursor == Some(boundary(page.data[|page.data| - 1]))
  }

  lemma PageMeets(order: Order, where: Condition, table: seq<Row>, page: Page, boundary: Boundary)
    requires IsPage(order, where, table, page, boundary)
    ensures EndsAtLast(page, boundary) && forall x :: x in page.data ==> where(x)
  {
  }

  lemma BehindNext(list: List, table: seq<Row>, w: Walk, row: Row, page: Page)
    requires LeftBehind(w, row) && !w.done && page == list(table, w.cursor)
    requires AllBelow(page.data, w.cursor.value.id) && EndsAtLast(page, AuditCursor())
    ensures LeftBehind(Next(list, table, w), row)
  {
    if page.nextCursor.Some? {
      var last, cursor := page.data[|page.data| - 1], w.cursor.value;
      assert last in page.data;
      if StrLess(row.id, last.id) {
        StrLessTransitive(row.id, last.id, cursor.id);
      }
    }
  }

  lemma StaysBehind(matches: Condition, limit: nat, table: seq<Row>, w: Walk, row: Row)
    requires UniqueIds(table) && limit > 0 && LeftBehind(w, row)
    ensures LeftBehind(Next(ListAudits(matches, limit), table, w), row)
  {
    if !w.done {
      var page := ListAudits(matches, limit)(table, w.cursor);
      AuditList(matches, limit, table, w.cursor);
      PageBelow(matches, limit, table, w.cursor.value, WhereId(matches, w.cursor), page);
      BehindNext(ListAudits(matches, limit), table, w, row, page);
    }
  }

  lemma FirstOf(list: List, table: seq<Row>)
    ensures Follow(list, Unchanging(table, 1)) == Next(list, table, Walk([], None, false))
  {
    assert Unchanging(table, 1)[..0] == [];
    assert Follow(list, []) == Walk([], None, false);
  }

  lemma FirstRows(order: Order, where: Condition, matches: Condition, table: seq<Row>, all: seq<Row>, limit: nat, boundary: Boundary)
    requires Filter(where, table) == Filter(matches, table) && all == Sort(order, Filter(matches, table)) && 0 < limit < |all|
    ensures TakePage(FindMany(order, where, table, limit + 1), limit, boundary) == Page(all[..limit], Some(boundary(all[limit - 1])))
  {
    TakePageMeans(all, limit, boundary);
  }

  lemma NotBefore(order: Order, all: seq<Row>, limit: nat)
    requires StrictOrder(order) && Ascending(order, all) && limit < |all|
    ensures all[limit] !in all[..limit]
  {
    forall i | 0 <= i < limit ensures all[..limit][i] != all[limit] {
      assert order(all[i], all[limit]);
    }
  }

  // The first page ends at the first of the two neighbours.
  lemma FirstPage(matches: Condition, table: seq<Row>, all: seq<Row>, limit: nat)
    requires all == Sort(NewestFirst(), Filter(matches, table)) && 0 < limit < |all|
    ensures ListAudits(matches, limit)(table, None) == Page(all[..limit], Some(AuditCursor()(all[limit - 1])))
  {
    FilterAgrees(WhereId(matches, None), matches, table);
    AuditList(matches, limit, table, None);
    FirstRows(NewestFirst(), WhereId(matches, None), matches, table, all, limit, AuditCursor());
  }

  lemma FirstWalk(list: List, table: seq<Row>, page: Page, cursor: Cursor)
    requires list(table, None) == page && page.nextCursor == Some(cursor)
    ensures Follow(list, Unchanging(table, 1)) == Walk(page.data, Some(cursor), false)
  {
    FirstOf(list, table);
    assert [] + page.data == page.data;
  }

  lemma LeavesBehind(matches: Condition, table: seq<Row>, all: seq<Row>, k: nat)
    requires UniqueIds(table) && all == Sort(NewestFirst(), Filter(matches, table))
    requires k + 1 < |all| && !StrLess(all[k + 1].id, all[k].id)
    ensures LeftBehind(Follow(ListAudits(matches, k + 1), Unchanging(table, 1)), all[k + 1])
  {
    FirstPage(matches, table, all, k + 1);
    FirstWalk(ListAudits(matches, k + 1), table, Page(all[..k + 1], Some(AuditCursor()(all[k]))), AuditCursor()(all[k]));
    LaterIsNotFirst(matches, table, all, k + 1);
  }

  lemma LaterIsNotFirst(matches: Condition, table: seq<Row>, all: seq<Row>, limit: nat)
    requires UniqueIds(table) && all == Sort(NewestFirst(), Filter(matches, table)) && limit < |all|
    ensures all[limit] !in all[..limit]
  {
    TimesAreStrict(Desc);
    UniqueIdsCompare(table, Desc);
    SortedRows(NewestFirst(), matches, table);
    NotBefore(NewestFirst(), all, limit);
  }

  lemma {:induction false} NeverSeen(matches: Condition, table: seq<Row>, all: seq<Row>, k: nat, pages: nat)
    requires UniqueIds(table) && all == Sort(NewestFirst(), Filter(matches, table)) && pages > 0
    requires k + 1 < |all| && !StrLess(all[k + 1].id, all[k].id)
    ensures LeftBehind(Follow(ListAudits(matches, k + 1), Unchanging(table, pages)), all[k + 1])
  {
    if pages == 1 {
      LeavesBehind(matches, table, all, k);
    } else {
      NeverSeen(matches, table, all, k, pages - 1);
      assert Unchanging(table, pages)[..pages - 1] == Unchanging(table, pages - 1);
      StaysBehind(matches, k + 1, table, Follow(ListAudits(matches, k + 1), Unchanging(table, pages - 1)), all[k + 1]);
    }
  }

  // ---------------------------------------------------------------- exactly when

  ghost predicate SeesAll(matches: Condition, table: seq<Row>, limit: nat) {
    forall pages :: pages > |Filter(matches, table)| ==>
      Follow(ListAudits(matches, limit), Unchanging(table, pages)).visited == Sort(NewestFirst(), Filter(matches, table))
  }

  // Following the cursors sees every matching row once, whatever the page size, if and only if ids grow with time;
  // otherwise some page size loses a row for good.
  lemma AuditsSeenExactlyWhen(matches: Condition, table: seq<Row>)
    requires UniqueIds(table)
    ensures (forall limit :: limit > 0 ==> SeesAll(matches, table, limit)) <==> IdsFollowTimes(matches, table)
  {
    var all := Sort(NewestFirst(), Filter(matches, table));
    if IdsFollowTimes(matches, table) {
      forall limit: nat, pages: nat | limit > 0 && pages > |Filter(matches, table)|
        ensures Follow(ListAudits(matches, limit), Unchanging(table, pages)).visited == all
      {
        Together(matches, limit, table, pages);
        EveryRowOnce(Desc, matches, limit, table, pages);
      }
    } else {
      var k := FindInversion(matches, table);
      var pages := |Filter(matches, table)| + 1;
      NeverSeen(matches, table, all, k, pages);
      assert all[k + 1] in all;
      assert !SeesAll(matches, table, k + 1);
    }
  }
}
