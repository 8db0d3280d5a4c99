/** Listing jobs a page at a time while the table changes underneath. */
module Pagination {
  import opened Wrappers

  datatype State = Queued | Leased | Running | Uploading | Done | Failed | Cancelled | Expired

  datatype ApiStatus = IsQueued | IsRunning | IsDone | IsFailed | IsCancelled | IsExpired

  function StatusOf(s: State): ApiStatus {
    match s
    case Queued => IsQueued
    case Leased => IsRunning
    case Running => IsRunning
    case Uploading => IsRunning
    case Done => IsDone
    case Failed => IsFailed
    case Cancelled => IsCancelled
    case Expired => IsExpired
  }

  /** What a row sorts by: when it was made, then its id. Neither ever changes. */
  datatype Key = Key(at: int, id: nat)

  predicate Below(a: Key, b: Key) { a.at < b.at || (a.at == b.at && a.id < b.id) }

  /** Rows are ordered by when they were made, and those made at once by their ids, which are their own. */
  lemma BelowIsAnOrder(a: Key, b: Key, c: Key)
    ensures a.at < b.at ==> Below(a, b)
    ensures a != b ==> (Below(a, b) <==> !Below(b, a))
    ensures !Below(a, a) && (Below(a, b) && Below(b, c) ==> Below(a, c))
  {
  }

  datatype Row = Row(key: Key, project: string, state: State)

  /** A table at one moment; ids are unique. */
  type Table = map<nat, Row>

  predicate WellKept(t: Table) { forall id :: id in t ==> t[id].key.id == id }

  datatype Filter = Filter(project: Option<string>, states: set<State>)

  predicate Matches(r: Row, f: Filter) {
    && (f.project.Some? ==> r.project == f.project.value)
    && (f.states != {} ==> r.state in f.states)
  }

  /** The database states an API status filter asks for. */
  method ExpandStatuses(statuses: seq<ApiStatus>) returns (states: set<State>)
    ensures forall s :: s in states <==> StatusOf(s) in statuses
    ensures states == {} <==> statuses == []
  {
    states := {};
    for i := 0 to |statuses|
      invariant forall s :: s in states <==> StatusOf(s) in statuses[..i]
    {
      assert statuses[..i + 1] == statuses[..i] + [statuses[i]];
      match statuses[i] {
        case IsRunning => states := states + {Leased, Running, Uploading};
        case IsQueued => states := states + {Queued};
        case IsDone => states := states + {Done};
        case IsFailed => states := states + {Failed};
        case IsCancelled => states := states + {Cancelled};
        case IsExpired => states := states + {Expired};
      }
    }
    assert statuses[..|statuses|] == statuses;
    if statuses != [] { EveryStatusHasAState(statuses[0]); }
  }

  lemma EveryStatusHasAState(status: ApiStatus)
    ensures exists s :: StatusOf(s) == status
  {
    match status
    case IsQueued => assert StatusOf(Queued) == status;
    case IsRunning => assert StatusOf(Running) == status;
    case IsDone => assert StatusOf(Done) == status;
    case IsFailed => assert StatusOf(Failed) == status;
    case IsCancelled => assert StatusOf(Cancelled) == status;
    case IsExpired => assert StatusOf(Expired) == status;
  }

  /** Filtered by a project and by the states that some statuses stand for, just the rows of that project under
      those statuses match, and all statuses where none are asked for. */
  lemma FilterIsExact(statuses: seq<ApiStatus>, states: set<State>, project: Option<string>, r: Row)
    requires (forall s :: s in states <==> StatusOf(s) in statuses) && (states == {} <==> statuses == [])
    ensures Matches(r, Filter(project, states))
      <==> (project.None? || project.value == r.project) && (statuses == [] || StatusOf(r.state) in statuses)
  {
  }

  predicate Wanted(r: Row, f: Filter, cursor: Option<Key>) {
    Matches(r, f) && (cursor.Some? ==> Below(r.key, cursor.value))
  }

  predicate Descending(rows: seq<Row>) {
    forall i, j :: 0 <= i < j < |rows| ==> Below(rows[j].key, rows[i].key)
  }

  /** What the database answers: the first n wanted rows, newest first. */
  predicate Selects(rows: seq<Row>, t: Table, f: Filter, cursor: Option<Key>, n: nat) {
    && |rows| <= n
    && Descending(rows)
    && (forall r :: r in rows ==> r.key.id in t && t[r.key.id] == r && Wanted(r, f, cursor))
    && forall id :: id in t && Wanted(t[id], f, cursor) ==>
         t[id] in rows || (|rows| == n > 0 && Below(t[id].key, rows[n - 1].key))
  }

  datatype Page = Page(rows: seq<Row>, next: Option<Key>)

  /** The page holds the newest wanted rows, its cursor says whether it left any out, and that cursor
      wants exactly the rest. */
  ghost predicate IsPage(page: Page, t: Table, f: Filter, cursor: Option<Key>, limit: nat) {
    && Selects(page.rows, t, f, cursor, limit)
    && (page.next.None? <==> forall id :: id in t && Wanted(t[id], f, cursor) ==> t[id] in page.rows)
    && (page.next.Some? ==> forall id :: id in t ==>
          (Wanted(t[id], f, page.next) <==> Wanted(t[id], f, cursor) && t[id] !in page.rows))
  }

  /** One more row than asked for tells whether there is a next page. */
  method ListJobs(rows: seq<Row>, limit: nat) returns (page: Page)
    requires 1 <= limit <= 100
    ensures page == PageOf(rows, limit)
    ensures forall t, f, cursor :: WellKept(t) && Selects(rows, t, f, cursor, limit + 1) ==> IsPage(page, t, f, cursor, limit)
  {
    forall t, f, cursor | WellKept(t) && Selects(rows, t, f, cursor, limit + 1) ensures IsPage(PageOf(rows, limit), t, f, cursor, limit) {
      PageIsExact(rows, t, f, cursor, limit);
    }
    var shown := if |rows| < limit then rows else rows[..limit];
    page := Page(shown, None);
    if |rows| > limit {
      page := Page(shown, Some(shown[|shown| - 1].key));
    }
  }

  function PageOf(rows: seq<Row>, limit: nat): Page
    requires limit >= 1
  {
    if |rows| > limit then Page(rows[..limit], Some(rows[limit - 1].key)) else Page(rows, None)
  }

  // ---- following next_cursor ----

  /** One request: the table as it then was and what the database answered. */
  datatype Visit = Visit(table: Table, rows: seq<Row>)

  /** Each visit asks from where the one before stopped, and the last has no next page. The table may
      be any other table by then. */
  predicate Follows(visits: seq<Visit>, f: Filter, cursor: Option<Key>, limit: nat)
    requires limit >= 1
  {
    && visits != []
    && WellKept(visits[0].table)
    && Selects(visits[0].rows, visits[0].table, f, cursor, limit + 1)
    && var next := PageOf(visits[0].rows, limit).next;
       if next.None? then |visits| == 1 else Follows(visits[1..], f, next, limit)
  }

  function Listed(visits: seq<Visit>, limit: nat): seq<Row>
    requires limit >= 1
  {
    if visits == [] then [] else PageOf(visits[0].rows, limit).rows + Listed(visits[1..], limit)
  }

  lemma PageIsBetween(rows: seq<Row>, t: Table, f: Filter, cursor: Option<Key>, limit: nat)
    requires limit >= 1 && Selects(rows, t, f, cursor, limit + 1)
    ensures var page := PageOf(rows, limit);
      && |page.rows| <= limit && Descending(page.rows)
      && (forall r :: r in page.rows ==> r in rows && Wanted(r, f, cursor))
      && (page.next.Some? ==>
            && page.rows != [] && page.next.value == page.rows[|page.rows| - 1].key
            && forall r :: r in page.rows ==> r.key == page.next.value || Below(page.next.value, r.key))
  {
    var page := PageOf(rows, limit);
    forall r | r in page.rows ensures r in rows && (page.next.Some? ==> r.key == page.next.value || Below(page.next.value, r.key)) {
      var i :| 0 <= i < |page.rows| && page.rows[i] == r;
      assert rows[i] == r;
    }
  }

  /** The whole list is strictly descending, so it repeats nothing, whatever was inserted, changed or
      removed between pages. */
  lemma {:induction false} NoRowTwice(visits: seq<Visit>, f: Filter, cursor: Option<Key>, limit: nat)
    requires limit >= 1 && Follows(visits, f, cursor, limit)
    ensures Descending(Listed(visits, limit))
    ensures forall r :: r in Listed(visits, limit) ==> Wanted(r, f, cursor)
  {
    hide Matches, Selects;
    var page := PageOf(visits[0].rows, limit);
    PageIsBetween(visits[0].rows, visits[0].table, f, cursor, limit);
    if page.next.None? {
      assert Listed(visits[1..], limit) == [];
      assert Listed(visits, limit) == page.rows;
    } else {
      NoRowTwice(visits[1..], f, page.next, limit);
      var rest := Listed(visits[1..], limit);
      forall r | r in rest ensures Wanted(r, f, cursor) {
        assert page.rows[|page.rows| - 1] in page.rows;
      }
      forall i, j | 0 <= i < |page.rows| && 0 <= j < |rest| ensures Below(rest[j].key, page.rows[i].key) {
        assert rest[j] in rest && page.rows[i] in page.rows;
      }
    }
  }

  /** A row that was there and matched at every visit is in the list, as it stood at one of them. */
  lemma {:induction false} NothingIsSkipped(visits: seq<Visit>, f: Filter, cursor: Option<Key>, limit: nat, key: Key)
    requires limit >= 1 && Follows(visits, f, cursor, limit)
    requires forall v :: v in visits ==> key.id in v.table && v.table[key.id].key == key && Matches(v.table[key.id], f)
    requires cursor.Some? ==> Below(key, cursor.value)
    ensures exists r :: r in Listed(visits, limit) && r.key == key
  {
    hide Matches;
    var v := visits[0];
    assert v in visits;
    var page := PageOf(v.rows, limit);
    var row := v.table[key.id];
    assert Wanted(row, f, cursor);
    if row in page.rows {
      assert row in Listed(visits, limit);
    } else {
      StopsAbove(v.rows, v.table, f, cursor, limit, row);
      assert forall x :: x in visits[1..] ==> x in visits;
      NothingIsSkipped(visits[1..], f, page.next, limit, key);
      var r :| r in Listed(visits[1..], limit) && r.key == key;
      assert r in Listed(visits, limit);
    }
  }

  /** A wanted row that is not on the page is past its cursor, and there is one. */
  lemma StopsAbove(rows: seq<Row>, t: Table, f: Filter, cursor: Option<Key>, limit: nat, row: Row)
    requires limit >= 1 && Selects(rows, t, f, cursor, limit + 1)
    requires row.key.id in t && t[row.key.id] == row && Wanted(row, f, cursor)
    requires row !in PageOf(rows, limit).rows
    ensures PageOf(rows, limit).next.Some? && Below(row.key, PageOf(rows, limit).next.value)
  {
    hide Matches;
    if row in rows {
      var i :| 0 <= i < |rows| && rows[i] == row;
      var page := PageOf(rows, limit).rows;
      assert forall k :: 0 <= k < |page| ==> page[k] == rows[k] && page[k] in page;
    } else {
      assert Below(rows[limit].key, rows[limit - 1].key);
    }
  }

  // ---- one page ----

  lemma PageIsExact(rows: seq<Row>, t: Table, f: Filter, cursor: Option<Key>, limit: nat)
    requires WellKept(t) && limit >= 1 && Selects(rows, t, f, cursor, limit + 1)
    ensures IsPage(PageOf(rows, limit), t, f, cursor, limit)
  {
    hide Matches, Selects;
    var page := PageOf(rows, limit);
    PageIsBetween(rows, t, f, cursor, limit);
    forall id | id in t && Wanted(t[id], f, cursor) && t[id] !in page.rows
      ensures page.next.Some? && Below(t[id].key, page.next.value)
    {
      StopsAbove(rows, t, f, cursor, limit, t[id]);
    }
    PageIsSelected(rows, t, f, cursor, limit);
    if page.next.Some? {
      OverIsLeft(rows, t, f, cursor, limit);
      assert page.rows[|page.rows| - 1] in page.rows;
    }
  }

  lemma PageIsSelected(rows: seq<Row>, t: Table, f: Filter, cursor: Option<Key>, limit: nat)
    requires WellKept(t) && limit >= 1 && Selects(rows, t, f, cursor, limit + 1)
    ensures Selects(PageOf(rows, limit).rows, t, f, cursor, limit)
  {
    hide Matches;
    PageIsBetween(rows, t, f, cursor, limit);
    forall id | id in t && Wanted(t[id], f, cursor) && t[id] !in PageOf(rows, limit).rows
      ensures |rows| > limit && Below(t[id].key, rows[limit - 1].key)
    {
      StopsAbove(rows, t, f, cursor, limit, t[id]);
    }
  }

  /** The row asked for and not shown is wanted and comes after the cursor. */
  lemma OverIsLeft(rows: seq<Row>, t: Table, f: Filter, cursor: Option<Key>, limit: nat)
    requires 1 <= limit < |rows| && Selects(rows, t, f, cursor, limit + 1)
    ensures rows[limit].key.id in t && t[rows[limit].key.id] == rows[limit] && Wanted(rows[limit], f, cursor)
    ensures rows[limit] !in PageOf(rows, limit).rows
  {
    hide Matches;
    assert rows[limit] in rows;
  }

  // ---- the whole list ----

  predicate HoldsOnlyAt(rows: seq<Row>, key: Key, i: nat) {
    i < |rows| && rows[i].key == key && forall j :: 0 <= j < |rows| && j != i ==> rows[j].key != key
  }

  lemma DescendingHoldsOnce(rows: seq<Row>, r: Row)
    requires Descending(rows) && r in rows
    ensures exists i :: HoldsOnlyAt(rows, r.key, i)
  {
    var i :| 0 <= i < |rows| && rows[i] == r;
    assert HoldsOnlyAt(rows, r.key, i);
  }

  /** The two together: from the first page to the last, every row that stayed is listed exactly
      once. */
  lemma StayedRowsAreListedOnce(visits: seq<Visit>, f: Filter, limit: nat, key: Key)
    requires limit >= 1 && Follows(visits, f, None, limit)
    requires forall v :: v in visits ==> key.id in v.table && v.table[key.id].key == key && Matches(v.table[key.id], f)
    ensures exists i :: HoldsOnlyAt(Listed(visits, limit), key, i)
  {
    hide Follows, Listed, Matches, Descending, HoldsOnlyAt;
    NothingIsSkipped(visits, f, None, limit, key);
    NoRowTwice(visits, f, None, limit);
    var r :| r in Listed(visits, limit) && r.key == key;
    DescendingHoldsOnce(Listed(visits, limit), r);
  }
}
