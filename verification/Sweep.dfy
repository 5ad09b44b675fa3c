/**
 Walking a filtered findings query in keyset batches while the caller's updates take visited
 rows out of the filter.
 */
module Sweep {
  import opened Basics
  import opened Findings

  /** A row's place in the `(created_at, id)` order every page is cut from. */
  datatype Cursor = Cursor(createdAt: int, id: nat)

  predicate Precedes(a: Cursor, b: Cursor) {
    a.createdAt < b.createdAt || (a.createdAt == b.createdAt && a.id < b.id)
  }

  function PlaceOf(rows: Table, id: nat): Cursor
    requires id in rows
  {
    Cursor(rows[id].createdAt, id)
  }

  predicate IsAfter(cursor: Option<Cursor>, place: Cursor) {
    cursor.None? || Precedes(cursor.value, place)
  }

  function Selected(rows: Table, filter: Finding -> bool, cursor: Option<Cursor>): set<nat> {
    set id | id in rows && filter(rows[id]) && IsAfter(cursor, PlaceOf(rows, id))
  }

  ghost predicate InPlaceOrder(rows: Table, ids: seq<nat>) {
    && (forall i :: 0 <= i < |ids| ==> ids[i] in rows)
    && (forall i, j :: 0 <= i < j < |ids| ==> Precedes(PlaceOf(rows, ids[i]), PlaceOf(rows, ids[j])))
  }

  /** A page: the first `limit` selected rows in order. */
  ghost predicate IsPage(rows: Table, selected: set<nat>, limit: nat, page: seq<nat>) {
    && InPlaceOrder(rows, page) && |page| <= limit
    && (forall id :: id in page ==> id in selected)
    && (forall id :: id in selected && id in rows && id !in page ==>
          && |page| == limit
          && forall i :: 0 <= i < |page| ==> Precedes(PlaceOf(rows, page[i]), PlaceOf(rows, id)))
  }

  method First(rows: Table, ids: set<nat>) returns (least: nat)
    requires ids != {} && forall id :: id in ids ==> id in rows
    ensures least in ids
    ensures forall id :: id in ids && id != least ==> Precedes(PlaceOf(rows, least), PlaceOf(rows, id))
  {
    least :| least in ids;
    var todo := ids - {least};
    while todo != {}
      invariant least in ids && todo <= ids && least !in todo
      invariant forall id :: id in ids && id !in todo && id != least ==>
                Precedes(PlaceOf(rows, least), PlaceOf(rows, id))
      decreases |todo|
    {
      var id :| id in todo;
      todo := todo - {id};
      if Precedes(PlaceOf(rows, id), PlaceOf(rows, least)) {
        least := id;
      }
    }
  }

  /** The ordered, limited query a sweep issues for each batch. */
  method Query(rows: Table, filter: Finding -> bool, cursor: Option<Cursor>, limit: nat) returns (page: seq<nat>)
    ensures IsPage(rows, Selected(rows, filter, cursor), limit, page)
  {
    var selected := Selected(rows, filter, cursor);
    var todo := selected;
    page := [];
    while todo != {} && |page| < limit
      invariant |page| <= limit && InPlaceOrder(rows, page)
      invariant todo <= selected && forall id :: id in selected <==> id in todo || id in page
      invariant forall i, id :: 0 <= i < |page| && id in todo ==> Precedes(PlaceOf(rows, page[i]), PlaceOf(rows, id))
      decreases |todo|
    {
      var id := First(rows, todo);
      page := page + [id];
      todo := todo - {id};
    }
  }

  // ----- the sweep -----

  /** The table after every row that matched at the start has been updated once. */
  function Swept(rows: Table, filter: Finding -> bool, update: Finding -> Finding): Table {
    map id | id in rows :: if filter(rows[id]) then update(rows[id]) else rows[id]
  }

  function UpdatedAt(rows: Table, ids: seq<nat>, update: Finding -> Finding): Table {
    map id | id in rows :: if id in ids then update(rows[id]) else rows[id]
  }

  ghost predicate KeepsPlace(update: Finding -> Finding) {
    forall f: Finding :: update(f).createdAt == f.createdAt
  }

  /** Exactly the rows that matched at the start, up to the cursor, in order. */
  ghost predicate VisitedUpTo(start: Table, filter: Finding -> bool, cursor: Option<Cursor>, visited: seq<nat>) {
    && InPlaceOrder(start, visited)
    && (forall id :: id in visited <==> id in start && filter(start[id]) && !IsAfter(cursor, PlaceOf(start, id)))
  }

  lemma SamePlace(start: Table, visited: seq<nat>, update: Finding -> Finding, id: nat)
    requires KeepsPlace(update) && id in start
    ensures PlaceOf(UpdatedAt(start, visited, update), id) == PlaceOf(start, id)
  {
  }

  /** Updates behind the cursor change nothing ahead of it. */
  lemma AheadIsUntouched(start: Table, filter: Finding -> bool, update: Finding -> Finding, cursor: Option<Cursor>,
                         visited: seq<nat>)
    requires KeepsPlace(update) && VisitedUpTo(start, filter, cursor, visited)
    ensures Selected(UpdatedAt(start, visited, update), filter, cursor) == Selected(start, filter, cursor)
  {
    var now := UpdatedAt(start, visited, update);
    forall id | id in start
      ensures id in Selected(now, filter, cursor) <==> id in Selected(start, filter, cursor)
    {
      SamePlace(start, visited, update, id);
      if IsAfter(cursor, PlaceOf(start, id)) { assert id !in visited; }
    }
  }

  lemma PageOfStart(start: Table, visited: seq<nat>, update: Finding -> Finding, selected: set<nat>, limit: nat,
                    page: seq<nat>)
    requires KeepsPlace(update) && IsPage(UpdatedAt(start, visited, update), selected, limit, page)
    ensures IsPage(start, selected, limit, page)
  {
    forall id | id in start ensures PlaceOf(UpdatedAt(start, visited, update), id) == PlaceOf(start, id) {
      SamePlace(start, visited, update, id);
    }
  }


  /** Following a full or partial page, the walk has visited everything up to the page's last row. */
  lemma PageExtends(start: Table, filter: Finding -> bool, cursor: Option<Cursor>, visited: seq<nat>, limit: nat,
                    page: seq<nat>)
    requires VisitedUpTo(start, filter, cursor, visited) && page != []
    requires IsPage(start, Selected(start, filter, cursor), limit, page)
    ensures VisitedUpTo(start, filter, Some(PlaceOf(start, page[|page| - 1])), visited + page)
  {
    var last := page[|page| - 1];
    var next := Some(PlaceOf(start, last));
    assert last in page;
    forall id | id in start && filter(start[id]) && !IsAfter(next, PlaceOf(start, id))
      ensures id in visited + page
    {
      if IsAfter(cursor, PlaceOf(start, id)) {
        assert id in Selected(start, filter, cursor);
      }
    }
    forall id | id in visited + page
      ensures id in start && filter(start[id]) && !IsAfter(next, PlaceOf(start, id))
    {
      if id in page {
        assert id in Selected(start, filter, cursor);
        var i :| 0 <= i < |page| && page[i] == id;
      } else {
        assert !IsAfter(cursor, PlaceOf(start, id));
        assert last in Selected(start, filter, cursor);
      }
    }
    VisitedThenPage(start, filter, cursor, visited, page);
  }

  lemma VisitedThenPage(start: Table, filter: Finding -> bool, cursor: Option<Cursor>, visited: seq<nat>,
                        page: seq<nat>)
    requires VisitedUpTo(start, filter, cursor, visited) && InPlaceOrder(start, page)
    requires forall id :: id in page ==> id in Selected(start, filter, cursor)
    ensures InPlaceOrder(start, visited + page)
  {
    var all := visited + page;
    forall i, j | 0 <= i < j < |all| ensures Precedes(PlaceOf(start, all[i]), PlaceOf(start, all[j])) {
      if i < |visited| <= j {
        assert all[i] in visited && all[j] in page;
        assert !IsAfter(cursor, PlaceOf(start, all[i])) && IsAfter(cursor, PlaceOf(start, all[j]));
      } else if |visited| <= i {
        assert all[i] == page[i - |visited|] && all[j] == page[j - |visited|];
      }
    }
  }

  /** A short page ends the walk: nothing selected is left. */
  lemma ShortPageIsLast(start: Table, filter: Finding -> bool, cursor: Option<Cursor>, visited: seq<nat>, limit: nat,
                        page: seq<nat>)
    requires VisitedUpTo(start, filter, cursor, visited) && |page| < limit
    requires IsPage(start, Selected(start, filter, cursor), limit, page)
    ensures forall id :: id in start && filter(start[id]) ==> id in visited + page
  {
    forall id | id in start && filter(start[id]) ensures id in visited + page {
      if IsAfter(cursor, PlaceOf(start, id)) {
        assert id in Selected(start, filter, cursor);
      }
    }
  }

  lemma FewerAhead(start: Table, filter: Finding -> bool, cursor: Option<Cursor>, id: nat)
    requires id in Selected(start, filter, cursor)
    ensures |Selected(start, filter, Some(PlaceOf(start, id)))| < |Selected(start, filter, cursor)|
  {
    var next := Selected(start, filter, Some(PlaceOf(start, id)));
    assert next <= Selected(start, filter, cursor) - {id};
    SubsetIsSmaller(next, Selected(start, filter, cursor) - {id});
  }

  /** Update the rows of one batch, in order. */
  method UpdateBatch(before: Table, batch: seq<nat>, update: Finding -> Finding, ghost start: Table,
                     ghost visited: seq<nat>)
    returns (rows: Table)
    requires InPlaceOrder(start, visited + batch) && before == UpdatedAt(start, visited, update)
    ensures rows == UpdatedAt(start, visited + batch, update)
  {
    rows := before;
    assert visited + batch[..0] == visited;
    for n := 0 to |batch|
      invariant rows == UpdatedAt(start, visited + batch[..n], update)
    {
      var id := batch[n];
      NotYetVisited(start, visited, batch, n);
      rows := rows[id := update(rows[id])];
      assert batch[..n + 1] == batch[..n] + [id];
    }
    assert batch[..|batch|] == batch;
  }

  lemma NotYetVisited(start: Table, visited: seq<nat>, batch: seq<nat>, n: nat)
    requires InPlaceOrder(start, visited + batch) && n < |batch|
    ensures batch[n] in start && batch[n] !in visited + batch[..n]
  {
    var all, at := visited + batch, |visited| + n;
    assert all[at] == batch[n] && all[..at] == visited + batch[..n];
    forall i | 0 <= i < at ensures all[i] != all[at] {
      assert Precedes(PlaceOf(start, all[i]), PlaceOf(start, all[at]));
    }
  }

  /**
   The sweep. Whatever the batch size, and although an update may take a row out of the
   filter, it visits every row that matched at the start exactly once, in place order, and ends.
   */
  method InBatches(start: Table, filter: Finding -> bool, update: Finding -> Finding, batchSize: nat)
    returns (rows: Table, visited: seq<nat>)
    requires batchSize > 0 && KeepsPlace(update)
    ensures rows == Swept(start, filter, update)
    ensures InPlaceOrder(start, visited)
    ensures forall id :: id in visited <==> id in start && filter(start[id])
  {
    rows, visited := start, [];
    var cursor: Option<Cursor> := None;
    var more := true;
    assert rows == UpdatedAt(start, visited, update);
    while more
      invariant rows == UpdatedAt(start, visited, update)
      invariant InPlaceOrder(start, visited)
      invariant more ==> VisitedUpTo(start, filter, cursor, visited)
      invariant forall id :: id in visited ==> id in start && filter(start[id])
      invariant !more ==> forall id :: id in start && filter(start[id]) ==> id in visited
      decreases more, |Selected(start, filter, cursor)|
    {
      var batch := Query(rows, filter, cursor, batchSize);
      AheadIsUntouched(start, filter, update, cursor, visited);
      PageOfStart(start, visited, update, Selected(start, filter, cursor), batchSize, batch);
      if |batch| < batchSize {
        ShortPageIsLast(start, filter, cursor, visited, batchSize, batch);
      }
      if batch == [] {
        more := false;
      } else {
        PageExtends(start, filter, cursor, visited, batchSize, batch);
        FewerAhead(start, filter, cursor, batch[|batch| - 1]);
        var next := PlaceOf(rows, batch[|batch| - 1]);
        SamePlace(start, visited, update, batch[|batch| - 1]);
        rows := UpdateBatch(rows, batch, update, start, visited);
        visited := visited + batch;
        more := |batch| == batchSize;
        cursor := Some(next);
      }
    }
  }
}
