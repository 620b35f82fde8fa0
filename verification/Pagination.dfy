/**
 Cursor pagination over a table that may change between requests: each request asks for
 the first 1000 rows whose id is greater than the last id seen.
 */
module Pagination {

  const PAGE_SIZE: nat := 1000
  const MAX_BROAD_ROWS: nat := 50_000
  const MAX_BROAD_PAGES: nat := (MAX_BROAD_ROWS + PAGE_SIZE - 1) / PAGE_SIZE

  /** String order, character by character; the empty string comes first. */
  predicate Less(a: string, b: string) {
    b != [] && (a == [] || a[0] < b[0] || (a[0] == b[0] && Less(a[1..], b[1..])))
  }

  lemma {:induction false} LessIrreflexive(a: string)
    ensures !Less(a, a)
  {
    if a != [] { LessIrreflexive(a[1..]); }
  }

  lemma {:induction false} LessTransitive(a: string, b: string, c: string)
    requires Less(a, b) && Less(b, c)
    ensures Less(a, c)
  {
    if a != [] && a[0] == b[0] && b[0] == c[0] { LessTransitive(a[1..], b[1..], c[1..]); }
  }

  lemma {:induction false} LessTotal(a: string, b: string)
    ensures a == b || Less(a, b) || Less(b, a)
  {
    if a != [] && b != [] && a[0] == b[0] {
      LessTotal(a[1..], b[1..]);
      assert a == [a[0]] + a[1..] && b == [b[0]] + b[1..];
    }
  }

  /** Rows are represented by their ids; a table lists them in increasing order. */
  ghost predicate Increasing(ids: seq<string>) {
    forall i, j :: 0 <= i < j < |ids| ==> Less(ids[i], ids[j])
  }

  function Greater(table: seq<string>, cursor: string): (r: seq<string>)
    ensures |r| <= |table|
  {
    if table == [] then []
    else if Less(cursor, table[0]) then [table[0]] + Greater(table[1..], cursor)
    else Greater(table[1..], cursor)
  }

  /** What the gateway answers: at most PAGE_SIZE rows above the cursor, in order. */
  function Page(table: seq<string>, cursor: string): seq<string> {
    var rows := Greater(table, cursor);
    if |rows| <= PAGE_SIZE then rows else rows[..PAGE_SIZE]
  }

  lemma {:induction false} GreaterIs(table: seq<string>, cursor: string)
    ensures forall id :: id in Greater(table, cursor) <==> id in table && Less(cursor, id)
    ensures Increasing(table) ==> Increasing(Greater(table, cursor))
  {
    if table != [] {
      GreaterIs(table[1..], cursor);
      assert table == [table[0]] + table[1..];
      if Increasing(table) {
        var tail, r := table[1..], Greater(table[1..], cursor);
        forall i, j | 0 <= i < j < |tail| ensures Less(tail[i], tail[j]) { assert Less(table[i + 1], table[j + 1]); }
        forall j | 0 <= j < |r| ensures Less(table[0], r[j]) {
          assert r[j] in tail;
          var k :| 0 <= k < |tail| && tail[k] == r[j];
          assert Less(table[0], table[k + 1]);
        }
      }
    }
  }

  /** The ids in every one of the first n snapshots. */
  ghost predicate InAll(tables: seq<seq<string>>, n: nat, id: string)
    requires n <= |tables|
  {
    forall p :: 0 <= p < n ==> id in tables[p]
  }

  ghost predicate InSome(tables: seq<seq<string>>, n: nat, id: string)
    requires n <= |tables|
  {
    exists p :: 0 <= p < n && id in tables[p]
  }

  /** What has been collected up to the cursor after n pages. */
  ghost predicate Collected(tables: seq<seq<string>>, n: nat, rows: seq<string>, lastId: string)
    requires n <= |tables|
  {
    && Increasing(rows)
    && lastId == (if rows == [] then [] else rows[|rows| - 1])
    && (forall id :: id in rows ==> InSome(tables, n, id) && Less([], id))
    && (forall id :: id != [] && InAll(tables, n, id) && !Less(lastId, id) ==> id in rows)
  }

  lemma IncreasingConcat(x: seq<string>, y: seq<string>, cursor: string)
    requires Increasing(x) && Increasing(y)
    requires x != [] ==> cursor == x[|x| - 1]
    requires forall id :: id in y ==> Less(cursor, id)
    ensures Increasing(x + y)
  {
    forall i, j | 0 <= i < j < |x + y| ensures Less((x + y)[i], (x + y)[j]) {
      if i < |x| <= j {
        assert y[j - |x|] in y;
        if i < |x| - 1 {
          LessTransitive(x[i], cursor, y[j - |x|]);
        }
      }
    }
  }

  /** One more page, read from the table of its moment. */
  lemma CollectPage(tables: seq<seq<string>>, n: nat, rows: seq<string>, lastId: string)
    requires n < |tables| && Increasing(tables[n])
    requires Collected(tables, n, rows, lastId)
    ensures var batch := Page(tables[n], lastId);
      && (|batch| > 0 ==>
          Collected(tables, n + 1, rows + batch, batch[|batch| - 1]) && Less(lastId, batch[|batch| - 1]))
      && (|batch| < PAGE_SIZE ==> forall id :: id != [] && InAll(tables, n + 1, id) ==> id in rows + batch)
      && Increasing(rows + batch)
      && (forall id :: id in rows + batch ==> InSome(tables, n + 1, id))
  {
    var table := tables[n];
    var all, batch := Greater(table, lastId), Page(table, lastId);
    GreaterIs(table, lastId);
    assert forall i :: 0 <= i < |batch| ==> batch[i] == all[i] && batch[i] in all;
    IncreasingConcat(rows, batch, lastId);
    forall id | id in rows + batch ensures InSome(tables, n + 1, id) && Less([], id) {
      if id in rows {
        var p :| 0 <= p < n && id in tables[p];
      } else {
        assert id in table && Less(lastId, id);
      }
    }
    forall id | id != [] && InAll(tables, n + 1, id)
      ensures |batch| < PAGE_SIZE || (|batch| > 0 && !Less(batch[|batch| - 1], id)) ==> id in rows + batch
    {
      assert id in table && InAll(tables, n, id);
      if Less(lastId, id) {
        var k :| 0 <= k < |all| && all[k] == id;
        assert k < |batch| ==> batch[k] == id;
        if |batch| <= k { assert Less(all[|batch| - 1], all[k]); }
      }
    }
  }

  /** Increasing ids are pairwise different. */
  lemma NoDuplicates(rows: seq<string>)
    requires Increasing(rows)
    ensures forall i, j :: 0 <= i < j < |rows| ==> rows[i] != rows[j]
  {
    forall i, j | 0 <= i < j < |rows| ensures rows[i] != rows[j] { LessIrreflexive(rows[i]); }
  }

  /**
   Reads page after page, each from the table as it is at that moment. `stalled` records
   whether the non-advancing-cursor branch was taken.
   */
  method PaginateByCursor(tables: seq<seq<string>>) returns (rows: seq<string>, truncated: bool, stalled: bool, pages: nat)
    requires |tables| == MAX_BROAD_PAGES
    requires forall p :: 0 <= p < |tables| ==> Increasing(tables[p])
    ensures pages <= 50 && |rows| <= 1000 * pages
    ensures Increasing(rows) && forall i, j :: 0 <= i < j < |rows| ==> rows[i] != rows[j]
    ensures forall id :: id in rows ==> InSome(tables, pages, id)
    ensures !truncated ==> forall id :: id != [] && InAll(tables, pages, id) ==> id in rows
    ensures truncated <==> |rows| == 50_000
    ensures truncated ==> Collected(tables, pages, rows, rows[|rows| - 1])
    ensures !stalled
  {
    rows, stalled, pages := [], false, 0;
    var lastId := "";
    for page := 0 to MAX_BROAD_PAGES
      invariant Collected(tables, page, rows, lastId)
      invariant |rows| == page * PAGE_SIZE
      invariant pages == page
    {
      var batch := Page(tables[page], lastId);
      CollectPage(tables, page, rows, lastId);
      rows := rows + batch;
      NoDuplicates(rows);
      pages := page + 1;
      if |batch| < PAGE_SIZE { return rows, false, false, pages; }
      var tail := batch[|batch| - 1];
      LessIrreflexive(lastId);
      if tail == lastId { return rows, true, true, pages; }
      lastId := tail;
    }
    NoDuplicates(rows);
    truncated := true;
  }
}
