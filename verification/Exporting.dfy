/** Streaming a whole filtered set page by page, and the approximate count, over the same backends. */
module Exporting {
  import opened Values
  import opened ReadPlane
  import opened Paging

  const EXPORT_PAGE_SIZE := 1000

  // What the backend makes of the filter.
  function Honoured(b: Backend, preds: seq<Predicate>): seq<Predicate> {
    if b.serverFilter then preds else []
  }

  // Shaping keeps each row's key.
  ghost predicate KeepsKeys(b: Backend, fields: seq<string>) {
    forall row :: row in b.table && HasKey(row) ==>
      HasKey(b.shape(row, fields)) && KeyOf(b.shape(row, fields)) == KeyOf(row)
  }

  lemma FetchAtCursor(ops: Operators, b: Backend, preds: seq<Predicate>, fields: seq<string>, all: Table, k: nat,
                      limit: nat)
    requires Sorted(b.table) && all == Rows(ops, b.table, Honoured(b, preds), None) && k <= |all|
    ensures Fetch(ops, b, preds, fields, limit, CursorAt(all, k)) == Shaped(b.shape, Take(all[k..], limit), fields)
  {
    RowsAtCursor(ops, b.table, Honoured(b, preds), k);
  }

  lemma ShapedGrows(shape: (Record, seq<string>) -> Record, all: Table, k: nat, limit: nat, fields: seq<string>)
    requires k <= |all|
    ensures Shaped(shape, all[..k], fields) + Shaped(shape, Take(all[k..], limit), fields) ==
            Shaped(shape, all[..if k + limit <= |all| then k + limit else |all|], fields)
  {
  }

  lemma LastOfPage(ops: Operators, b: Backend, preds: seq<Predicate>, fields: seq<string>, all: Table, k: nat,
                   limit: nat)
    requires Sorted(b.table) && KeepsKeys(b, fields) && limit >= 1
    requires all == Rows(ops, b.table, Honoured(b, preds), None) && k + limit <= |all|
    ensures var page := Shaped(b.shape, Take(all[k..], limit), fields);
            |page| == limit && HasKey(page[limit - 1]) && Some(KeyOf(page[limit - 1])) == CursorAt(all, k + limit)
  {
    RowsAreFromTheTable(ops, b.table, Honoured(b, preds), None, k + limit - 1);
    assert Take(all[k..], limit)[limit - 1] == all[k + limit - 1];
  }

  // The page past the cursor that k rows have left.
  method FetchPage(ops: Operators, b: Backend, preds: seq<Predicate>, fields: seq<string>, after: Option<int>,
                   ghost all: Table, ghost k: nat)
    returns (page: seq<Record>)
    requires Sorted(b.table) && all == Rows(ops, b.table, Honoured(b, preds), None) && k <= |all|
    requires after == CursorAt(all, k)
    ensures page == Shaped(b.shape, Take(all[k..], EXPORT_PAGE_SIZE), fields)
  {
    page := Fetch(ops, b, preds, fields, EXPORT_PAGE_SIZE, after);
    FetchAtCursor(ops, b, preds, fields, all, k, EXPORT_PAGE_SIZE);
  }

  /** The stream yields every row that the backend finds for the filter, once each and in order. */
  method Stream(ops: Operators, b: Backend, preds: seq<Predicate>, fields: seq<string>) returns (rows: seq<Record>)
    requires Sorted(b.table) && KeepsKeys(b, fields)
    ensures rows == Shaped(b.shape, Rows(ops, b.table, Honoured(b, preds), None), fields)
  {
    ghost var all := Rows(ops, b.table, Honoured(b, preds), None);
    ghost var k := 0;
    rows := [];
    var after: Option<int> := None;
    while true
      invariant 0 <= k <= |all| && after == CursorAt(all, k)
      invariant rows == Shaped(b.shape, all[..k], fields)
      decreases |all| - k
    {
      var page := FetchPage(ops, b, preds, fields, after, all, k);
      ShapedGrows(b.shape, all, k, EXPORT_PAGE_SIZE, fields);
      if page == [] {
        assert all[..k] == all;
        return;
      }
      rows := rows + page;
      if |page| < EXPORT_PAGE_SIZE {
        assert all[..|all|] == all;
        return;
      }
      LastOfPage(ops, b, preds, fields, all, k, EXPORT_PAGE_SIZE);
      after := Some(KeyOf(page[|page| - 1]));
      k := k + EXPORT_PAGE_SIZE;
    }
  }

  lemma {:induction false} FilterKeepsAll(ops: Operators, table: Table, preds: seq<Predicate>)
    requires AllKeyed(table)
    ensures Rows(ops, table, preds, None) == table <==> forall i :: 0 <= i < |table| ==> Matches(ops, table[i], preds)
    ensures |Rows(ops, table, preds, None)| == |table| ==>
              forall i :: 0 <= i < |table| ==> Matches(ops, table[i], preds)
  {
    if table != [] {
      FilterKeepsAll(ops, table[1..], preds);
      if Matches(ops, table[0], preds) {
        assert Rows(ops, table, preds, None) == [table[0]] + Rows(ops, table[1..], preds, None);
        assert table == [table[0]] + table[1..];
      } else {
        assert |Rows(ops, table, preds, None)| < |table|;
      }
      forall i | 1 <= i < |table| ensures table[i] == table[1..][i - 1] {}
    }
  }

  /** Nothing filters again at the edge: over a backend that does not filter, the stream is the filtered
      set exactly when every row of the table matches. */
  lemma UnfilteredStream(ops: Operators, b: Backend, preds: seq<Predicate>)
    requires Sorted(b.table) && !b.serverFilter
    ensures Rows(ops, b.table, Honoured(b, preds), None) == b.table
    ensures Rows(ops, b.table, Honoured(b, preds), None) == Rows(ops, b.table, preds, None) <==>
            forall i :: 0 <= i < |b.table| ==> Matches(ops, b.table[i], preds)
  {
    AllRowsMatchNothing(ops, b.table);
    FilterKeepsAll(ops, b.table, preds);
  }

  // --- the approximate count ------------------------------------------------------------------------------

  // A backend that cannot count: at most one row past the bound is pulled, with its id alone, and
  // filtered here.
  function ApproximateCount(p: Plane, preds: seq<Predicate>): nat
    requires Sorted(p.backend.table)
  {
    var kept := Kept(p.ops, Fetch(p.ops, p.backend, preds, ["id"], p.bound + 1, None), preds);
    if |kept| <= p.bound then |kept| else p.bound
  }

  lemma {:induction false} MatchingRowsAreKept(ops: Operators, b: Backend, preds: seq<Predicate>, rows: Table)
    requires SameVerdicts(ops, b, ["id"], preds)
    requires forall i :: 0 <= i < |rows| ==> rows[i] in b.table && Matches(ops, rows[i], preds)
    ensures |Kept(ops, Shaped(b.shape, rows, ["id"]), preds)| == |rows|
  {
    if rows != [] {
      MatchingRowsAreKept(ops, b, preds, rows[1..]);
      assert rows[0] in b.table;
      assert Shaped(b.shape, rows, ["id"])[1..] == Shaped(b.shape, rows[1..], ["id"]);
    }
  }

  lemma {:induction false} RowsMatch(ops: Operators, table: Table, preds: seq<Predicate>, i: nat)
    requires AllKeyed(table) && i < |Rows(ops, table, preds, None)|
    ensures Matches(ops, Rows(ops, table, preds, None)[i], preds)
  {
    var here := if Matches(ops, table[0], preds) then 1 else 0;
    if i >= here {
      RowsMatch(ops, table[1..], preds, i - here);
    }
  }

  /** Where the rows handed over get the verdicts of the rows themselves, the approximate count over a
      filtering backend is the exact one, cut off at the bound. */
  lemma CountIsExactUpToTheBound(p: Plane, preds: seq<Predicate>)
    requires Sorted(p.backend.table) && p.backend.serverFilter && SameVerdicts(p.ops, p.backend, ["id"], preds)
    ensures var n := |Rows(p.ops, p.backend.table, preds, None)|;
            ApproximateCount(p, preds) == if n <= p.bound then n else p.bound
  {
    var all := Rows(p.ops, p.backend.table, preds, None);
    var rows := Take(all, p.bound + 1);
    forall i | 0 <= i < |rows| ensures rows[i] in p.backend.table && Matches(p.ops, rows[i], preds) {
      RowsAreFromTheTable(p.ops, p.backend.table, preds, None, i);
      RowsMatch(p.ops, p.backend.table, preds, i);
    }
    MatchingRowsAreKept(p.ops, p.backend, preds, rows);
  }

  /** Over a backend that does not filter it is the number of matches among the first rows of the table, one
      more than the bound, cut off at the bound: so exact up to the bound for a table with no more rows. */
  lemma UnfilteredCount(p: Plane, preds: seq<Predicate>)
    requires Sorted(p.backend.table) && !p.backend.serverFilter && SameVerdicts(p.ops, p.backend, ["id"], preds)
    ensures var n := |Rows(p.ops, Take(p.backend.table, p.bound + 1), preds, None)|;
            ApproximateCount(p, preds) == if n <= p.bound then n else p.bound
    ensures |p.backend.table| <= p.bound + 1 ==> Take(p.backend.table, p.bound + 1) == p.backend.table
  {
    var rows := Take(p.backend.table, p.bound + 1);
    AllRowsMatchNothing(p.ops, p.backend.table);
    AllRowsMatchNothing(p.ops, rows);
    FilteringShapedRows(p.ops, p.backend, rows, ["id"], preds, None);
  }
}
