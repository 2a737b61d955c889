/** Keyset paging through a search: what following the cursors to the end yields. */
module Paging {
  import opened Values
  import opened ReadPlane

  type Table = seq<Record>

  predicate HasKey(row: Record) {
    "id" in row && row["id"].Int?
  }

  function KeyOf(row: Record): int
    requires HasKey(row)
  {
    row["id"].n
  }

  // Rows with integer ids, in increasing order of id.
  predicate Sorted(table: Table) {
    && (forall i :: 0 <= i < |table| ==> HasKey(table[i]))
    && (forall i, j :: 0 <= i < j < |table| ==> KeyOf(table[i]) < KeyOf(table[j]))
  }

  // A keyset backend: its rows, what it makes of a row when asked for some fields, and whether it
  // filters at all.
  datatype Backend = Backend(table: Table, shape: (Record, seq<string>) -> Record, serverFilter: bool)

  predicate Qualifies(ops: Operators, row: Record, preds: seq<Predicate>, after: Option<int>)
    requires HasKey(row)
  {
    (after.Some? ==> KeyOf(row) > after.value) && Matches(ops, row, preds)
  }

  // The rows past a key that match, in order.
  function Rows(ops: Operators, table: Table, preds: seq<Predicate>, after: Option<int>): (r: Table)
    requires forall i :: 0 <= i < |table| ==> HasKey(table[i])
    ensures |r| <= |table| && forall i :: 0 <= i < |r| ==> HasKey(r[i])
  {
    if table == [] then []
    else
      (if Qualifies(ops, table[0], preds, after) then [table[0]] else []) + Rows(ops, table[1..], preds, after)
  }

  lemma {:induction false} RowsAreFromTheTable(ops: Operators, table: Table, preds: seq<Predicate>, after: Option<int>,
                                               i: nat)
    requires (forall j :: 0 <= j < |table| ==> HasKey(table[j])) && i < |Rows(ops, table, preds, after)|
    ensures Rows(ops, table, preds, after)[i] in table
  {
    var here := if Qualifies(ops, table[0], preds, after) then 1 else 0;
    if i >= here {
      RowsAreFromTheTable(ops, table[1..], preds, after, i - here);
    }
  }

  function Shaped(shape: (Record, seq<string>) -> Record, rows: seq<Record>, fields: seq<string>): (r: seq<Record>)
    ensures |r| == |rows| && forall i :: 0 <= i < |rows| ==> r[i] == shape(rows[i], fields)
  {
    seq(|rows|, i requires 0 <= i < |rows| => shape(rows[i], fields))
  }

  function Take<T>(s: seq<T>, n: nat): seq<T> {
    if |s| <= n then s else s[..n]
  }

  // A backend that does not filter ignores the predicates.
  function Fetch(ops: Operators, b: Backend, preds: seq<Predicate>, fields: seq<string>, limit: nat,
                 after: Option<int>): seq<Record>
    requires Sorted(b.table)
  {
    Shaped(b.shape, Take(Rows(ops, b.table, if b.serverFilter then preds else [], after), limit), fields)
  }

  // What the read plane is configured with.
  datatype Plane = Plane(backend: Backend, ops: Operators, bound: nat, cap: nat, size: Page -> nat)

  datatype Page = Page(items: seq<Record>, cursor: Option<int>)

  datatype Answer<+T> = TooLarge | Given(value: T)

  function Kept(ops: Operators, rows: seq<Record>, preds: seq<Predicate>): (r: seq<Record>)
    ensures forall row :: row in r ==> row in rows
  {
    if rows == [] then []
    else (if Matches(ops, rows[0], preds) then [rows[0]] else []) + Kept(ops, rows[1..], preds)
  }

  // One page's worth and one row more; without a filtering backend a bounded slice is filtered here,
  // and a larger one is refused.
  function Gather(p: Plane, preds: seq<Predicate>, fields: seq<string>, limit: nat,
                  after: Option<int>): Answer<seq<Record>>
    requires Sorted(p.backend.table)
  {
    if p.backend.serverFilter then Given(Fetch(p.ops, p.backend, preds, fields, limit + 1, after))
    else
      var pulled := Fetch(p.ops, p.backend, [], fields, p.bound + 1, after);
      if |pulled| > p.bound then TooLarge else Given(Take(Kept(p.ops, pulled, preds), limit + 1))
  }

  // The id a row ends a page with; a row whose id is not an integer ends the listing.
  function LastKey(rows: seq<Record>): Option<int> {
    if rows != [] && HasKey(rows[|rows| - 1]) then Some(KeyOf(rows[|rows| - 1])) else None
  }

  function PageOf(rows: seq<Record>, fields: seq<string>, limit: nat): Page {
    Page(ProjectAll(Take(rows, limit), fields), if |rows| > limit then LastKey(Take(rows, limit)) else None)
  }

  function Search(p: Plane, preds: seq<Predicate>, fields: seq<string>, limit: nat, after: Option<int>): Answer<Page>
    requires Sorted(p.backend.table)
  {
    match Gather(p, preds, fields, limit, after)
    case TooLarge => TooLarge
    case Given(rows) =>
      var page := PageOf(rows, fields, limit);
      if p.size(page) > p.cap then TooLarge else Given(page)
  }

  // --- what a backend must hand over --------------------------------------------------------------------

  // The fields a search needs of a row: its key, those it projects, those the filter looks at.
  predicate Asked(fields: seq<string>, preds: seq<Predicate>, f: string) {
    f == "id" || f in fields || exists p :: p in preds && p.field == Str(f)
  }

  // Shaping a row leaves what the search needs of it as it was.
  ghost predicate Carries(b: Backend, fields: seq<string>, preds: seq<Predicate>) {
    forall row, f :: row in b.table && Asked(fields, preds, f) ==> SameAt(row, b.shape(row, fields), f)
  }

  predicate SameAt(row: Record, row': Record, f: string) {
    (f in row <==> f in row') && (f in row ==> row[f] == row'[f])
  }

  lemma ShapedRow(b: Backend, fields: seq<string>, preds: seq<Predicate>, row: Record)
    requires Carries(b, fields, preds) && row in b.table && HasKey(row)
    ensures var row' := b.shape(row, fields);
            HasKey(row') && KeyOf(row') == KeyOf(row) && Project(row', fields) == Project(row, fields)
  {
    var row' := b.shape(row, fields);
    assert Asked(fields, preds, "id");
    assert SameAt(row, row', "id");
    forall f | f == "id" || f in fields ensures SameAt(row, row', f) {
      assert Asked(fields, preds, f);
    }
  }

  lemma ShapedRowMatches(ops: Operators, b: Backend, fields: seq<string>, preds: seq<Predicate>, row: Record)
    requires Carries(b, fields, preds) && row in b.table
    ensures Matches(ops, b.shape(row, fields), preds) == Matches(ops, row, preds)
  {
    var row' := b.shape(row, fields);
    forall p | p in preds ensures FieldValue(row', p.field) == FieldValue(row, p.field) {
      if p.field.Str? {
        assert Asked(fields, preds, p.field.s);
        assert SameAt(row, row', p.field.s);
      }
    }
  }

  // Shaping a row leaves the filter's verdict on it as it was.
  ghost predicate SameVerdicts(ops: Operators, b: Backend, fields: seq<string>, preds: seq<Predicate>) {
    forall row :: row in b.table ==> Matches(ops, b.shape(row, fields), preds) == Matches(ops, row, preds)
  }

  lemma CarriedVerdicts(ops: Operators, b: Backend, fields: seq<string>, preds: seq<Predicate>)
    requires Carries(b, fields, preds)
    ensures SameVerdicts(ops, b, fields, preds)
  {
    forall row | row in b.table ensures Matches(ops, b.shape(row, fields), preds) == Matches(ops, row, preds) {
      ShapedRowMatches(ops, b, fields, preds, row);
    }
  }

  lemma PageOfShaped(b: Backend, fields: seq<string>, preds: seq<Predicate>, rows: seq<Record>, limit: nat)
    requires Carries(b, fields, preds)
    requires forall row :: row in rows ==> row in b.table && HasKey(row)
    ensures PageOf(Shaped(b.shape, rows, fields), fields, limit) == PageOf(rows, fields, limit)
  {
    var shaped := Shaped(b.shape, rows, fields);
    forall i | 0 <= i < |rows|
      ensures HasKey(shaped[i]) && KeyOf(shaped[i]) == KeyOf(rows[i]) &&
              Project(shaped[i], fields) == Project(rows[i], fields)
    {
      assert rows[i] in rows;
      ShapedRow(b, fields, preds, rows[i]);
    }
    assert ProjectAll(Take(shaped, limit), fields) == ProjectAll(Take(rows, limit), fields);
  }

  // --- the edge's filter -----------------------------------------------------------------------------

  lemma ShapedOneMore(shape: (Record, seq<string>) -> Record, row: Record, rows: seq<Record>, fields: seq<string>)
    ensures Shaped(shape, [row] + rows, fields) == [shape(row, fields)] + Shaped(shape, rows, fields)
  {
  }

  lemma KeptOneMore(ops: Operators, row: Record, rows: seq<Record>, preds: seq<Predicate>)
    ensures Kept(ops, [row] + rows, preds) == (if Matches(ops, row, preds) then [row] else []) + Kept(ops, rows, preds)
  {
    assert ([row] + rows)[1..] == rows;
  }

  lemma {:induction false} FilteringShapedRows(ops: Operators, b: Backend, rows: Table, fields: seq<string>,
                                               preds: seq<Predicate>, after: Option<int>)
    requires SameVerdicts(ops, b, fields, preds)
    requires forall i :: 0 <= i < |rows| ==> HasKey(rows[i]) && rows[i] in b.table
    ensures Kept(ops, Shaped(b.shape, Rows(ops, rows, [], after), fields), preds) ==
            Shaped(b.shape, Rows(ops, rows, preds, after), fields)
  {
    if rows != [] {
      FilteringShapedRows(ops, b, rows[1..], fields, preds, after);
      assert rows[0] in b.table;
      var some, all := Rows(ops, rows[1..], preds, after), Rows(ops, rows[1..], [], after);
      ShapedOneMore(b.shape, rows[0], some, fields);
      ShapedOneMore(b.shape, rows[0], all, fields);
      KeptOneMore(ops, b.shape(rows[0], fields), Shaped(b.shape, all, fields), preds);
      if Qualifies(ops, rows[0], [], after) {
        assert Rows(ops, rows, [], after) == [rows[0]] + all;
        assert Rows(ops, rows, preds, after) == (if Matches(ops, rows[0], preds) then [rows[0]] + some else some);
      } else {
        assert Rows(ops, rows, [], after) == all;
        assert Rows(ops, rows, preds, after) == some;
      }
    }
  }

  /** The edge's fallback refuses exactly when more rows than the bound lie past the cursor, matching or not;
      otherwise, where the rows handed over get the verdicts of the rows themselves, it gathers exactly what a
      filtering backend would. */
  lemma FallbackAgrees(p: Plane, preds: seq<Predicate>, fields: seq<string>, limit: nat, after: Option<int>)
    requires Sorted(p.backend.table) && !p.backend.serverFilter && SameVerdicts(p.ops, p.backend, fields, preds)
    ensures var r := Gather(p, preds, fields, limit, after);
            && (r.TooLarge? <==> |Rows(p.ops, p.backend.table, [], after)| > p.bound)
            && (r.Given? ==> r == Gather(p.(backend := p.backend.(serverFilter := true)), preds, fields, limit, after))
  {
    var all := Rows(p.ops, p.backend.table, [], after);
    if |all| <= p.bound {
      FilteringShapedRows(p.ops, p.backend, p.backend.table, fields, preds, after);
      ShapedTake(p.backend.shape, Rows(p.ops, p.backend.table, preds, after), fields, limit + 1);
    }
  }

  lemma ShapedTake(shape: (Record, seq<string>) -> Record, rows: seq<Record>, fields: seq<string>, n: nat)
    ensures Take(Shaped(shape, rows, fields), n) == Shaped(shape, Take(rows, n), fields)
  {
  }

  // --- following the cursors ----------------------------------------------------------------------------

  lemma {:induction false} AllPast(ops: Operators, table: Table, preds: seq<Predicate>, key: int)
    requires Sorted(table) && forall i :: 0 <= i < |table| ==> KeyOf(table[i]) > key
    ensures Rows(ops, table, preds, Some(key)) == Rows(ops, table, preds, None)
  {
    if table != [] {
      AllPast(ops, table[1..], preds, key);
    }
  }

  lemma {:induction false} RowsAbove(ops: Operators, table: Table, preds: seq<Predicate>, key: int, i: nat)
    requires Sorted(table) && (forall j :: 0 <= j < |table| ==> KeyOf(table[j]) > key)
    requires i < |Rows(ops, table, preds, None)|
    ensures KeyOf(Rows(ops, table, preds, None)[i]) > key
  {
    var here := if Qualifies(ops, table[0], preds, None) then 1 else 0;
    if i >= here {
      RowsAbove(ops, table[1..], preds, key, i - here);
    }
  }

  // A head at or before the cursor adds nothing past it.
  lemma HeadIsPassed(ops: Operators, table: Table, preds: seq<Predicate>, key: int)
    requires Sorted(table) && table != [] && KeyOf(table[0]) <= key
    ensures Rows(ops, table, preds, Some(key)) == Rows(ops, table[1..], preds, Some(key))
  {
  }

  // Past the k-th match lie the matches after it.
  lemma {:induction false} RowsPast(ops: Operators, table: Table, preds: seq<Predicate>, all: Table, k: nat)
    requires Sorted(table) && all == Rows(ops, table, preds, None) && k < |all|
    ensures Rows(ops, table, preds, Some(KeyOf(all[k]))) == all[k + 1..]
    decreases |table|, 1
  {
    var rest := Rows(ops, table[1..], preds, None);
    if !Qualifies(ops, table[0], preds, None) {
      assert all == rest;
      RowsAbove(ops, table[1..], preds, KeyOf(table[0]), k);
      RowsPast(ops, table[1..], preds, rest, k);
      HeadIsPassed(ops, table, preds, KeyOf(all[k]));
    } else {
      assert all == [table[0]] + rest;
      MatchingHead(ops, table, preds, all, rest, k);
    }
  }

  lemma {:induction false} MatchingHead(ops: Operators, table: Table, preds: seq<Predicate>, all: Table, rest: Table,
                                        k: nat)
    requires Sorted(table) && table != [] && rest == Rows(ops, table[1..], preds, None)
    requires all == [table[0]] + rest && k < |all|
    ensures Rows(ops, table, preds, Some(KeyOf(all[k]))) == all[k + 1..]
    decreases |table|, 0
  {
    if k == 0 {
      AllPast(ops, table[1..], preds, KeyOf(table[0]));
    } else {
      RowsPast(ops, table[1..], preds, rest, k - 1);
      RowsAbove(ops, table[1..], preds, KeyOf(table[0]), k - 1);
    }
    HeadIsPassed(ops, table, preds, KeyOf(all[k]));
    assert all[k + 1..] == rest[k..];
  }

  // The cursor a listing of the matches is at when k of them have been seen.
  function CursorAt(all: Table, k: nat): Option<int>
    requires k <= |all| && forall i :: 0 <= i < |all| ==> HasKey(all[i])
  {
    if k == 0 then None else Some(KeyOf(all[k - 1]))
  }

  lemma RowsAtCursor(ops: Operators, table: Table, preds: seq<Predicate>, k: nat)
    requires Sorted(table) && k <= |Rows(ops, table, preds, None)|
    ensures var all := Rows(ops, table, preds, None);
            Rows(ops, table, preds, CursorAt(all, k)) == all[k..]
  {
    if k > 0 {
      RowsPast(ops, table, preds, Rows(ops, table, preds, None), k - 1);
    }
  }

  // The page that should come k matches in: the next `limit` of them, projected, and the last one's
  // id when there are more.
  function Expected(all: Table, k: nat, fields: seq<string>, limit: nat): Page
    requires k <= |all|
  {
    PageOf(all[k..], fields, limit)
  }

  lemma PageOfOneMore(rows: Table, fields: seq<string>, limit: nat)
    ensures PageOf(Take(rows, limit + 1), fields, limit) == PageOf(rows, fields, limit)
  {
    assert Take(Take(rows, limit + 1), limit) == Take(rows, limit);
  }

  /** A page asked for with the cursor left by k matches is the next `limit` matches, projected, with a
      cursor exactly when more follow; unless it is over the byte cap. */
  lemma PageAtCursor(p: Plane, preds: seq<Predicate>, fields: seq<string>, limit: nat, all: Table, k: nat)
    requires Sorted(p.backend.table) && p.backend.serverFilter && Carries(p.backend, fields, preds)
    requires all == Rows(p.ops, p.backend.table, preds, None) && k <= |all|
    ensures var expected := Expected(all, k, fields, limit);
            Search(p, preds, fields, limit, CursorAt(all, k)) ==
            if p.size(expected) > p.cap then TooLarge else Given(expected)
  {
    RowsAtCursor(p.ops, p.backend.table, preds, k);
    var page := Take(all[k..], limit + 1);
    forall row | row in page ensures row in p.backend.table && HasKey(row) {
      var i :| 0 <= i < |page| && page[i] == row;
      assert row == all[k + i];
      RowsAreFromTheTable(p.ops, p.backend.table, preds, None, k + i);
    }
    PageOfShaped(p.backend, fields, preds, page, limit);
    PageOfOneMore(all[k..], fields, limit);
    assert Gather(p, preds, fields, limit, CursorAt(all, k)) == Given(Shaped(p.backend.shape, page, fields));
  }

  // The pages got by asking from a cursor and following next_cursor until there is none.
  ghost predicate Listing(ask: Option<int> -> Answer<Page>, after: Option<int>, pages: seq<Page>)
    decreases |pages|
  {
    && pages != []
    && ask(after) == Given(pages[0])
    && if pages[0].cursor.None? then |pages| == 1 else Listing(ask, pages[0].cursor, pages[1..])
  }

  function Joined(pages: seq<Page>): seq<Record> {
    if pages == [] then [] else pages[0].items + Joined(pages[1..])
  }

  // The pages it takes to show n rows: one even when there are none.
  function PageCount(n: nat, limit: nat): nat
    requires limit >= 1
  {
    if n <= limit then 1 else 1 + PageCount(n - limit, limit)
  }

  /** That is max(1, ceil(n / limit)): the least number of pages, but one, with room for n rows. */
  lemma {:induction false} PageCountIsLeast(n: nat, limit: nat)
    requires limit >= 1
    ensures var c := PageCount(n, limit); c >= 1 && n <= c * limit && (c > 1 ==> (c - 1) * limit < n)
  {
    if n > limit {
      PageCountIsLeast(n - limit, limit);
      var c := PageCount(n - limit, limit);
      assert (c + 1) * limit == c * limit + limit;
      assert c > 1 ==> c * limit == (c - 1) * limit + limit;
    }
  }

  lemma ProjectAllSplits(rows: seq<Record>, k: nat, fields: seq<string>)
    requires k <= |rows|
    ensures ProjectAll(rows, fields) == ProjectAll(rows[..k], fields) + ProjectAll(rows[k..], fields)
  {
  }

  // The cursor of a full page is the one left by the matches up to its end.
  lemma NextCursor(all: Table, k: nat, fields: seq<string>, limit: nat)
    requires k <= |all| && limit >= 1 && forall i :: 0 <= i < |all| ==> HasKey(all[i])
    ensures var page := Expected(all, k, fields, limit);
            page.cursor == if |all| - k > limit then CursorAt(all, k + limit) else None
  {
  }

  predicate AllKeyed(all: Table) {
    forall i :: 0 <= i < |all| ==> HasKey(all[i])
  }

  // Every cursor is answered with the page that should come, or refused.
  ghost predicate Delivers(ask: Option<int> -> Answer<Page>, fields: seq<string>, limit: nat, all: Table)
    requires AllKeyed(all)
  {
    forall k {:trigger CursorAt(all, k)} :: 0 <= k <= |all| ==>
      ask(CursorAt(all, k)).TooLarge? || ask(CursorAt(all, k)) == Given(Expected(all, k, fields, limit))
  }

  lemma FirstPage(ask: Option<int> -> Answer<Page>, fields: seq<string>, limit: nat, all: Table, k: nat,
                  pages: seq<Page>)
    requires limit >= 1 && k <= |all| && AllKeyed(all) && Delivers(ask, fields, limit, all)
    requires Listing(ask, CursorAt(all, k), pages)
    ensures pages[0] == Expected(all, k, fields, limit)
    ensures |all| - k > limit ==> Listing(ask, CursorAt(all, k + limit), pages[1..])
    ensures |all| - k <= limit ==> |pages| == 1
  {
    NextCursor(all, k, fields, limit);
  }

  lemma {:induction false} ListingFrom(ask: Option<int> -> Answer<Page>, fields: seq<string>, limit: nat, all: Table,
                                       k: nat, pages: seq<Page>)
    requires limit >= 1 && k <= |all| && AllKeyed(all) && Delivers(ask, fields, limit, all)
    requires Listing(ask, CursorAt(all, k), pages)
    ensures Joined(pages) == ProjectAll(all[k..], fields) && |pages| == PageCount(|all| - k, limit)
    decreases |pages|
  {
    FirstPage(ask, fields, limit, all, k, pages);
    if |all| - k > limit {
      ListingFrom(ask, fields, limit, all, k + limit, pages[1..]);
      PagesAddUp(fields, limit, all, k, pages[0], pages[1..]);
      assert pages == [pages[0]] + pages[1..];
    } else {
      OnePageMore(all, k, fields, limit);
      assert pages == [pages[0]] + [];
      JoinedHead(pages[0], []);
    }
  }

  lemma JoinedHead(page: Page, rest: seq<Page>)
    ensures Joined([page] + rest) == page.items + Joined(rest)
  {
    assert ([page] + rest)[1..] == rest;
  }

  lemma PagesAddUp(fields: seq<string>, limit: nat, all: Table, k: nat, page: Page, rest: seq<Page>)
    requires limit >= 1 && k <= |all| && page == Expected(all, k, fields, limit) && |all| - k > limit
    requires Joined(rest) == ProjectAll(all[k + limit..], fields) && |rest| == PageCount(|all| - k - limit, limit)
    ensures Joined([page] + rest) == ProjectAll(all[k..], fields) && |[page] + rest| == PageCount(|all| - k, limit)
  {
    OnePageMore(all, k, fields, limit);
    JoinedHead(page, rest);
  }

  lemma OnePageMore(all: Table, k: nat, fields: seq<string>, limit: nat)
    requires k <= |all|
    ensures var items := Expected(all, k, fields, limit).items;
            ProjectAll(all[k..], fields) ==
            if |all| - k > limit then items + ProjectAll(all[k + limit..], fields) else items + []
  {
    if |all| - k > limit {
      ProjectAllSplits(all[k..], limit, fields);
      assert all[k..][limit..] == all[k + limit..];
    }
  }

  /** Following the cursors to the end shows every matching row exactly once, in order and projected, in
      max(1, ceil(n / limit)) pages. */
  lemma ListingIsComplete(p: Plane, preds: seq<Predicate>, fields: seq<string>, limit: nat,
                          ask: Option<int> -> Answer<Page>, pages: seq<Page>)
    requires Sorted(p.backend.table) && limit >= 1 && Carries(p.backend, fields, preds)
    requires p.backend.serverFilter || |p.backend.table| <= p.bound
    requires forall after :: ask(after) == Search(p, preds, fields, limit, after)
    requires Listing(ask, None, pages)
    ensures var all := Rows(p.ops, p.backend.table, preds, None);
            Joined(pages) == ProjectAll(all, fields) && |pages| == PageCount(|all|, limit)
  {
    var all := Rows(p.ops, p.backend.table, preds, None);
    EitherBackendDelivers(p, preds, fields, limit, all, ask);
    FromTheStart(ask, fields, limit, all, pages);
  }

  lemma FromTheStart(ask: Option<int> -> Answer<Page>, fields: seq<string>, limit: nat, all: Table, pages: seq<Page>)
    requires limit >= 1 && AllKeyed(all) && Delivers(ask, fields, limit, all) && Listing(ask, None, pages)
    ensures Joined(pages) == ProjectAll(all, fields) && |pages| == PageCount(|all|, limit)
  {
    assert CursorAt(all, 0) == None && all[0..] == all;
    ListingFrom(ask, fields, limit, all, 0, pages);
  }

  // No question a listing can come to is refused.
  ghost predicate NoRefusal(ask: Option<int> -> Answer<Page>, all: Table)
    requires AllKeyed(all)
  {
    forall k {:trigger CursorAt(all, k)} :: 0 <= k <= |all| ==> ask(CursorAt(all, k)).Given?
  }

  /** And the end is reached, if no page is refused. */
  lemma {:induction false} ListingEnds(ask: Option<int> -> Answer<Page>, fields: seq<string>, limit: nat, all: Table,
                                       k: nat)
    returns (pages: seq<Page>)
    requires limit >= 1 && k <= |all| && AllKeyed(all) && Delivers(ask, fields, limit, all) && NoRefusal(ask, all)
    ensures Listing(ask, CursorAt(all, k), pages)
    decreases |all| - k
  {
    var expected := Expected(all, k, fields, limit);
    assert ask(CursorAt(all, k)) == Given(expected);
    NextCursor(all, k, fields, limit);
    if |all| - k > limit {
      var rest := ListingEnds(ask, fields, limit, all, k + limit);
      pages := [expected] + rest;
      assert pages[1..] == rest;
    } else {
      pages := [expected];
    }
  }

  // --- the two backends -----------------------------------------------------------------------------------

  lemma {:induction false} AllRowsMatchNothing(ops: Operators, table: Table)
    requires forall i :: 0 <= i < |table| ==> HasKey(table[i])
    ensures Rows(ops, table, [], None) == table
  {
    if table != [] {
      AllRowsMatchNothing(ops, table[1..]);
    }
  }

  lemma {:induction false} FewerPastACursor(ops: Operators, table: Table, after: Option<int>)
    requires forall i :: 0 <= i < |table| ==> HasKey(table[i])
    ensures |Rows(ops, table, [], after)| <= |Rows(ops, table, [], None)|
  {
    if table != [] {
      FewerPastACursor(ops, table[1..], after);
    }
  }

  /** If page one is not refused for the bound, no later page is; the first is refused for it exactly
      when the whole table is larger. */
  lemma BoundIsDecidedByPageOne(p: Plane, preds: seq<Predicate>, fields: seq<string>, limit: nat, after: Option<int>)
    requires Sorted(p.backend.table) && !p.backend.serverFilter
    ensures Gather(p, preds, fields, limit, None).TooLarge? <==> |p.backend.table| > p.bound
    ensures Gather(p, preds, fields, limit, None).Given? ==> Gather(p, preds, fields, limit, after).Given?
  {
    AllRowsMatchNothing(p.ops, p.backend.table);
    FewerPastACursor(p.ops, p.backend.table, after);
  }

  lemma OnlyTheCapRefuses(p: Plane, preds: seq<Predicate>, fields: seq<string>, limit: nat, all: Table, k: nat)
    requires Sorted(p.backend.table) && Carries(p.backend, fields, preds)
    requires p.backend.serverFilter || |p.backend.table| <= p.bound
    requires all == Rows(p.ops, p.backend.table, preds, None) && k <= |all|
    ensures var expected := Expected(all, k, fields, limit);
            Search(p, preds, fields, limit, CursorAt(all, k)) == if p.size(expected) > p.cap then TooLarge
              else Given(expected)
  {
    PageAtCursor(p.(backend := p.backend.(serverFilter := true)), preds, fields, limit, all, k);
    if !p.backend.serverFilter {
      BoundIsDecidedByPageOne(p, preds, fields, limit, CursorAt(all, k));
      CarriedVerdicts(p.ops, p.backend, fields, preds);
      FallbackAgrees(p, preds, fields, limit, CursorAt(all, k));
    }
  }

  /** Either backend delivers: one that filters, and one that does not while its table is within the
      bound. */
  lemma EitherBackendDelivers(p: Plane, preds: seq<Predicate>, fields: seq<string>, limit: nat, all: Table,
                              ask: Option<int> -> Answer<Page>)
    requires Sorted(p.backend.table) && Carries(p.backend, fields, preds)
    requires p.backend.serverFilter || |p.backend.table| <= p.bound
    requires all == Rows(p.ops, p.backend.table, preds, None)
    requires forall after :: ask(after) == Search(p, preds, fields, limit, after)
    ensures Delivers(ask, fields, limit, all)
  {
    forall k | 0 <= k <= |all|
      ensures ask(CursorAt(all, k)).TooLarge? || ask(CursorAt(all, k)) == Given(Expected(all, k, fields, limit))
    {
      OnlyTheCapRefuses(p, preds, fields, limit, all, k);
    }
  }

  // --- what the rows are ---------------------------------------------------------------------------------

  // The row passes every predicate and lies past the key.
  predicate Passes(ops: Operators, row: Record, preds: seq<Predicate>, after: Option<int>)
    requires HasKey(row)
  {
    && (after.Some? ==> after.value < KeyOf(row))
    && forall i :: 0 <= i < |preds| ==> ops(preds[i].op, FieldValue(row, preds[i].field), preds[i].value)
  }

  /** The rows of a table past a key that match are exactly those that pass every predicate, in the order of their
      keys. */
  lemma {:induction false} RowsAreThosePassing(ops: Operators, table: Table, preds: seq<Predicate>, after: Option<int>,
                                               row: Record)
    requires Sorted(table)
    ensures Sorted(Rows(ops, table, preds, after))
    ensures row in Rows(ops, table, preds, after) <==> row in table && Passes(ops, row, preds, after)
    decreases |table|
  {
    if table != [] {
      var rest := table[1..];
      assert forall i :: 0 <= i < |rest| ==> rest[i] == table[i + 1];
      RowsAreThosePassing(ops, rest, preds, after, row);
      assert Passes(ops, table[0], preds, after) <==> Qualifies(ops, table[0], preds, after);
      HeadComesFirst(ops, table, preds, after);
      assert row in table <==> row == table[0] || row in rest;
    }
  }

  lemma HeadComesFirst(ops: Operators, table: Table, preds: seq<Predicate>, after: Option<int>)
    requires Sorted(table) && table != [] && Sorted(table[1..]) && Sorted(Rows(ops, table[1..], preds, after))
    ensures Sorted(Rows(ops, table, preds, after))
  {
    var rest, rows := table[1..], Rows(ops, table[1..], preds, after);
    forall i | 0 <= i < |rows| ensures KeyOf(table[0]) < KeyOf(rows[i]) {
      RowsAreFromTheTable(ops, rest, preds, after, i);
      var j :| 0 <= j < |rest| && rest[j] == rows[i];
      assert rest[j] == table[j + 1];
    }
  }
}
