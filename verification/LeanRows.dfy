/** Backends that hand over only the fields they are asked for: exactly when the edge's filter, which sees no
    others, still decides as the rows themselves would have it. */
module LeanRows {
  import opened Values
  import opened GuardEval
  import opened ReadPlane
  import opened Paging
  import opened Exporting
  import opened Filters

  // What a lean backend hands over of a row.
  function Lean(row: Record, fields: seq<string>): Record {
    Project(row, fields)
  }

  function LeanBackend(table: Table, serverFilter: bool): Backend {
    Backend(table, (row, fields) => Lean(row, fields), serverFilter)
  }

  // The filter's field is among those handed over, or no text at all and so null in every row.
  predicate Seen(pred: Predicate, fields: seq<string>) {
    !pred.field.Str? || pred.field.s == "id" || pred.field.s in fields
  }

  // The operator decides alike for every value and for none.
  ghost predicate Indifferent(ops: Operators, pred: Predicate) {
    forall v :: ops(pred.op, v, pred.value) == ops(pred.op, Null, pred.value)
  }

  predicate Passes(ops: Operators, row: Record, pred: Predicate) {
    ops(pred.op, FieldValue(row, pred.field), pred.value)
  }

  lemma OnePredicate(ops: Operators, row: Record, pred: Predicate)
    ensures Matches(ops, row, [pred]) == Passes(ops, row, pred)
  {
    assert pred in [pred];
  }

  lemma LeanVerdict(ops: Operators, row: Record, pred: Predicate, fields: seq<string>)
    ensures Seen(pred, fields) ==> Passes(ops, Lean(row, fields), pred) == Passes(ops, row, pred)
    ensures !Seen(pred, fields) ==> Passes(ops, Lean(row, fields), pred) == ops(pred.op, Null, pred.value)
    ensures Indifferent(ops, pred) ==> Passes(ops, Lean(row, fields), pred) == Passes(ops, row, pred)
  {
  }

  /** Where every predicate of a filter looks at a field handed over, or decides alike for every value, the
      edge's verdicts are those of the rows themselves. */
  lemma LeanVerdicts(ops: Operators, table: Table, serverFilter: bool, preds: seq<Predicate>, fields: seq<string>)
    requires forall pred :: pred in preds ==> Seen(pred, fields) || Indifferent(ops, pred)
    ensures SameVerdicts(ops, LeanBackend(table, serverFilter), fields, preds)
  {
    forall row | row in table ensures Matches(ops, Lean(row, fields), preds) == Matches(ops, row, preds) {
      forall pred | pred in preds ensures Passes(ops, Lean(row, fields), pred) == Passes(ops, row, pred) {
        LeanVerdict(ops, row, pred, fields);
      }
    }
  }

  // --- the fallback -------------------------------------------------------------------------------------

  // A plane over such a backend.
  function LeanPlane(table: Table, serverFilter: bool, ops: Operators, bound: nat): Plane {
    Plane(LeanBackend(table, serverFilter), ops, bound, 0, page => 0)
  }

  // On every table within the bound and past every cursor, the fallback gathers what a filtering backend
  // would.
  ghost predicate FallbackIsFaithful(ops: Operators, bound: nat, preds: seq<Predicate>, fields: seq<string>,
                                     limit: nat) {
    forall table, after {:trigger Gather(LeanPlane(table, false, ops, bound), preds, fields, limit, after)} ::
      Sorted(table) && |table| <= bound ==>
        Gather(LeanPlane(table, false, ops, bound), preds, fields, limit, after) ==
        Gather(LeanPlane(table, true, ops, bound), preds, fields, limit, after)
  }

  lemma FewRowsPast(ops: Operators, table: Table, after: Option<int>)
    requires Sorted(table)
    ensures |Rows(ops, table, [], after)| <= |table|
  {
  }

  lemma SeenIsFaithful(ops: Operators, bound: nat, preds: seq<Predicate>, fields: seq<string>, limit: nat)
    requires forall pred :: pred in preds ==> Seen(pred, fields) || Indifferent(ops, pred)
    ensures FallbackIsFaithful(ops, bound, preds, fields, limit)
  {
    forall table, after | Sorted(table) && |table| <= bound
      ensures Gather(LeanPlane(table, false, ops, bound), preds, fields, limit, after) ==
              Gather(LeanPlane(table, true, ops, bound), preds, fields, limit, after)
    {
      LeanVerdicts(ops, table, false, preds, fields);
      FallbackAgrees(LeanPlane(table, false, ops, bound), preds, fields, limit, after);
      FewRowsPast(ops, table, after);
    }
  }

  // One row with this value in the filter's field.
  function RowWith(field: string, v: Json): Record {
    map["id" := Int(0)][field := v]
  }

  lemma OneRow(ops: Operators, bound: nat, field: string, v: Json, pred: Predicate, fields: seq<string>, limit: nat)
    requires field != "id" && pred.field == Str(field) && bound >= 1
    ensures var row := RowWith(field, v);
            && Sorted([row]) && HasKey(row)
            && Rows(ops, [row], [pred], None) == (if ops(pred.op, v, pred.value) then [row] else [])
            && Rows(ops, [row], [], None) == [row]
            && Gather(LeanPlane([row], true, ops, bound), [pred], fields, limit, None) ==
               Given(if ops(pred.op, v, pred.value) then [Lean(row, fields)] else [])
            && Gather(LeanPlane([row], false, ops, bound), [pred], fields, limit, None) ==
               Given(if Passes(ops, Lean(row, fields), pred) then [Lean(row, fields)] else [])
  {
    var row := RowWith(field, v);
    var lean := Lean(row, fields);
    OnePredicate(ops, row, pred);
    OnePredicate(ops, lean, pred);
    assert [row][1..] == [] && [lean][1..] == [];
    assert Rows(ops, [row], [pred], None) == (if ops(pred.op, v, pred.value) then [row] else []);
    assert Rows(ops, [row], [], None) == [row];
    assert Shaped(LeanBackend([row], true).shape, [row], fields) == [lean];
    assert Kept(ops, [lean], [pred]) == (if Passes(ops, lean, pred) then [lean] else []);
  }

  /** A matching row is lost where an absent value does not pass. */
  lemma UnseenRowIsLost(ops: Operators, bound: nat, field: string, v: Json, pred: Predicate, fields: seq<string>,
                        limit: nat)
    requires pred.field == Str(field) && !Seen(pred, fields) && bound >= 1
    requires ops(pred.op, v, pred.value) && !ops(pred.op, Null, pred.value)
    ensures var row := RowWith(field, v);
            && Sorted([row]) && Rows(ops, [row], [pred], None) == [row]
            && Gather(LeanPlane([row], false, ops, bound), [pred], fields, limit, None) == Given([])
  {
    OneRow(ops, bound, field, v, pred, fields, limit);
    LeanVerdict(ops, RowWith(field, v), pred, fields);
  }

  /** And a row that does not match is let through where an absent value passes, as it does `ne` or `eq` null. */
  lemma UnseenRowIsLetThrough(ops: Operators, bound: nat, field: string, v: Json, pred: Predicate, fields: seq<string>,
                              limit: nat)
    requires pred.field == Str(field) && !Seen(pred, fields) && bound >= 1
    requires !ops(pred.op, v, pred.value) && ops(pred.op, Null, pred.value)
    ensures var row := RowWith(field, v);
            && Sorted([row]) && Rows(ops, [row], [pred], None) == []
            && Gather(LeanPlane([row], false, ops, bound), [pred], fields, limit, None) == Given([Lean(row, fields)])
  {
    OneRow(ops, bound, field, v, pred, fields, limit);
    LeanVerdict(ops, RowWith(field, v), pred, fields);
  }

  /** Over lean rows the edge's filter agrees with a filtering backend, on every table within the bound, exactly
      when its field is handed over or its operator decides alike for every value. */
  lemma FallbackIsFaithfulExactly(ops: Operators, bound: nat, pred: Predicate, fields: seq<string>, limit: nat)
    requires bound >= 1
    ensures FallbackIsFaithful(ops, bound, [pred], fields, limit) <==> Seen(pred, fields) || Indifferent(ops, pred)
  {
    if Seen(pred, fields) || Indifferent(ops, pred) {
      SeenIsFaithful(ops, bound, [pred], fields, limit);
    } else {
      var v :| ops(pred.op, v, pred.value) != ops(pred.op, Null, pred.value);
      var row := RowWith(pred.field.s, v);
      OneRow(ops, bound, pred.field.s, v, pred, fields, limit);
      LeanVerdict(ops, row, pred, fields);
      assert Gather(LeanPlane([row], false, ops, bound), [pred], fields, limit, None) !=
             Gather(LeanPlane([row], true, ops, bound), [pred], fields, limit, None);
    }
  }

  /** With the edge's own operators: a filter for rows whose field is not this value lets a row with that very
      value through. */
  lemma NotEqualLetsThrough(texts: Texts, bound: nat, field: string, v: Json, fields: seq<string>, limit: nat)
    requires field != "id" && field !in fields && v != Null && bound >= 1
    ensures var (row, pred) := (RowWith(field, v), Predicate(Str(field), "ne", v));
            && Rows(EdgeOps(texts), [row], [pred], None) == []
            && Gather(LeanPlane([row], false, EdgeOps(texts), bound), [pred], fields, limit, None) ==
               Given([Lean(row, fields)])
  {
    PyEqReflexive(v);
    UnseenRowIsLetThrough(EdgeOps(texts), bound, field, v, Predicate(Str(field), "ne", v), fields, limit);
  }

  lemma {:induction false} PyEqReflexive(v: Json)
    ensures PyEq(v, v)
  {
    match v
    case Arr(items) => forall i | 0 <= i < |items| ensures PyEq(items[i], items[i]) { PyEqReflexive(items[i]); }
    case Obj(fields) => forall k | k in fields ensures PyEq(fields[k], fields[k]) { PyEqReflexive(fields[k]); }
    case _ =>
  }

  // --- the approximate count ------------------------------------------------------------------------------

  function AtMost(n: nat, bound: nat): nat {
    if n <= bound then n else bound
  }

  // On every table (within one row of the bound, unless the backend filters) the approximate count is the
  // number of rows that match, cut off at the bound.
  ghost predicate CountIsExact(ops: Operators, bound: nat, serverFilter: bool, pred: Predicate) {
    forall table {:trigger ApproximateCount(LeanPlane(table, serverFilter, ops, bound), [pred])} ::
      Sorted(table) && (serverFilter || |table| <= bound + 1) ==>
        ApproximateCount(LeanPlane(table, serverFilter, ops, bound), [pred]) ==
        AtMost(|Rows(ops, table, [pred], None)|, bound)
  }

  lemma {:induction false} KeptAlike(ops: Operators, rows: seq<Record>, pred: Predicate, all: bool)
    requires forall i :: 0 <= i < |rows| ==> Passes(ops, rows[i], pred) == all
    ensures Kept(ops, rows, [pred]) == if all then rows else []
  {
    if rows != [] {
      OnePredicate(ops, rows[0], pred);
      KeptAlike(ops, rows[1..], pred, all);
    }
  }

  // Where the field is not handed over, absence decides for all that is pulled, or for none of it.
  lemma UnseenCount(ops: Operators, table: Table, serverFilter: bool, bound: nat, pred: Predicate)
    requires Sorted(table) && !Seen(pred, ["id"])
    ensures var pulled := |Take(Rows(ops, table, if serverFilter then [pred] else [], None), bound + 1)|;
            ApproximateCount(LeanPlane(table, serverFilter, ops, bound), [pred]) ==
            if ops(pred.op, Null, pred.value) then AtMost(pulled, bound) else 0
  {
    var p := LeanPlane(table, serverFilter, ops, bound);
    var rows := Fetch(ops, p.backend, [pred], ["id"], bound + 1, None);
    var from := Take(Rows(ops, table, if serverFilter then [pred] else [], None), bound + 1);
    forall i | 0 <= i < |rows| ensures Passes(ops, rows[i], pred) == ops(pred.op, Null, pred.value) {
      assert rows[i] == Lean(from[i], ["id"]);
      LeanVerdict(ops, from[i], pred, ["id"]);
    }
    KeptAlike(ops, rows, pred, ops(pred.op, Null, pred.value));
  }

  /** Over a backend that does not filter, a filter that absence passes counts every row of the table up to the
      bound, and one that it does not pass counts none, however many rows match. */
  lemma UnseenCountIsAllOrNothing(ops: Operators, table: Table, bound: nat, pred: Predicate)
    requires Sorted(table) && !Seen(pred, ["id"])
    ensures ApproximateCount(LeanPlane(table, false, ops, bound), [pred]) ==
            if ops(pred.op, Null, pred.value) then AtMost(|table|, bound) else 0
  {
    UnseenCount(ops, table, false, bound, pred);
    AllRowsMatchNothing(ops, table);
  }

  lemma SeenCount(ops: Operators, bound: nat, serverFilter: bool, pred: Predicate)
    requires Seen(pred, ["id"]) || Indifferent(ops, pred)
    ensures CountIsExact(ops, bound, serverFilter, pred)
  {
    forall table | Sorted(table) && (serverFilter || |table| <= bound + 1)
      ensures ApproximateCount(LeanPlane(table, serverFilter, ops, bound), [pred]) ==
              AtMost(|Rows(ops, table, [pred], None)|, bound)
    {
      LeanVerdicts(ops, table, serverFilter, [pred], ["id"]);
      if serverFilter {
        CountIsExactUpToTheBound(LeanPlane(table, true, ops, bound), [pred]);
      } else {
        UnfilteredCount(LeanPlane(table, false, ops, bound), [pred]);
      }
    }
  }

  lemma {:induction false} NoneMatch(ops: Operators, table: Table, pred: Predicate)
    requires AllKeyed(table) && forall v :: !ops(pred.op, v, pred.value)
    ensures Rows(ops, table, [pred], None) == []
  {
    if table != [] {
      OnePredicate(ops, table[0], pred);
      NoneMatch(ops, table[1..], pred);
    }
  }

  lemma OneRowCount(ops: Operators, bound: nat, serverFilter: bool, v: Json, pred: Predicate)
    requires !Seen(pred, ["id"]) && bound >= 1
    ensures var table := [RowWith(pred.field.s, v)];
            && Sorted(table)
            && AtMost(|Rows(ops, table, [pred], None)|, bound) == (if ops(pred.op, v, pred.value) then 1 else 0)
            && ApproximateCount(LeanPlane(table, serverFilter, ops, bound), [pred]) ==
               if ops(pred.op, Null, pred.value) && (!serverFilter || ops(pred.op, v, pred.value)) then 1 else 0
  {
    OneRow(ops, bound, pred.field.s, v, pred, ["id"], 0);
    UnseenCount(ops, [RowWith(pred.field.s, v)], serverFilter, bound, pred);
  }

  /** Over a lean backend that filters, the approximate count is exact, cut off at the bound, exactly when the
      filter looks at the id, or absence passes it, or nothing does. */
  lemma FilteredCountIsExactly(ops: Operators, bound: nat, pred: Predicate)
    requires bound >= 1
    ensures CountIsExact(ops, bound, true, pred) <==>
            Seen(pred, ["id"]) || ops(pred.op, Null, pred.value) || forall v :: !ops(pred.op, v, pred.value)
  {
    if Seen(pred, ["id"]) {
      SeenCount(ops, bound, true, pred);
    } else if ops(pred.op, Null, pred.value) || forall v :: !ops(pred.op, v, pred.value) {
      forall table | Sorted(table)
        ensures ApproximateCount(LeanPlane(table, true, ops, bound), [pred]) ==
                AtMost(|Rows(ops, table, [pred], None)|, bound)
      {
        UnseenCount(ops, table, true, bound, pred);
        if !ops(pred.op, Null, pred.value) {
          NoneMatch(ops, table, pred);
        }
      }
    } else {
      var v :| ops(pred.op, v, pred.value);
      OneRowCount(ops, bound, true, v, pred);
    }
  }

  /** And over one that does not filter, exactly when the filter looks at the id or decides alike for every
      value. */
  lemma UnfilteredCountIsExactly(ops: Operators, bound: nat, pred: Predicate)
    requires bound >= 1
    ensures CountIsExact(ops, bound, false, pred) <==> Seen(pred, ["id"]) || Indifferent(ops, pred)
  {
    if Seen(pred, ["id"]) || Indifferent(ops, pred) {
      SeenCount(ops, bound, false, pred);
    } else {
      var v :| ops(pred.op, v, pred.value) != ops(pred.op, Null, pred.value);
      OneRowCount(ops, bound, false, v, pred);
    }
  }
}
