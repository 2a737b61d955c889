/** What the ten filter operators mean to the edge when it filters for a backend that cannot. */
module Filters {
  import opened Values
  import opened GuardEval
  import opened GuardTruths
  import opened ReadPlane

  // How a value is written as text, and text in lower case; nothing is assumed of either.
  datatype Texts = Texts(str: Json -> string, lower: string -> string)

  function Shown(texts: Texts, v: Json): string {
    if v == Null then "" else texts.str(v)
  }

  // `a <= b` and its kin; an absent value is on no side of anything. None is Python's TypeError.
  function Compared(v: Json, operand: Json, holds: int -> bool): Option<bool> {
    if v == Null then Some(false)
    else
      match Order(v, operand)
      case None => None
      case Some(c) => Some(holds(c))
  }

  // `lo <= v <= hi`, where hi is not looked at when lo is too high.
  function Between(v: Json, lo: Json, hi: Json): Option<bool> {
    if v == Null then Some(false)
    else
      match Order(lo, v)
      case None => None
      case Some(c) => if c > 0 then Some(false) else Compared(v, hi, d => d <= 0)
  }

  // The edge's own meaning of the operators. An operator outside the set passes everything.
  function Holds(texts: Texts, op: string, v: Json, operand: Json): Option<bool> {
    if op == "eq" then Some(PyEq(v, operand))
    else if op == "ne" then Some(!PyEq(v, operand))
    else if op == "ilike" then Some(Substring(texts.lower(texts.str(operand)), texts.lower(Shown(texts, v))))
    else if op == "contains" then Some(Substring(texts.str(operand), Shown(texts, v)))
    else if op == "in" then Membership(v, operand)
    else if op == "gt" then Compared(v, operand, c => c > 0)
    else if op == "gte" then Compared(v, operand, c => c >= 0)
    else if op == "lt" then Compared(v, operand, c => c < 0)
    else if op == "lte" then Compared(v, operand, c => c <= 0)
    else if op == "between" then
      if operand.Arr? && |operand.items| == 2 then Between(v, operand.items[0], operand.items[1]) else None
    else Some(true)
  }

  function Verdict(texts: Texts, row: Record, p: Predicate): Option<bool> {
    Holds(texts, p.op, FieldValue(row, p.field), p.value)
  }

  predicate AllTrue(texts: Texts, row: Record, preds: seq<Predicate>) {
    forall p :: p in preds ==> Verdict(texts, row, p) == Some(true)
  }

  // The operators as the edge's filter applies them.
  function EdgeOps(texts: Texts): Operators {
    (op, v, operand) => Holds(texts, op, v, operand) == Some(true)
  }

  /** True exactly when every predicate holds of the row; otherwise the first that does not decides between
      false and the error its comparison raises. */
  method MatchesRow(texts: Texts, row: Record, preds: seq<Predicate>) returns (r: Option<bool>)
    ensures r.Some? ==> r.value == Matches(EdgeOps(texts), row, preds)
    ensures r != Some(true) ==>
              exists i :: 0 <= i < |preds| && Verdict(texts, row, preds[i]) == r && AllTrue(texts, row, preds[..i])
  {
    for k := 0 to |preds|
      invariant AllTrue(texts, row, preds[..k])
    {
      var verdict := Verdict(texts, row, preds[k]);
      if verdict != Some(true) {
        assert preds[k] in preds;
        return verdict;
      }
    }
    assert preds[..|preds|] == preds;
    r := Some(true);
  }

  // --- what the operators mean together -----------------------------------------------------------------

  lemma {:induction false} PyEqSymmetric(a: Json, b: Json)
    ensures PyEq(a, b) == PyEq(b, a)
    decreases a
  {
    match (a, b)
    case (Arr(x), Arr(y)) =>
      if |x| == |y| {
        forall i | 0 <= i < |x| ensures PyEq(x[i], y[i]) == PyEq(y[i], x[i]) {
          PyEqSymmetric(x[i], y[i]);
        }
      }
    case (Obj(x), Obj(y)) =>
      if x.Keys == y.Keys {
        forall k | k in x ensures PyEq(x[k], y[k]) == PyEq(y[k], x[k]) {
          PyEqSymmetric(x[k], y[k]);
        }
      }
    case _ =>
  }

  lemma {:induction false} TextOrderFlips(a: string, b: string)
    ensures CompareText(a, b) == -CompareText(b, a)
    ensures CompareText(a, b) == 0 <==> a == b
  {
    if a != "" && b != "" && a[0] == b[0] {
      TextOrderFlips(a[1..], b[1..]);
      assert a == [a[0]] + a[1..] && b == [b[0]] + b[1..];
    }
  }

  function Negated(c: Option<int>): Option<int> {
    if c.Some? then Some(-c.value) else None
  }

  lemma {:induction false} OrderFlips(a: Json, b: Json)
    ensures Order(b, a) == Negated(Order(a, b))
    decreases a, 1
  {
    match (a, b)
    case (Str(x), Str(y)) => TextOrderFlips(x, y);
    case (Arr(x), Arr(y)) => ItemsOrderFlips(x, y);
    case _ =>
  }

  lemma {:induction false} ItemsOrderFlips(a: seq<Json>, b: seq<Json>)
    ensures OrderItems(b, a) == Negated(OrderItems(a, b))
    decreases a, 0
  {
    if a != [] && b != [] {
      PyEqSymmetric(a[0], b[0]);
      if PyEq(a[0], b[0]) {
        ItemsOrderFlips(a[1..], b[1..]);
      } else {
        OrderFlips(a[0], b[0]);
      }
    }
  }

  lemma {:induction false} OrderTiesAreEqual(a: Json, b: Json)
    requires Order(a, b).Some?
    ensures Order(a, b) == Some(0) <==> PyEq(a, b)
    decreases a, 1
  {
    match (a, b)
    case (Str(x), Str(y)) => TextOrderFlips(x, y);
    case (Arr(x), Arr(y)) => ItemsTiesAreEqual(x, y);
    case _ =>
  }

  lemma HeadsAside(a: seq<Json>, b: seq<Json>)
    requires a != [] && b != [] && PyEq(a[0], b[0])
    ensures PyEq(Arr(a), Arr(b)) <==> PyEq(Arr(a[1..]), Arr(b[1..]))
  {
    if |a| == |b| {
      assert forall i :: 0 <= i < |a| - 1 ==> a[1..][i] == a[i + 1] && b[1..][i] == b[i + 1];
      if PyEq(Arr(a[1..]), Arr(b[1..])) {
        forall i | 0 <= i < |a| ensures PyEq(a[i], b[i]) {
          assert i > 0 ==> a[i] == a[1..][i - 1] && b[i] == b[1..][i - 1];
        }
      }
    }
  }

  lemma {:induction false} ItemsTiesAreEqual(a: seq<Json>, b: seq<Json>)
    requires OrderItems(a, b).Some?
    ensures OrderItems(a, b) == Some(0) <==> PyEq(Arr(a), Arr(b))
    decreases a, 0
  {
    if a != [] && b != [] {
      if PyEq(a[0], b[0]) {
        ItemsTiesAreEqual(a[1..], b[1..]);
        HeadsAside(a, b);
      } else {
        OrderTiesAreEqual(a[0], b[0]);
      }
    }
  }

  // The operator says yes.
  predicate Passes(texts: Texts, op: string, v: Json, operand: Json) {
    Holds(texts, op, v, operand) == Some(true)
  }

  /** Of two values that can be compared exactly one of less, equal and greater holds; the weak comparisons
      are the strict ones or equality, and turning a comparison round turns its operator round. */
  lemma ComparisonsAgree(texts: Texts, v: Json, x: Json)
    requires v != Null && Order(v, x).Some?
    ensures Passes(texts, "lt", v, x) <==> !Passes(texts, "gte", v, x)
    ensures Passes(texts, "gt", v, x) <==> !Passes(texts, "lte", v, x)
    ensures Passes(texts, "eq", v, x) <==> Passes(texts, "gte", v, x) && Passes(texts, "lte", v, x)
    ensures Passes(texts, "ne", v, x) <==> !Passes(texts, "eq", v, x)
    ensures Passes(texts, "lt", v, x) == Passes(texts, "gt", x, v)
    ensures Passes(texts, "lte", v, x) == Passes(texts, "gte", x, v)
  {
    OrderTiesAreEqual(v, x);
    OrderFlips(v, x);
  }

  /** `between` is both weak comparisons, and `in` is equality with one of the list, wherever these do not raise. */
  lemma RangesAndLists(texts: Texts, v: Json, lo: Json, hi: Json, items: seq<Json>)
    requires v == Null || (Order(v, lo).Some? && Order(v, hi).Some?)
    ensures Passes(texts, "between", v, Arr([lo, hi])) <==> Passes(texts, "gte", v, lo) && Passes(texts, "lte", v, hi)
    ensures Passes(texts, "in", v, Arr(items)) <==> exists i :: 0 <= i < |items| && Passes(texts, "eq", v, items[i])
  {
    OrderFlips(v, lo);
  }

  /** A row without the field, or with null in it, passes no comparison; it equals null and nothing else. */
  lemma AbsentFields(texts: Texts, row: Record, field: string, operand: Json)
    requires field !in row || row[field] == Null
    ensures forall op :: op in {"gt", "gte", "lt", "lte"} ==>
            Verdict(texts, row, Predicate(Str(field), op, operand)) == Some(false)
    ensures Verdict(texts, row, Predicate(Str(field), "eq", operand)) == Some(operand == Null)
  {
  }

  // --- what they mean of numbers and texts ---------------------------------------------------------------

  lemma ComparedBy(texts: Texts, v: Json, w: Json, c: int)
    requires v != Null && Order(v, w) == Some(c)
    ensures Holds(texts, "lt", v, w) == Some(c < 0) && Holds(texts, "lte", v, w) == Some(c <= 0)
    ensures Holds(texts, "gt", v, w) == Some(c > 0) && Holds(texts, "gte", v, w) == Some(c >= 0)
  {
  }

  /** Of numbers the operators say how the numbers compare. */
  lemma NumbersAreFiltered(texts: Texts, v: Json, w: Json, x: real, y: real)
    requires IsNumber(v, x) && IsNumber(w, y)
    ensures Holds(texts, "lt", v, w) == Some(x < y) && Holds(texts, "lte", v, w) == Some(x <= y)
    ensures Holds(texts, "gt", v, w) == Some(x > y) && Holds(texts, "gte", v, w) == Some(x >= y)
    ensures Holds(texts, "eq", v, w) == Some(x == y) && Holds(texts, "ne", v, w) == Some(x != y)
  {
    OrderOfNumbers(v, w, x, y);
    ComparedBy(texts, v, w, if x < y then -1 else if x == y then 0 else 1);
  }

  /** Of texts the comparing ones go by the first difference. */
  lemma TextsAreFiltered(texts: Texts, a: string, b: string)
    ensures Holds(texts, "lt", Str(a), Str(b)) == Some(Precedes(a, b))
    ensures Holds(texts, "lte", Str(a), Str(b)) == Some(!Precedes(b, a))
    ensures Holds(texts, "gt", Str(a), Str(b)) == Some(Precedes(b, a))
    ensures Holds(texts, "gte", Str(a), Str(b)) == Some(!Precedes(a, b))
    ensures Holds(texts, "eq", Str(a), Str(b)) == Some(a == b) && Holds(texts, "ne", Str(a), Str(b)) == Some(a != b)
  {
    TextOrder(a, b);
    ComparedBy(texts, Str(a), Str(b), CompareText(a, b));
  }

  // The text of a field, none for null.
  predicate ShownAs(texts: Texts, v: Json, shown: string) {
    if v == Null then shown == "" else shown == texts.str(v)
  }

  /** `contains` and `ilike` look for the operand's text somewhere in the field's, the second in lower case; `in` a
      text does the same. An operator outside the set lets everything through. */
  lemma TextIsSearched(texts: Texts, v: Json, w: Json, shown: string, op: string, a: string, b: string)
    requires ShownAs(texts, v, shown) && op !in FILTER_OPS
    ensures var part := texts.str(w);
            Holds(texts, "contains", v, w) == Some(exists i :: 0 <= i <= |shown| && OccursAt(part, shown, i))
    ensures var part, whole := texts.lower(texts.str(w)), texts.lower(shown);
            Holds(texts, "ilike", v, w) == Some(exists i :: 0 <= i <= |whole| && OccursAt(part, whole, i))
    ensures Holds(texts, "in", Str(a), Str(b)) == Some(exists i :: 0 <= i <= |b| && OccursAt(a, b, i))
    ensures Holds(texts, op, v, w) == Some(true)
  {
    SubstringOccurs(texts.str(w), shown);
    SubstringOccurs(texts.lower(texts.str(w)), texts.lower(shown));
    SubstringOccurs(a, b);
  }
}
