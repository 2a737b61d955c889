/** What guards say, in terms of numbers, texts, lists and truth values: comparisons, `in`, `size`, the connectives
    and the literals. */
module GuardTruths {
  import opened Values
  import opened References
  import opened Guards
  import opened GuardEval

  // The comparison of two operands.
  function Verdict(p: Primary, op: string, q: Primary, env: Env): Option<Json> {
    DenoteNot(Plain(Compare(p, op, q)), env)
  }

  predicate Gives(p: Primary, v: Json, env: Env) { DenotePrimary(p, env) == Some(v) }

  predicate Says(p: Primary, op: string, q: Primary, env: Env, b: bool) { Verdict(p, op, q, env) == Some(Bool(b)) }

  lemma VerdictOf(p: Primary, op: string, q: Primary, env: Env, v: Json, w: Json)
    requires Gives(p, v, env) && Gives(q, w, env)
    ensures Verdict(p, op, q, env) == Apply(op, v, w)
  {
  }

  // How the four ordering operators and the two equalities stand to each other.
  predicate Orders(p: Primary, q: Primary, env: Env, less: bool, equal: bool) {
    && Says(p, "<", q, env, less) && Says(p, "<=", q, env, less || equal)
    && Says(p, ">", q, env, !less && !equal) && Says(p, ">=", q, env, !less)
  }

  predicate Equates(p: Primary, q: Primary, env: Env, equal: bool) {
    Says(p, "==", q, env, equal) && Says(p, "!=", q, env, !equal)
  }

  lemma OrderDecides(p: Primary, q: Primary, env: Env, v: Json, w: Json, c: int)
    requires Gives(p, v, env) && Gives(q, w, env) && Order(v, w) == Some(c)
    ensures Orders(p, q, env, c < 0, c == 0)
  {
    VerdictOf(p, "<", q, env, v, w);
    VerdictOf(p, "<=", q, env, v, w);
    VerdictOf(p, ">", q, env, v, w);
    VerdictOf(p, ">=", q, env, v, w);
  }

  lemma EqualityDecides(p: Primary, q: Primary, env: Env, v: Json, w: Json)
    requires Gives(p, v, env) && Gives(q, w, env)
    ensures Equates(p, q, env, PyEq(v, w))
  {
    VerdictOf(p, "==", q, env, v, w);
    VerdictOf(p, "!=", q, env, v, w);
  }

  // --- numbers ----------------------------------------------------------------------------------------

  // The value is the number x; a boolean counts as 1 or 0.
  predicate IsNumber(v: Json, x: real) {
    v == Dec(x) || (v.Int? && x == v.n as real) || (v == Bool(true) && x == 1.0) || (v == Bool(false) && x == 0.0)
  }

  lemma OrderOfNumbers(v: Json, w: Json, x: real, y: real)
    requires IsNumber(v, x) && IsNumber(w, y)
    ensures Order(v, w) == Some(if x < y then -1 else if x == y then 0 else 1) && PyEq(v, w) == (x == y)
  {
    assert NumVal(v) == x && NumVal(w) == y;
  }

  /** Numbers compare as numbers do, decimals with integers and booleans included. */
  lemma NumbersCompare(p: Primary, q: Primary, env: Env, v: Json, w: Json, x: real, y: real)
    requires Gives(p, v, env) && Gives(q, w, env) && IsNumber(v, x) && IsNumber(w, y)
    ensures Says(p, "<", q, env, x < y) && Says(p, "<=", q, env, x <= y)
    ensures Says(p, ">", q, env, x > y) && Says(p, ">=", q, env, x >= y)
    ensures Says(p, "==", q, env, x == y) && Says(p, "!=", q, env, x != y)
  {
    OrderOfNumbers(v, w, x, y);
    OrderDecides(p, q, env, v, w, if x < y then -1 else if x == y then 0 else 1);
    EqualityDecides(p, q, env, v, w);
  }

  /** The guard of two integer literals and an operator says how the integers compare. */
  lemma LiteralsCompare(a: int, b: int, env: Env)
    ensures LiteralGuard(a, "<", b, env) == Some(a < b) && LiteralGuard(a, "<=", b, env) == Some(a <= b)
    ensures LiteralGuard(a, ">", b, env) == Some(a > b) && LiteralGuard(a, ">=", b, env) == Some(a >= b)
    ensures LiteralGuard(a, "==", b, env) == Some(a == b) && LiteralGuard(a, "!=", b, env) == Some(a != b)
  {
    var p, q := NumP(Int(a)), NumP(Int(b));
    var x, y := a as real, b as real;
    assert IsNumber(Int(a), x) && IsNumber(Int(b), y);
    NumbersCompare(p, q, env, Int(a), Int(b), x, y);
    LiteralGuardIs(a, "<", b, env, a < b);
    LiteralGuardIs(a, "<=", b, env, a <= b);
    LiteralGuardIs(a, ">", b, env, a > b);
    LiteralGuardIs(a, ">=", b, env, a >= b);
    LiteralGuardIs(a, "==", b, env, a == b);
    LiteralGuardIs(a, "!=", b, env, a != b);
  }

  // The value of the tokens of two integers with an operator between them.
  function LiteralGuard(a: int, op: string, b: int, env: Env): Option<bool> {
    GuardValue([Number(Int(a)), Op(op), Number(Int(b))], env)
  }

  lemma LiteralGuardIs(a: int, op: string, b: int, env: Env, holds: bool)
    requires IsComparator(op) && op != "in" && Says(NumP(Int(a)), op, NumP(Int(b)), env, holds)
    ensures LiteralGuard(a, op, b, env) == Some(holds)
  {
    var p, q := NumP(Int(a)), NumP(Int(b));
    var c := Compare(p, op, q);
    var g := OrLast(AndLast(Plain(c)));
    assert PrintPrimary(p) == [Number(Int(a))] && PrintPrimary(q) == [Number(Int(b))];
    assert PrintComp(c) == [Number(Int(a)), Op(op), Number(Int(b))];
    assert PrintNot(Plain(c)) == PrintComp(c) && PrintAnd(AndLast(Plain(c))) == PrintComp(c);
    assert WfPrimary(p) && WfPrimary(q) && WfComp(c) && WfNot(Plain(c)) && WfAnd(AndLast(Plain(c)));
    assert DenoteAnd(AndLast(Plain(c)), env) == Some(Bool(holds));
    GuardMeansItsDenotation(g, env);
  }

  // --- texts ------------------------------------------------------------------------------------------

  // a comes before b at their first difference, or b goes on where a ends.
  predicate DiffersAt(a: string, b: string, k: nat) {
    k <= |a| && k < |b| && a[..k] == b[..k] && (k < |a| ==> a[k] < b[k])
  }

  predicate Precedes(a: string, b: string) { exists k :: 0 <= k < |b| && DiffersAt(a, b, k) }

  lemma {:induction false} TextOrder(a: string, b: string)
    ensures CompareText(a, b) < 0 <==> Precedes(a, b)
    ensures CompareText(a, b) > 0 <==> Precedes(b, a)
    ensures CompareText(a, b) == 0 <==> a == b
  {
    if a == "" && b == "" {
    } else if a == "" {
      assert DiffersAt(a, b, 0);
    } else if b == "" {
      assert DiffersAt(b, a, 0);
    } else if a[0] != b[0] {
      HeadsDecide(a, b);
      HeadsDecide(b, a);
    } else {
      TextOrder(a[1..], b[1..]);
      TailsDecide(a, b);
      TailsDecide(b, a);
      assert a == [a[0]] + a[1..] && b == [b[0]] + b[1..];
    }
  }

  lemma HeadsDecide(a: string, b: string)
    requires a != "" && b != "" && a[0] != b[0]
    ensures Precedes(a, b) <==> a[0] < b[0]
  {
    if a[0] < b[0] {
      assert DiffersAt(a, b, 0);
    }
    forall k | 0 < k < |a| && k < |b| ensures a[..k] != b[..k] {
      assert a[..k][0] == a[0] && b[..k][0] == b[0];
    }
    assert a[..|a|][0] == a[0] && (|a| < |b| ==> b[..|a|][0] == b[0]);
  }

  lemma TailsDecide(a: string, b: string)
    requires a != "" && b != "" && a[0] == b[0]
    ensures Precedes(a, b) <==> Precedes(a[1..], b[1..])
  {
    if k :| 0 <= k < |b| && DiffersAt(a, b, k) {
      assert k > 0;
      assert a[1..][..k - 1] == a[..k][1..] && b[1..][..k - 1] == b[..k][1..];
      assert DiffersAt(a[1..], b[1..], k - 1);
    }
    if k :| 0 <= k < |b[1..]| && DiffersAt(a[1..], b[1..], k) {
      assert a[..k + 1] == [a[0]] + a[1..][..k] && b[..k + 1] == [b[0]] + b[1..][..k];
      assert DiffersAt(a, b, k + 1);
    }
  }

  /** Texts compare by their first difference. */
  lemma TextsCompare(p: Primary, q: Primary, env: Env, a: string, b: string)
    requires Gives(p, Str(a), env) && Gives(q, Str(b), env)
    ensures Says(p, "<", q, env, Precedes(a, b)) && Says(p, "<=", q, env, !Precedes(b, a))
    ensures Says(p, ">", q, env, Precedes(b, a)) && Says(p, ">=", q, env, !Precedes(a, b))
    ensures Says(p, "==", q, env, a == b) && Says(p, "!=", q, env, a != b)
  {
    TextOrder(a, b);
    OrderDecides(p, q, env, Str(a), Str(b), CompareText(a, b));
    EqualityDecides(p, q, env, Str(a), Str(b));
  }

  // --- lists and everything else ---------------------------------------------------------------------------

  // The first k elements are equal in pairs.
  predicate AgreeUpTo(x: seq<Json>, y: seq<Json>, k: nat) {
    k <= |x| && k <= |y| && forall i :: 0 <= i < k ==> PyEq(x[i], y[i])
  }

  lemma {:induction false} ItemsOrderAt(x: seq<Json>, y: seq<Json>, k: nat)
    requires AgreeUpTo(x, y, k)
    ensures OrderItems(x, y) == OrderItems(x[k..], y[k..])
  {
    if k == 0 {
      assert x[0..] == x && y[0..] == y;
    } else {
      assert x[1..][k - 1..] == x[k..] && y[1..][k - 1..] == y[k..];
      ItemsOrderAt(x[1..], y[1..], k - 1);
    }
  }

  /** Lists compare by the first elements that are not equal, as those do. */
  lemma ListsCompare(p: Primary, q: Primary, op: string, p': Primary, q': Primary, env: Env,
                     x: seq<Json>, y: seq<Json>, k: nat)
    requires Gives(p, Arr(x), env) && Gives(q, Arr(y), env)
    requires AgreeUpTo(x, y, k) && k < |x| && k < |y| && !PyEq(x[k], y[k])
    requires Gives(p', x[k], env) && Gives(q', y[k], env) && op in {"<", "<=", ">", ">="}
    ensures Verdict(p, op, q, env) == Verdict(p', op, q', env)
  {
    ItemsOrderAt(x, y, k);
    VerdictOf(p, op, q, env, Arr(x), Arr(y));
    VerdictOf(p', op, q', env, x[k], y[k]);
  }

  /** And where one is a beginning of the other, the shorter comes first. */
  lemma BeginningsCompare(p: Primary, q: Primary, env: Env, x: seq<Json>, y: seq<Json>)
    requires Gives(p, Arr(x), env) && Gives(q, Arr(y), env)
    requires AgreeUpTo(x, y, if |x| < |y| then |x| else |y|)
    ensures Says(p, "<", q, env, |x| < |y|) && Says(p, "<=", q, env, |x| <= |y|)
    ensures Says(p, ">", q, env, |x| > |y|) && Says(p, ">=", q, env, |x| >= |y|)
  {
    var k := if |x| < |y| then |x| else |y|;
    ItemsOrderAt(x, y, k);
    var c := if |x| < |y| then -1 else if |x| == |y| then 0 else 1;
    OrderDecides(p, q, env, Arr(x), Arr(y), c);
  }

  // Numbers, texts and lists are ordered, each among themselves.
  predicate Ordered(v: Json, w: Json) {
    (Numeric(v) && Numeric(w)) || (v.Str? && w.Str?) || (v.Arr? && w.Arr?)
  }

  /** Values of different kinds are not ordered, and nulls and objects not even among themselves. */
  lemma NothingElseIsOrdered(p: Primary, op: string, q: Primary, env: Env, v: Json, w: Json)
    requires Gives(p, v, env) && Gives(q, w, env) && !Ordered(v, w) && op in {"<", "<=", ">", ">="}
    ensures Verdict(p, op, q, env) == None
  {
    VerdictOf(p, op, q, env, v, w);
  }

  // The value with every number in it as a decimal.
  function Normal(v: Json): Json {
    match v
    case Bool(b) => Dec(if b then 1.0 else 0.0)
    case Int(n) => Dec(n as real)
    case Arr(items) => Arr(seq(|items|, i requires 0 <= i < |items| => Normal(items[i])))
    case Obj(fields) => Obj(map k | k in fields :: Normal(fields[k]))
    case _ => v
  }

  lemma {:induction false} EqualWhenNormalsAre(v: Json, w: Json)
    ensures PyEq(v, w) <==> Normal(v) == Normal(w)
    decreases v, 1
  {
    match (v, w)
    case (Arr(_), Arr(_)) => ItemsEqual(v, w);
    case (Obj(_), Obj(_)) => FieldsEqual(v, w);
    case _ =>
  }

  lemma {:induction false} ItemsEqual(v: Json, w: Json)
    requires v.Arr? && w.Arr?
    ensures PyEq(v, w) <==> Normal(v) == Normal(w)
    decreases v, 0
  {
    var x, y, x', y' := v.items, w.items, Normal(v).items, Normal(w).items;
    if |x| == |y| {
      forall i | 0 <= i < |x| ensures PyEq(x[i], y[i]) <==> x'[i] == y'[i] {
        EqualWhenNormalsAre(x[i], y[i]);
      }
      if PyEq(v, w) {
        assert x' == y';
      }
    }
  }

  lemma {:induction false} FieldsEqual(v: Json, w: Json)
    requires v.Obj? && w.Obj?
    ensures PyEq(v, w) <==> Normal(v) == Normal(w)
    decreases v, 0
  {
    var x, y, x', y' := v.fields, w.fields, Normal(v).fields, Normal(w).fields;
    assert x'.Keys == x.Keys && y'.Keys == y.Keys;
    if x.Keys == y.Keys {
      forall k | k in x ensures PyEq(x[k], y[k]) <==> x'[k] == y'[k] {
        EqualWhenNormalsAre(x[k], y[k]);
      }
      if PyEq(v, w) {
        assert x' == y';
      }
    }
  }

  /** Two values are equal exactly when they are the same value with every number read as a decimal. */
  lemma EqualityIsIdentity(p: Primary, q: Primary, env: Env, v: Json, w: Json)
    requires Gives(p, v, env) && Gives(q, w, env)
    ensures Says(p, "==", q, env, Normal(v) == Normal(w)) && Says(p, "!=", q, env, Normal(v) != Normal(w))
  {
    EqualWhenNormalsAre(v, w);
    EqualityDecides(p, q, env, v, w);
  }

  // --- `in` and `size` --------------------------------------------------------------------------------------

  predicate OccursAt(a: string, b: string, i: nat) { i + |a| <= |b| && b[i..i + |a|] == a }

  lemma {:induction false} SubstringOccurs(a: string, b: string)
    ensures Substring(a, b) <==> exists i :: 0 <= i <= |b| && OccursAt(a, b, i)
  {
    if a <= b {
      assert OccursAt(a, b, 0);
    }
    if b != "" {
      SubstringOccurs(a, b[1..]);
      if i :| 0 <= i <= |b[1..]| && OccursAt(a, b[1..], i) {
        assert b[1..][i..i + |a|] == b[i + 1..i + 1 + |a|];
        assert OccursAt(a, b, i + 1);
      }
      if i :| 0 < i <= |b| && OccursAt(a, b, i) {
        assert b[1..][i - 1..i - 1 + |a|] == b[i..i + |a|];
        assert OccursAt(a, b[1..], i - 1);
      }
    }
  }

  /** A text is in a text in which it occurs, a value in a list that has an equal one, a text in an object that has
      it as a key; and nothing is in anything but texts, lists and objects. */
  lemma Inclusion(p: Primary, q: Primary, env: Env, v: Json, w: Json)
    requires Gives(p, v, env) && Gives(q, w, env)
    ensures v.Str? && w.Str? ==> Says(p, "in", q, env, exists i :: 0 <= i <= |w.s| && OccursAt(v.s, w.s, i))
    ensures w.Arr? ==> Says(p, "in", q, env, exists i :: 0 <= i < |w.items| && Normal(v) == Normal(w.items[i]))
    ensures v.Str? && w.Obj? ==> Says(p, "in", q, env, v.s in w.fields)
    ensures w.Obj? && !v.Str? && !v.Arr? && !v.Obj? ==> Says(p, "in", q, env, false)
    ensures (w.Str? && !v.Str?) || (w.Obj? && (v.Arr? || v.Obj?)) || (!w.Str? && !w.Arr? && !w.Obj?) ==>
              Verdict(p, "in", q, env) == None
  {
    VerdictOf(p, "in", q, env, v, w);
    if v.Str? && w.Str? {
      SubstringOccurs(v.s, w.s);
    }
    if w.Arr? {
      forall i | 0 <= i < |w.items| ensures PyEq(v, w.items[i]) <==> Normal(v) == Normal(w.items[i]) {
        EqualWhenNormalsAre(v, w.items[i]);
      }
    }
  }

  /** `size` is the length of a text or a list and the number of an object's fields, and of nothing else. */
  lemma Sizes(g: Or, env: Env, v: Json)
    requires DenoteOr(g, env) == Some(v)
    ensures v.Str? ==> Gives(Size(g), Int(|v.s|), env)
    ensures v.Arr? ==> Gives(Size(g), Int(|v.items|), env)
    ensures v.Obj? ==> Gives(Size(g), Int(|v.fields.Keys|), env)
    ensures !v.Str? && !v.Arr? && !v.Obj? ==> DenotePrimary(Size(g), env) == None
  {
    if v.Obj? {
      assert |v.fields| == |v.fields.Keys|;
    }
  }

  // --- connectives and literals -----------------------------------------------------------------------------

  /** Exactly these values count as false. */
  lemma FalseValues(v: Json)
    ensures !Truthy(v) <==>
            v in {Null, Bool(false), Int(0), Dec(0.0), Str(""), Arr([]), Obj(map[])}
  {
  }

  function Disjuncts(g: Or): seq<And> {
    match g
    case OrLast(c) => [c]
    case OrMore(init, right) => Disjuncts(init) + [right]
  }

  function Conjuncts(g: And): seq<Not> {
    match g
    case AndLast(t) => [t]
    case AndMore(init, right) => Conjuncts(init) + [right]
  }

  predicate Boolean(v: Option<Json>) { v.Some? && v.value.Bool? }

  predicate SomeIsTrue(ds: seq<And>, env: Env) {
    exists i :: 0 <= i < |ds| && DenoteAnd(ds[i], env) == Some(Bool(true))
  }

  lemma OneMoreIsTrue(ds: seq<And>, d: And, env: Env)
    ensures SomeIsTrue(ds + [d], env) <==> SomeIsTrue(ds, env) || DenoteAnd(d, env) == Some(Bool(true))
  {
    var all := ds + [d];
    assert all[|ds|] == d;
    if i :| 0 <= i < |ds| && DenoteAnd(ds[i], env) == Some(Bool(true)) {
      assert DenoteAnd(all[i], env) == Some(Bool(true));
    }
  }

  /** A chain of `||` between operands that are true or false is true exactly when one of them is. */
  lemma {:induction false} Disjunction(g: Or, env: Env)
    requires forall i :: 0 <= i < |Disjuncts(g)| ==> Boolean(DenoteAnd(Disjuncts(g)[i], env))
    ensures DenoteOr(g, env) == Some(Bool(SomeIsTrue(Disjuncts(g), env)))
  {
    match g
    case OrLast(c) =>
      assert Disjuncts(g) == [c] && Boolean(DenoteAnd(Disjuncts(g)[0], env));
      OneMoreIsTrue([], c, env);
      assert [] + [c] == [c];
    case OrMore(init, right) =>
      var ds := Disjuncts(g);
      assert forall i :: 0 <= i < |Disjuncts(init)| ==> ds[i] == Disjuncts(init)[i];
      assert ds[|ds| - 1] == right && Boolean(DenoteAnd(right, env));
      Disjunction(init, env);
      OneMoreIsTrue(Disjuncts(init), right, env);
  }

  /** A chain of `&&` between such operands is true exactly when all of them are. */
  lemma {:induction false} Conjunction(g: And, env: Env)
    requires forall i :: 0 <= i < |Conjuncts(g)| ==> Boolean(DenoteNot(Conjuncts(g)[i], env))
    ensures DenoteAnd(g, env) ==
            Some(Bool(forall i :: 0 <= i < |Conjuncts(g)| ==> DenoteNot(Conjuncts(g)[i], env) == Some(Bool(true))))
  {
    match g
    case AndLast(t) => assert Conjuncts(g)[0] == t;
    case AndMore(init, right) =>
      var cs := Conjuncts(g);
      assert forall i :: 0 <= i < |Conjuncts(init)| ==> cs[i] == Conjuncts(init)[i];
      assert cs[|cs| - 1] == right;
      Conjunction(init, env);
  }

  function Negations(n: nat, t: Not): Not {
    if n == 0 then t else Negate(Negations(n - 1, t))
  }

  /** An odd number of `!` turns true and false round, an even one leaves them. */
  lemma {:induction false} Negation(n: nat, t: Not, env: Env, b: bool)
    requires DenoteNot(t, env) == Some(Bool(b))
    ensures DenoteNot(Negations(n, t), env) == Some(Bool(if n % 2 == 0 then b else !b))
  {
    if n > 0 {
      Negation(n - 1, t, env, b);
    }
  }

  function Elements(items: Items): seq<Primary> {
    match items
    case One(p) => [p]
    case More(init, last) => Elements(init) + [last]
  }

  lemma {:induction false} ItemsInOrder(items: Items, env: Env, vs: seq<Json>)
    requires DenoteItems(items, env) == Some(vs)
    ensures |vs| == |Elements(items)|
    ensures forall i :: 0 <= i < |vs| ==> Gives(Elements(items)[i], vs[i], env)
  {
    if items.More? {
      ItemsInOrder(items.init, env, DenoteItems(items.init, env).value);
    }
  }

  /** A list literal is the list of what its elements give, in order; the other literals stand for themselves. */
  lemma Literals(items: Items, env: Env, n: int, x: real, text: string, vs: seq<Json>)
    requires Gives(ListP(items), Arr(vs), env)
    ensures |vs| == |Elements(items)| && forall i :: 0 <= i < |vs| ==> Gives(Elements(items)[i], vs[i], env)
    ensures Gives(EmptyList, Arr([]), env)
    ensures Gives(NumP(Int(n)), Int(n), env) && Gives(NumP(Dec(x)), Dec(x), env) && Gives(StrP(text), Str(text), env)
    ensures Gives(Keyword("true"), Bool(true), env) && Gives(Keyword("false"), Bool(false), env)
    ensures Gives(Keyword("null"), Null, env)
  {
    ItemsInOrder(items, env, vs);
  }

  /** A reference gives what it finds, and `has` whether it finds anything; one without a path is an error. */
  lemma ReferencesGive(r: Reference, env: Env)
    ensures r.segments != [] ==> DenotePrimary(RefP(r), env) == Lookup(r, env.ctx, env.item)
    ensures r.segments != [] ==> Gives(Has(r), Bool(Lookup(r, env.ctx, env.item).Some?), env)
    ensures r.segments == [] ==> DenotePrimary(RefP(r), env) == None && DenotePrimary(Has(r), env) == None
  {
  }
}
