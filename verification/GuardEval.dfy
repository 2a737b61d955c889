/** The meaning of guards, and the one-pass parser-evaluator proved to compute it. */
module GuardEval {
  import opened Values
  import opened References
  import opened Guards

  // --- operators on values --------------------------------------------------------------------

  predicate Numeric(v: Json) { v.Bool? || v.Int? || v.Dec? }

  function NumVal(v: Json): real
    requires Numeric(v)
  {
    match v
    case Bool(b) => if b then 1.0 else 0.0
    case Int(n) => n as real
    case Dec(r) => r
  }

  // Python `==`: booleans and floats compare as numbers, containers element by element.
  predicate PyEq(a: Json, b: Json)
    decreases a
  {
    if Numeric(a) && Numeric(b) then NumVal(a) == NumVal(b)
    else
      match (a, b)
      case (Null, Null) => true
      case (Str(x), Str(y)) => x == y
      case (Arr(x), Arr(y)) => |x| == |y| && forall i :: 0 <= i < |x| ==> PyEq(x[i], y[i])
      case (Obj(x), Obj(y)) => x.Keys == y.Keys && forall k :: k in x ==> PyEq(x[k], y[k])
      case _ => false
  }

  function CompareText(a: string, b: string): int {
    if a == "" && b == "" then 0
    else if a == "" then -1
    else if b == "" then 1
    else if a[0] != b[0] then (if a[0] < b[0] then -1 else 1)
    else CompareText(a[1..], b[1..])
  }

  // Three-way order; None is Python's TypeError.
  function Order(a: Json, b: Json): Option<int>
    decreases a, 1
  {
    if Numeric(a) && Numeric(b) then
      Some(if NumVal(a) < NumVal(b) then -1 else if NumVal(a) == NumVal(b) then 0 else 1)
    else
      match (a, b)
      case (Str(x), Str(y)) => Some(CompareText(x, y))
      case (Arr(x), Arr(y)) => OrderItems(x, y)
      case _ => None
  }

  function OrderItems(a: seq<Json>, b: seq<Json>): Option<int>
    decreases a, 0
  {
    if a == [] && b == [] then Some(0)
    else if a == [] then Some(-1)
    else if b == [] then Some(1)
    else if PyEq(a[0], b[0]) then OrderItems(a[1..], b[1..])
    else Order(a[0], b[0])
  }

  predicate Substring(a: string, b: string) {
    a <= b || (b != "" && Substring(a, b[1..]))
  }

  function Membership(a: Json, b: Json): Option<bool> {
    match b
    case Str(s) => if a.Str? then Some(Substring(a.s, s)) else None
    case Arr(items) => Some(exists i :: 0 <= i < |items| && PyEq(a, items[i]))
    case Obj(fields) => if a.Arr? || a.Obj? then None else Some(a.Str? && a.s in fields)
    case _ => None
  }

  function Apply(op: string, a: Json, b: Json): Option<Json> {
    if op == "==" then Some(Bool(PyEq(a, b)))
    else if op == "!=" then Some(Bool(!PyEq(a, b)))
    else if op == "in" then
      match Membership(a, b)
      case None => None
      case Some(m) => Some(Bool(m))
    else
      match Order(a, b)
      case None => None
      case Some(c) =>
        Some(Bool(if op == "<" then c < 0 else if op == "<=" then c <= 0 else if op == ">" then c > 0 else c >= 0))
  }

  function KeywordValue(name: string): Json {
    if name == "true" then Bool(true) else if name == "false" then Bool(false) else Null
  }

  function SizeOf(v: Json): Option<Json> {
    match v
    case Str(s) => Some(Int(|s|))
    case Arr(items) => Some(Int(|items|))
    case Obj(fields) => Some(Int(|fields|))
    case _ => None
  }

  // A reference with no path is malformed; any other must resolve.
  function RefValue(r: Reference, env: Env): Option<Json> {
    if r.segments == [] then None else Lookup(r, env.ctx, env.item)
  }

  // `has` tolerates a reference that does not resolve, but not a malformed one.
  function HasValue(r: Reference, env: Env): Option<Json> {
    if r.segments == [] then None else Some(Bool(Lookup(r, env.ctx, env.item).Some?))
  }

  // --- denotation (None is GuardError) ----------------------------------------------------------

  function DenoteOr(g: Or, env: Env): Option<Json> {
    match g
    case OrLast(c) => DenoteAnd(c, env)
    case OrMore(init, right) =>
      match (DenoteOr(init, env), DenoteAnd(right, env))
      case (Some(a), Some(b)) => Some(Bool(Truthy(a) || Truthy(b)))
      case _ => None
  }

  function DenoteAnd(g: And, env: Env): Option<Json> {
    match g
    case AndLast(t) => DenoteNot(t, env)
    case AndMore(init, right) =>
      match (DenoteAnd(init, env), DenoteNot(right, env))
      case (Some(a), Some(b)) => Some(Bool(Truthy(a) && Truthy(b)))
      case _ => None
  }

  function DenoteNot(g: Not, env: Env): Option<Json> {
    match g
    case Negate(t) =>
      (match DenoteNot(t, env)
       case Some(a) => Some(Bool(!Truthy(a)))
       case None => None)
    case Plain(Bare(p)) => DenotePrimary(p, env)
    case Plain(Compare(l, op, r)) =>
      match (DenotePrimary(l, env), DenotePrimary(r, env))
      case (Some(a), Some(b)) => Apply(op, a, b)
      case _ => None
  }

  function DenotePrimary(p: Primary, env: Env): Option<Json> {
    match p
    case Paren(g) => DenoteOr(g, env)
    case Size(g) =>
      (match DenoteOr(g, env)
       case Some(v) => SizeOf(v)
       case None => None)
    case Has(r) => HasValue(r, env)
    case RefP(r) => RefValue(r, env)
    case NumP(v) => Some(v)
    case StrP(s) => Some(Str(s))
    case Keyword(name) => Some(KeywordValue(name))
    case EmptyList => Some(Arr([]))
    case ListP(items) =>
      match DenoteItems(items, env)
      case Some(vs) => Some(Arr(vs))
      case None => None
  }

  function DenoteItems(items: Items, env: Env): Option<seq<Json>> {
    match items
    case One(p) =>
      (match DenotePrimary(p, env)
       case Some(v) => Some([v])
       case None => None)
    case More(init, last) =>
      match (DenoteItems(init, env), DenotePrimary(last, env))
      case (Some(vs), Some(v)) => Some(vs + [v])
      case _ => None
  }

  // --- every operand counts ---------------------------------------------------------------------

  // The references a guard mentions outside `has`.
  function RefsOr(g: Or): set<Reference> {
    match g
    case OrLast(c) => RefsAnd(c)
    case OrMore(init, right) => RefsOr(init) + RefsAnd(right)
  }

  function RefsAnd(g: And): set<Reference> {
    match g
    case AndLast(t) => RefsNot(t)
    case AndMore(init, right) => RefsAnd(init) + RefsNot(right)
  }

  function RefsNot(g: Not): set<Reference> {
    match g
    case Negate(t) => RefsNot(t)
    case Plain(Bare(p)) => RefsPrimary(p)
    case Plain(Compare(l, _, r)) => RefsPrimary(l) + RefsPrimary(r)
  }

  function RefsPrimary(p: Primary): set<Reference> {
    match p
    case Paren(g) => RefsOr(g)
    case Size(g) => RefsOr(g)
    case RefP(r) => {r}
    case ListP(items) => RefsItems(items)
    case _ => {}
  }

  function RefsItems(items: Items): set<Reference> {
    match items
    case One(p) => RefsPrimary(p)
    case More(init, last) => RefsItems(init) + RefsPrimary(last)
  }

  /** Neither `||` nor `&&` shields an operand: a value means every reference outside `has` resolved. */
  lemma {:induction false} NoOperandIsSkipped(g: Or, env: Env, r: Reference)
    requires DenoteOr(g, env).Some? && r in RefsOr(g)
    ensures RefValue(r, env).Some?
  {
    match g
    case OrLast(c) => NoConjunctIsSkipped(c, env, r);
    case OrMore(init, right) =>
      if r in RefsOr(init) { NoOperandIsSkipped(init, env, r); } else { NoConjunctIsSkipped(right, env, r); }
  }

  lemma {:induction false} NoConjunctIsSkipped(g: And, env: Env, r: Reference)
    requires DenoteAnd(g, env).Some? && r in RefsAnd(g)
    ensures RefValue(r, env).Some?
  {
    match g
    case AndLast(t) => NoTermIsSkipped(t, env, r);
    case AndMore(init, right) =>
      if r in RefsAnd(init) { NoConjunctIsSkipped(init, env, r); } else { NoTermIsSkipped(right, env, r); }
  }

  lemma {:induction false} NoTermIsSkipped(g: Not, env: Env, r: Reference)
    requires DenoteNot(g, env).Some? && r in RefsNot(g)
    ensures RefValue(r, env).Some?
  {
    match g
    case Negate(t) => NoTermIsSkipped(t, env, r);
    case Plain(Bare(p)) => NoPrimaryIsSkipped(p, env, r);
    case Plain(Compare(l, _, rr)) =>
      if r in RefsPrimary(l) { NoPrimaryIsSkipped(l, env, r); } else { NoPrimaryIsSkipped(rr, env, r); }
  }

  lemma {:induction false} NoPrimaryIsSkipped(p: Primary, env: Env, r: Reference)
    requires DenotePrimary(p, env).Some? && r in RefsPrimary(p)
    ensures RefValue(r, env).Some?
  {
    match p
    case Paren(g) => NoOperandIsSkipped(g, env, r);
    case Size(g) => NoOperandIsSkipped(g, env, r);
    case RefP(_) =>
    case ListP(items) => NoItemIsSkipped(items, env, r);
  }

  lemma {:induction false} NoItemIsSkipped(items: Items, env: Env, r: Reference)
    requires DenoteItems(items, env).Some? && r in RefsItems(items)
    ensures RefValue(r, env).Some?
  {
    match items
    case One(p) => NoPrimaryIsSkipped(p, env, r);
    case More(init, last) =>
      if r in RefsItems(init) { NoItemIsSkipped(init, env, r); } else { NoPrimaryIsSkipped(last, env, r); }
  }

  // --- the fused parser-evaluator ---------------------------------------------------------------

  // An operand that has already failed keeps the whole chain failing.
  lemma {:induction false} OrTailKeepsError(acc: Or, ts: seq<Tok>, env: Env)
    requires DenoteOr(acc, env).None?
    ensures var r := ParseOrTail(acc, ts); r.Some? ==> DenoteOr(r.value.0, env).None?
    decreases |ts|
  {
    if Starts(ts, "||") && ParseAnd(ts[1..]).Some? {
      var (c, rest) := ParseAnd(ts[1..]).value;
      OrTailKeepsError(OrMore(acc, c), rest, env);
    }
  }

  lemma {:induction false} AndTailKeepsError(acc: And, ts: seq<Tok>, env: Env)
    requires DenoteAnd(acc, env).None?
    ensures var r := ParseAndTail(acc, ts); r.Some? ==> DenoteAnd(r.value.0, env).None?
    decreases |ts|
  {
    if Starts(ts, "&&") && ParseNot(ts[1..]).Some? {
      var (t, rest) := ParseNot(ts[1..]).value;
      AndTailKeepsError(AndMore(acc, t), rest, env);
    }
  }

  lemma {:induction false} ItemsTailKeepsError(acc: Items, ts: seq<Tok>, env: Env)
    requires DenoteItems(acc, env).None?
    ensures var r := ParseItemsTail(acc, ts); r.Some? ==> DenoteItems(r.value.0, env).None?
    decreases |ts|
  {
    if Starts(ts, ",") && ParsePrimary(ts[1..]).Some? {
      var (p, rest) := ParsePrimary(ts[1..]).value;
      ItemsTailKeepsError(More(acc, p), rest, env);
    }
  }

  // What a parsing method must deliver: the value of the tree it passed over and the tokens after
  // it, or an error when there is no such tree or the tree has no value.
  ghost predicate Delivers<G, V>(parsed: Option<(G, seq<Tok>)>, value: G -> Option<V>, r: Option<V>, rest: seq<Tok>) {
    match parsed
    case None => r.None?
    case Some((g, after)) => r == value(g) && (r.Some? ==> rest == after)
  }

  class Parser {
    const tokens: seq<Tok>
    const env: Env
    var pos: nat

    constructor (tokens: seq<Tok>, env: Env)
      ensures this.tokens == tokens && this.env == env && pos == 0
    {
      this.tokens := tokens;
      this.env := env;
      pos := 0;
    }

    ghost predicate Valid()
      reads this
    {
      pos <= |tokens|
    }

    function Left(): seq<Tok>
      reads this
      requires Valid()
    {
      tokens[pos..]
    }

    function Peek(): (t: Option<Tok>)
      reads this
      requires Valid()
    {
      if pos < |tokens| then Some(tokens[pos]) else None
    }

    method Advance() returns (t: Option<Tok>)
      requires Valid()
      modifies this
      ensures Valid()
      ensures t == old(Peek())
      ensures t.Some? ==> Left() == old(Left())[1..]
      ensures t.None? ==> pos == old(pos)
    {
      t := Peek();
      if t.Some? {
        pos := pos + 1;
      }
    }

    // Consumes `text` or fails.
    method Expect(text: string) returns (ok: bool)
      requires Valid()
      modifies this
      ensures Valid()
      ensures ok == Starts(old(Left()), text)
      ensures ok ==> Left() == old(Left())[1..]
    {
      var t := Advance();
      ok := t == Some(Op(text));
    }

    method ParseWhole() returns (r: Option<Json>)
      requires Valid()
      modifies this
      ensures r == match ParseOr(old(Left()))
                   case None => None
                   case Some((g, rest)) => if rest == [] then DenoteOr(g, env) else None
    {
      r := EvalOr();
      if r.Some? && Peek().Some? {
        r := None;
      }
    }

    method EvalOr() returns (r: Option<Json>)
      requires Valid()
      modifies this
      ensures Valid()
      ensures Delivers(ParseOr(old(Left())), (g: Or) => DenoteOr(g, env), r, Left())
      decreases |Left()|, 4
    {
      ghost var start := Left();
      r := EvalAnd();
      if r.None? {
        if ParseAnd(start).Some? {
          OrTailKeepsError(OrLast(ParseAnd(start).value.0), ParseAnd(start).value.1, env);
        }
        return;
      }
      ghost var acc := OrLast(ParseAnd(start).value.0);
      while Peek() == Some(Op("||"))
        invariant Valid() && r.Some? && |Left()| < |start|
        invariant ParseOrTail(acc, Left()) == ParseOr(start)
        invariant DenoteOr(acc, env) == r
        decreases |Left()|
      {
        ghost var here := Left();
        var _ := Advance();
        var right := EvalAnd();
        ghost var parsed := ParseAnd(here[1..]);
        if right.None? {
          if parsed.Some? {
            OrTailKeepsError(OrMore(acc, parsed.value.0), parsed.value.1, env);
          }
          return None;
        }
        acc := OrMore(acc, parsed.value.0);
        r := Some(Bool(Truthy(r.value) || Truthy(right.value)));
      }
    }

    method EvalAnd() returns (r: Option<Json>)
      requires Valid()
      modifies this
      ensures Valid()
      ensures Delivers(ParseAnd(old(Left())), (g: And) => DenoteAnd(g, env), r, Left())
      decreases |Left()|, 3
    {
      ghost var start := Left();
      r := EvalNot();
      if r.None? {
        if ParseNot(start).Some? {
          AndTailKeepsError(AndLast(ParseNot(start).value.0), ParseNot(start).value.1, env);
        }
        return;
      }
      ghost var acc := AndLast(ParseNot(start).value.0);
      while Peek() == Some(Op("&&"))
        invariant Valid() && r.Some? && |Left()| < |start|
        invariant ParseAndTail(acc, Left()) == ParseAnd(start)
        invariant DenoteAnd(acc, env) == r
        decreases |Left()|
      {
        ghost var here := Left();
        var _ := Advance();
        var right := EvalNot();
        ghost var parsed := ParseNot(here[1..]);
        if right.None? {
          if parsed.Some? {
            AndTailKeepsError(AndMore(acc, parsed.value.0), parsed.value.1, env);
          }
          return None;
        }
        acc := AndMore(acc, parsed.value.0);
        r := Some(Bool(Truthy(r.value) && Truthy(right.value)));
      }
    }

    method EvalNot() returns (r: Option<Json>)
      requires Valid()
      modifies this
      ensures Valid()
      ensures Delivers(ParseNot(old(Left())), (g: Not) => DenoteNot(g, env), r, Left())
      decreases |Left()|, 2
    {
      if Peek() == Some(Op("!")) {
        var _ := Advance();
        r := EvalNot();
        if r.Some? {
          r := Some(Bool(!Truthy(r.value)));
        }
      } else {
        r := EvalComparison();
      }
    }

    method EvalComparison() returns (r: Option<Json>)
      requires Valid()
      modifies this
      ensures Valid()
      ensures Delivers(ParseComp(old(Left())), (g: Comp) => DenoteNot(Plain(g), env), r, Left())
      decreases |Left()|, 1
    {
      ghost var start := Left();
      r := EvalPrimary();
      if r.None? {
        return;
      }
      if !StartsComparator(Left()) {
        return;
      }
      ghost var here := Left();
      var op := Advance();
      var right := EvalPrimary();
      if right.None? {
        return None;
      }
      r := Apply(op.value.text, r.value, right.value);
    }

    method EvalPrimary() returns (r: Option<Json>)
      requires Valid()
      modifies this
      ensures Valid()
      ensures Delivers(ParsePrimary(old(Left())), (p: Primary) => DenotePrimary(p, env), r, Left())
      decreases |Left()|, 0
    {
      var t := Advance();
      if t.None? {
        return None;
      }
      match t.value
      case RefTok(ref) => r := RefValue(ref, env);
      case Number(v) => r := Some(v);
      case StrLit(s) => r := Some(Str(s));
      case Name(name) =>
        if IsKeyword(name) {
          r := Some(KeywordValue(name));
        } else if name == "size" {
          var open := Expect("(");
          if !open {
            return None;
          }
          var inner := EvalParen();
          r := if inner.Some? then SizeOf(inner.value) else None;
        } else {
          r := None;
        }
      case Op(text) =>
        if text == "(" {
          r := EvalParen();
        } else if text == "[" {
          r := EvalList();
        } else {
          r := None;
        }
    }

    method EvalParen() returns (r: Option<Json>)
      requires Valid()
      modifies this
      ensures Valid()
      ensures Delivers(ParseParen(old(Left())), (g: Or) => DenoteOr(g, env), r, Left())
      decreases |Left()|, 5
    {
      r := EvalOr();
      if r.Some? {
        var close := Expect(")");
        if !close {
          r := None;
        }
      }
    }

    // After the opening bracket.
    method EvalList() returns (r: Option<Json>)
      requires Valid()
      modifies this
      ensures Valid()
      ensures Delivers(ParseList(old(Left())), (p: Primary) => DenotePrimary(p, env), r, Left())
      decreases |Left()|, 5
    {
      ghost var start := Left();
      if Peek() == Some(Op("]")) {
        var _ := Advance();
        return Some(Arr([]));
      }
      var first := EvalPrimary();
      ghost var parsed := ParsePrimary(start);
      if first.None? {
        if parsed.Some? {
          ItemsTailKeepsError(One(parsed.value.0), parsed.value.1, env);
        }
        return None;
      }
      var items := EvalItems(first.value, One(parsed.value.0));
      r := if items.Some? then Some(Arr(items.value)) else None;
    }

    // After the first item, through the closing bracket.
    method EvalItems(first: Json, ghost read: Items) returns (r: Option<seq<Json>>)
      requires Valid() && DenoteItems(read, env) == Some([first])
      modifies this
      ensures Valid()
      ensures Delivers(ParseItemsTail(read, old(Left())), (items: Items) => DenoteItems(items, env), r, Left())
      decreases |Left()|, 5
    {
      ghost var start := Left();
      ghost var acc := read;
      var items := [first];
      while Peek() == Some(Op(","))
        invariant Valid() && |Left()| <= |start|
        invariant ParseItemsTail(acc, Left()) == ParseItemsTail(read, start)
        invariant DenoteItems(acc, env) == Some(items)
        decreases |Left()|
      {
        ghost var here := Left();
        var _ := Advance();
        var next := EvalPrimary();
        ghost var more := ParsePrimary(here[1..]);
        if next.None? {
          if more.Some? {
            ItemsTailKeepsError(More(acc, more.value.0), more.value.1, env);
          }
          return None;
        }
        acc := More(acc, more.value.0);
        items := items + [next.value];
      }
      var close := Expect("]");
      r := if close then Some(items) else None;
    }
  }

  // --- has(), rewritten away before parsing -----------------------------------------------------

  predicate IsHasCall(ts: seq<Tok>) {
    |ts| >= 4 && ts[0] == Name("has") && ts[1] == Op("(") && ts[2].RefTok? && ts[3] == Op(")")
  }

  // Each `has(reference)` becomes `true` or `false`; None when one of them is malformed.
  function RewriteHas(ts: seq<Tok>, env: Env): Option<seq<Tok>> {
    if ts == [] then Some([])
    else if IsHasCall(ts) then
      match (HasValue(ts[2].ref, env), RewriteHas(ts[4..], env))
      case (Some(v), Some(rest)) => Some([Name(if Truthy(v) then "true" else "false")] + rest)
      case _ => None
    else
      match RewriteHas(ts[1..], env)
      case Some(rest) => Some([ts[0]] + rest)
      case None => None
  }

  // The guard with every `has` replaced by the keyword it stands for; None when one is malformed.
  function CutOr(g: Or, env: Env): Option<Or> {
    match g
    case OrLast(c) => (match CutAnd(c, env) case Some(c') => Some(OrLast(c')) case None => None)
    case OrMore(init, right) =>
      match (CutOr(init, env), CutAnd(right, env))
      case (Some(a), Some(b)) => Some(OrMore(a, b))
      case _ => None
  }

  function CutAnd(g: And, env: Env): Option<And> {
    match g
    case AndLast(t) => (match CutNot(t, env) case Some(t') => Some(AndLast(t')) case None => None)
    case AndMore(init, right) =>
      match (CutAnd(init, env), CutNot(right, env))
      case (Some(a), Some(b)) => Some(AndMore(a, b))
      case _ => None
  }

  function CutNot(g: Not, env: Env): Option<Not> {
    match g
    case Negate(t) => (match CutNot(t, env) case Some(t') => Some(Negate(t')) case None => None)
    case Plain(Bare(p)) => (match CutPrimary(p, env) case Some(p') => Some(Plain(Bare(p'))) case None => None)
    case Plain(Compare(l, op, r)) =>
      match (CutPrimary(l, env), CutPrimary(r, env))
      case (Some(a), Some(b)) => Some(Plain(Compare(a, op, b)))
      case _ => None
  }

  function CutPrimary(p: Primary, env: Env): Option<Primary> {
    match p
    case Paren(g) => (match CutOr(g, env) case Some(g') => Some(Paren(g')) case None => None)
    case Size(g) => (match CutOr(g, env) case Some(g') => Some(Size(g')) case None => None)
    case Has(r) =>
      (match HasValue(r, env)
       case Some(v) => Some(Keyword(if Truthy(v) then "true" else "false"))
       case None => None)
    case ListP(items) => (match CutItems(items, env) case Some(i') => Some(ListP(i')) case None => None)
    case _ => Some(p)
  }

  function CutItems(items: Items, env: Env): Option<Items> {
    match items
    case One(p) => (match CutPrimary(p, env) case Some(p') => Some(One(p')) case None => None)
    case More(init, last) =>
      match (CutItems(init, env), CutPrimary(last, env))
      case (Some(a), Some(b)) => Some(More(a, b))
      case _ => None
  }

  // Cutting keeps the meaning, the shape, and leaves no `has`; a failed cut means the guard is an error.
  lemma {:induction false} CutOrKeeps(g: Or, env: Env)
    requires WfOr(g)
    ensures match CutOr(g, env)
            case None => DenoteOr(g, env).None?
            case Some(g') => WfOr(g') && HasFreeOr(g') && DenoteOr(g', env) == DenoteOr(g, env)
  {
    match g
    case OrLast(c) => CutAndKeeps(c, env);
    case OrMore(init, right) => CutOrKeeps(init, env); CutAndKeeps(right, env);
  }

  lemma {:induction false} CutAndKeeps(g: And, env: Env)
    requires WfAnd(g)
    ensures match CutAnd(g, env)
            case None => DenoteAnd(g, env).None?
            case Some(g') => WfAnd(g') && HasFreeAnd(g') && DenoteAnd(g', env) == DenoteAnd(g, env)
  {
    match g
    case AndLast(t) => CutNotKeeps(t, env);
    case AndMore(init, right) => CutAndKeeps(init, env); CutNotKeeps(right, env);
  }

  lemma {:induction false} CutNotKeeps(g: Not, env: Env)
    requires WfNot(g)
    ensures match CutNot(g, env)
            case None => DenoteNot(g, env).None?
            case Some(g') => WfNot(g') && HasFreeNot(g') && DenoteNot(g', env) == DenoteNot(g, env)
  {
    match g
    case Negate(t) => CutNotKeeps(t, env);
    case Plain(Bare(p)) => CutPrimaryKeeps(p, env);
    case Plain(Compare(l, _, r)) => CutPrimaryKeeps(l, env); CutPrimaryKeeps(r, env);
  }

  lemma {:induction false} CutPrimaryKeeps(p: Primary, env: Env)
    requires WfPrimary(p)
    ensures match CutPrimary(p, env)
            case None => DenotePrimary(p, env).None?
            case Some(p') => WfPrimary(p') && HasFreePrimary(p') && DenotePrimary(p', env) == DenotePrimary(p, env)
  {
    match p
    case Paren(g) => CutOrKeeps(g, env);
    case Size(g) => CutOrKeeps(g, env);
    case ListP(items) => CutItemsKeeps(items, env);
    case _ =>
  }

  lemma {:induction false} CutItemsKeeps(items: Items, env: Env)
    requires WfItems(items)
    ensures match CutItems(items, env)
            case None => DenoteItems(items, env).None?
            case Some(i') => WfItems(i') && HasFreeItems(i') && DenoteItems(i', env) == DenoteItems(items, env)
  {
    match items
    case One(p) => CutPrimaryKeeps(p, env);
    case More(init, last) => CutItemsKeeps(init, env); CutPrimaryKeeps(last, env);
  }

  function CutTokens<G>(cut: Option<G>, printed: G -> seq<Tok>): Option<seq<Tok>> {
    match cut
    case Some(g) => Some(printed(g))
    case None => None
  }

  // The rewriting of a piece of printed guard, put in front of the rewriting of what follows it.
  function Joined(cut: Option<seq<Tok>>, rest: Option<seq<Tok>>): Option<seq<Tok>> {
    match (cut, rest)
    case (Some(a), Some(b)) => Some(a + b)
    case _ => None
  }

  lemma JoinedAssociates(a: Option<seq<Tok>>, b: Option<seq<Tok>>, c: Option<seq<Tok>>)
    ensures Joined(a, Joined(b, c)) == Joined(Joined(a, b), c)
  {
    if a.Some? && b.Some? && c.Some? {
      assert a.value + (b.value + c.value) == (a.value + b.value) + c.value;
    }
  }

  lemma JoinedAround(a: Option<seq<Tok>>, t: Tok, b: Option<seq<Tok>>, rest: Option<seq<Tok>>)
    ensures Joined(a, Joined(Some([t]), Joined(b, rest))) ==
            Joined(if a.Some? && b.Some? then Some(a.value + ([t] + b.value)) else None, rest)
  {
    if a.Some? && b.Some? && rest.Some? {
      assert a.value + ([t] + (b.value + rest.value)) == a.value + ([t] + b.value) + rest.value;
    }
  }

  lemma RewriteOneToken(t: Tok, rest: seq<Tok>, env: Env)
    requires t != Name("has")
    ensures RewriteHas([t] + rest, env) == Joined(Some([t]), RewriteHas(rest, env))
  {
    assert ([t] + rest)[1..] == rest;
  }

  lemma {:induction false} RewriteOr(g: Or, rest: seq<Tok>, env: Env)
    requires WfOr(g)
    ensures RewriteHas(PrintOr(g) + rest, env) ==
            Joined(CutTokens(CutOr(g, env), PrintOr), RewriteHas(rest, env))
    decreases g, 0
  {
    match g
    case OrLast(c) => RewriteAnd(c, rest, env);
    case OrMore(init, right) =>
      assert PrintOr(g) + rest == PrintOr(init) + ([Op("||")] + (PrintAnd(right) + rest));
      RewriteOr(init, [Op("||")] + (PrintAnd(right) + rest), env);
      RewriteOneToken(Op("||"), PrintAnd(right) + rest, env);
      RewriteAnd(right, rest, env);
      JoinedAround(CutTokens(CutOr(init, env), PrintOr), Op("||"), CutTokens(CutAnd(right, env), PrintAnd),
                   RewriteHas(rest, env));
  }

  lemma {:induction false} RewriteAnd(g: And, rest: seq<Tok>, env: Env)
    requires WfAnd(g)
    ensures RewriteHas(PrintAnd(g) + rest, env) ==
            Joined(CutTokens(CutAnd(g, env), PrintAnd), RewriteHas(rest, env))
    decreases g
  {
    match g
    case AndLast(t) => RewriteNot(t, rest, env);
    case AndMore(init, right) =>
      assert PrintAnd(g) + rest == PrintAnd(init) + ([Op("&&")] + (PrintNot(right) + rest));
      RewriteAnd(init, [Op("&&")] + (PrintNot(right) + rest), env);
      RewriteOneToken(Op("&&"), PrintNot(right) + rest, env);
      RewriteNot(right, rest, env);
      JoinedAround(CutTokens(CutAnd(init, env), PrintAnd), Op("&&"), CutTokens(CutNot(right, env), PrintNot),
                   RewriteHas(rest, env));
  }

  lemma {:induction false} RewriteNot(g: Not, rest: seq<Tok>, env: Env)
    requires WfNot(g)
    ensures RewriteHas(PrintNot(g) + rest, env) ==
            Joined(CutTokens(CutNot(g, env), PrintNot), RewriteHas(rest, env))
    decreases g
  {
    match g
    case Negate(t) =>
      assert PrintNot(g) + rest == [Op("!")] + (PrintNot(t) + rest);
      RewriteOneToken(Op("!"), PrintNot(t) + rest, env);
      RewriteNot(t, rest, env);
      JoinedAssociates(Some([Op("!")]), CutTokens(CutNot(t, env), PrintNot), RewriteHas(rest, env));
    case Plain(Bare(p)) => RewritePrimary(p, rest, env);
    case Plain(Compare(l, op, r)) =>
      assert PrintNot(g) + rest == PrintPrimary(l) + ([ComparatorTok(op)] + (PrintPrimary(r) + rest));
      RewritePrimary(l, [ComparatorTok(op)] + (PrintPrimary(r) + rest), env);
      RewriteOneToken(ComparatorTok(op), PrintPrimary(r) + rest, env);
      RewritePrimary(r, rest, env);
      JoinedAround(CutTokens(CutPrimary(l, env), PrintPrimary), ComparatorTok(op),
                   CutTokens(CutPrimary(r, env), PrintPrimary), RewriteHas(rest, env));
  }

  lemma RewriteEmptyList(rest: seq<Tok>, env: Env)
    ensures RewriteHas([Op("["), Op("]")] + rest, env) == Joined(Some([Op("["), Op("]")]), RewriteHas(rest, env))
  {
    assert [Op("["), Op("]")] + rest == [Op("[")] + ([Op("]")] + rest);
    RewriteOneToken(Op("["), [Op("]")] + rest, env);
    RewriteOneToken(Op("]"), rest, env);
    JoinedAssociates(Some([Op("[")]), Some([Op("]")]), RewriteHas(rest, env));
    assert [Op("[")] + [Op("]")] == [Op("["), Op("]")];
  }

  lemma {:induction false} RewriteList(items: Items, rest: seq<Tok>, env: Env)
    requires WfItems(items)
    ensures RewriteHas([Op("[")] + (PrintItems(items) + ([Op("]")] + rest)), env) ==
            Joined(CutTokens(CutItems(items, env), (i': Items) => [Op("[")] + (PrintItems(i') + [Op("]")])),
                   RewriteHas(rest, env))
    decreases items, 1
  {
    var cut := CutTokens(CutItems(items, env), PrintItems);
    RewriteOneToken(Op("["), PrintItems(items) + ([Op("]")] + rest), env);
    RewriteItems(items, [Op("]")] + rest, env);
    RewriteOneToken(Op("]"), rest, env);
    JoinedAssociates(cut, Some([Op("]")]), RewriteHas(rest, env));
    JoinedAssociates(Some([Op("[")]), Joined(cut, Some([Op("]")])), RewriteHas(rest, env));
  }

  lemma {:induction false} RewritePrimary(p: Primary, rest: seq<Tok>, env: Env)
    requires WfPrimary(p)
    ensures RewriteHas(PrintPrimary(p) + rest, env) ==
            Joined(CutTokens(CutPrimary(p, env), PrintPrimary), RewriteHas(rest, env))
    decreases p, 1
  {
    match p
    case Paren(g) => RewriteParen(g, rest, env);
      var inner := PrintOr(g) + ([Op(")")] + rest);
      assert PrintPrimary(p) + rest == [Op("(")] + inner;
      RewriteOneToken(Op("("), inner, env);
      JoinedAssociates(Some([Op("(")]), CutTokens(CutOr(g, env), (g': Or) => PrintOr(g') + [Op(")")]),
                       RewriteHas(rest, env));
    case Size(g) => RewriteSize(g, rest, env);
    case Has(r) => assert (PrintPrimary(p) + rest)[4..] == rest;
    case EmptyList => RewriteEmptyList(rest, env);
    case ListP(items) =>
      assert PrintPrimary(p) + rest == [Op("[")] + (PrintItems(items) + ([Op("]")] + rest));
      RewriteList(items, rest, env);
    case _ => RewriteOneToken(PrintPrimary(p)[0], rest, env);
  }

  lemma {:induction false} RewriteSize(g: Or, rest: seq<Tok>, env: Env)
    requires WfOr(g)
    ensures RewriteHas(PrintPrimary(Size(g)) + rest, env) ==
            Joined(CutTokens(CutPrimary(Size(g), env), PrintPrimary), RewriteHas(rest, env))
    decreases g, 2
  {
    RewriteParen(g, rest, env);
    var inner := PrintOr(g) + ([Op(")")] + rest);
    assert PrintPrimary(Size(g)) + rest == [Name("size")] + ([Op("(")] + inner);
    RewriteOneToken(Name("size"), [Op("(")] + inner, env);
    RewriteOneToken(Op("("), inner, env);
    var cut := CutTokens(CutOr(g, env), (g': Or) => PrintOr(g') + [Op(")")]);
    JoinedAround(Some([Name("size")]), Op("("), cut, RewriteHas(rest, env));
  }

  lemma {:induction false} RewriteParen(g: Or, rest: seq<Tok>, env: Env)
    requires WfOr(g)
    ensures RewriteHas(PrintOr(g) + ([Op(")")] + rest), env) ==
            Joined(match CutOr(g, env) case Some(g') => Some(PrintOr(g') + [Op(")")]) case None => None,
                   RewriteHas(rest, env))
    decreases g, 1
  {
    RewriteOr(g, [Op(")")] + rest, env);
    RewriteOneToken(Op(")"), rest, env);
    JoinedAssociates(CutTokens(CutOr(g, env), PrintOr), Some([Op(")")]), RewriteHas(rest, env));
  }

  lemma {:induction false} RewriteItems(items: Items, rest: seq<Tok>, env: Env)
    requires WfItems(items)
    ensures RewriteHas(PrintItems(items) + rest, env) ==
            Joined(CutTokens(CutItems(items, env), PrintItems), RewriteHas(rest, env))
    decreases items, 0
  {
    match items
    case One(p) => RewritePrimary(p, rest, env);
    case More(init, last) =>
      assert PrintItems(items) + rest == PrintItems(init) + ([Op(",")] + (PrintPrimary(last) + rest));
      RewriteItems(init, [Op(",")] + (PrintPrimary(last) + rest), env);
      RewriteOneToken(Op(","), PrintPrimary(last) + rest, env);
      RewritePrimary(last, rest, env);
      JoinedAround(CutTokens(CutItems(init, env), PrintItems), Op(","), CutTokens(CutPrimary(last, env), PrintPrimary),
                   RewriteHas(rest, env));
  }

  // --- the value of a guard's tokens -----------------------------------------------------------------------------

  // What tokens without calls of `has` evaluate to: a boolean, or None for GuardError.
  function Evaluated(ts: seq<Tok>, env: Env): Option<bool> {
    match ParseOr(ts)
    case None => None
    case Some((g, rest)) =>
      if rest != [] then None
      else
        match DenoteOr(g, env)
        case Some(Bool(b)) => Some(b)
        case _ => None
  }

  method Evaluate(ts: seq<Tok>, env: Env) returns (r: Option<bool>)
    ensures r == Evaluated(ts, env)
  {
    var parser := new Parser(ts, env);
    assert parser.Left() == ts;
    var v := parser.ParseWhole();
    r := if v.Some? && v.value.Bool? then Some(v.value.b) else None;
  }

  // What a token list evaluates to, its calls of `has` rewritten.
  function GuardValue(ts: seq<Tok>, env: Env): Option<bool> {
    match RewriteHas(ts, env)
    case None => None
    case Some(cut) => Evaluated(cut, env)
  }

  /** Evaluating the tokens of any guard of the grammar, `has` included, gives the guard's meaning. */
  lemma GuardMeansItsDenotation(g: Or, env: Env)
    requires WfOr(g)
    ensures GuardValue(PrintOr(g), env) ==
            match DenoteOr(g, env)
            case Some(Bool(b)) => Some(b)
            case _ => None
  {
    assert PrintOr(g) + [] == PrintOr(g);
    RewriteOr(g, [], env);
    CutOrKeeps(g, env);
    if CutOr(g, env).Some? {
      var cut := CutOr(g, env).value;
      assert PrintOr(cut) + [] == PrintOr(cut);
      GuardPrintParse(cut);
    }
  }
}
