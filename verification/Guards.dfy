/** The guard language of `condition` nodes: tokens, grammar, and a parser that inverts printing. */
module Guards {
  import opened Values
  import opened References

  datatype Tok =
    | Op(text: string)
    | Number(v: Json)
    | StrLit(s: string)
    | Name(text: string)
    | RefTok(ref: Reference)

  // What a guard is evaluated against.
  datatype Env = Env(ctx: Context, item: Json)

  // --- abstract syntax ------------------------------------------------------------------------

  datatype Or = OrLast(c: And) | OrMore(init: Or, right: And)
  datatype And = AndLast(t: Not) | AndMore(init: And, right: Not)
  datatype Not = Negate(t: Not) | Plain(c: Comp)
  datatype Comp = Bare(p: Primary) | Compare(l: Primary, op: string, r: Primary)
  datatype Primary =
    | Paren(g: Or)
    | Size(g: Or)
    | Has(ref: Reference)
    | RefP(ref: Reference)
    | NumP(v: Json)
    | StrP(s: string)
    | Keyword(name: string)
    | EmptyList
    | ListP(items: Items)
  datatype Items = One(p: Primary) | More(init: Items, last: Primary)

  predicate IsComparator(op: string) {
    op == "==" || op == "!=" || op == "<" || op == "<=" || op == ">" || op == ">=" || op == "in"
  }

  predicate IsKeyword(name: string) {
    name == "true" || name == "false" || name == "null"
  }

  predicate WfOr(g: Or) {
    match g
    case OrLast(c) => WfAnd(c)
    case OrMore(init, right) => WfOr(init) && WfAnd(right)
  }

  predicate WfAnd(g: And) {
    match g
    case AndLast(t) => WfNot(t)
    case AndMore(init, right) => WfAnd(init) && WfNot(right)
  }

  predicate WfNot(g: Not) {
    match g
    case Negate(t) => WfNot(t)
    case Plain(c) => WfComp(c)
  }

  predicate WfComp(g: Comp) {
    match g
    case Bare(p) => WfPrimary(p)
    case Compare(l, op, r) => WfPrimary(l) && IsComparator(op) && WfPrimary(r)
  }

  predicate WfPrimary(p: Primary) {
    match p
    case Paren(g) => WfOr(g)
    case Size(g) => WfOr(g)
    case Keyword(name) => IsKeyword(name)
    case ListP(items) => WfItems(items)
    case _ => true
  }

  predicate WfItems(items: Items) {
    match items
    case One(p) => WfPrimary(p)
    case More(init, last) => WfItems(init) && WfPrimary(last)
  }

  // --- printing -------------------------------------------------------------------------------

  function ComparatorTok(op: string): Tok {
    if op == "in" then Name(op) else Op(op)
  }

  function PrintOr(g: Or): seq<Tok> {
    match g
    case OrLast(c) => PrintAnd(c)
    case OrMore(init, right) => PrintOr(init) + ([Op("||")] + PrintAnd(right))
  }

  function PrintAnd(g: And): seq<Tok> {
    match g
    case AndLast(t) => PrintNot(t)
    case AndMore(init, right) => PrintAnd(init) + ([Op("&&")] + PrintNot(right))
  }

  function PrintNot(g: Not): seq<Tok> {
    match g
    case Negate(t) => [Op("!")] + PrintNot(t)
    case Plain(c) => PrintComp(c)
  }

  function PrintComp(g: Comp): seq<Tok> {
    match g
    case Bare(p) => PrintPrimary(p)
    case Compare(l, op, r) => PrintPrimary(l) + ([ComparatorTok(op)] + PrintPrimary(r))
  }

  function PrintPrimary(p: Primary): seq<Tok> {
    match p
    case Paren(g) => [Op("(")] + (PrintOr(g) + [Op(")")])
    case Size(g) => [Name("size")] + ([Op("(")] + (PrintOr(g) + [Op(")")]))
    case Has(r) => [Name("has"), Op("("), RefTok(r), Op(")")]
    case RefP(r) => [RefTok(r)]
    case NumP(v) => [Number(v)]
    case StrP(s) => [StrLit(s)]
    case Keyword(name) => [Name(name)]
    case EmptyList => [Op("["), Op("]")]
    case ListP(items) => [Op("[")] + (PrintItems(items) + [Op("]")])
  }

  function PrintItems(items: Items): seq<Tok> {
    match items
    case One(p) => PrintPrimary(p)
    case More(init, last) => PrintItems(init) + ([Op(",")] + PrintPrimary(last))
  }

  // --- grammar: recursive descent over a token list, giving a tree and the unread tokens -------

  predicate Starts(ts: seq<Tok>, text: string) {
    ts != [] && ts[0] == Op(text)
  }

  predicate StartsComparator(ts: seq<Tok>) {
    ts != [] && (ts[0].Op? || ts[0].Name?) && IsComparator(ts[0].text) && ts[0] == ComparatorTok(ts[0].text)
  }

  function ParseOr(ts: seq<Tok>): (r: Option<(Or, seq<Tok>)>)
    ensures r.Some? ==> |r.value.1| < |ts|
    decreases |ts|, 4
  {
    match ParseAnd(ts)
    case None => None
    case Some((c, rest)) => ParseOrTail(OrLast(c), rest)
  }

  function ParseOrTail(acc: Or, ts: seq<Tok>): (r: Option<(Or, seq<Tok>)>)
    ensures r.Some? ==> |r.value.1| <= |ts|
    decreases |ts|, 5
  {
    if Starts(ts, "||") then
      match ParseAnd(ts[1..])
      case None => None
      case Some((c, rest)) => ParseOrTail(OrMore(acc, c), rest)
    else Some((acc, ts))
  }

  function ParseAnd(ts: seq<Tok>): (r: Option<(And, seq<Tok>)>)
    ensures r.Some? ==> |r.value.1| < |ts|
    decreases |ts|, 3
  {
    match ParseNot(ts)
    case None => None
    case Some((t, rest)) => ParseAndTail(AndLast(t), rest)
  }

  function ParseAndTail(acc: And, ts: seq<Tok>): (r: Option<(And, seq<Tok>)>)
    ensures r.Some? ==> |r.value.1| <= |ts|
    decreases |ts|, 5
  {
    if Starts(ts, "&&") then
      match ParseNot(ts[1..])
      case None => None
      case Some((t, rest)) => ParseAndTail(AndMore(acc, t), rest)
    else Some((acc, ts))
  }

  function ParseNot(ts: seq<Tok>): (r: Option<(Not, seq<Tok>)>)
    ensures r.Some? ==> |r.value.1| < |ts|
    decreases |ts|, 2
  {
    if Starts(ts, "!") then
      match ParseNot(ts[1..])
      case None => None
      case Some((t, rest)) => Some((Negate(t), rest))
    else
      match ParseComp(ts)
      case None => None
      case Some((c, rest)) => Some((Plain(c), rest))
  }

  function ParseComp(ts: seq<Tok>): (r: Option<(Comp, seq<Tok>)>)
    ensures r.Some? ==> |r.value.1| < |ts|
    decreases |ts|, 1
  {
    match ParsePrimary(ts)
    case None => None
    case Some((l, rest)) =>
      if !StartsComparator(rest) then Some((Bare(l), rest))
      else
        match ParsePrimary(rest[1..])
        case None => None
        case Some((r, rest')) => Some((Compare(l, rest[0].text, r), rest'))
  }

  function ParsePrimary(ts: seq<Tok>): (r: Option<(Primary, seq<Tok>)>)
    ensures r.Some? ==> |r.value.1| < |ts|
    decreases |ts|, 0
  {
    if ts == [] then None
    else
      match ts[0]
      case RefTok(r) => Some((RefP(r), ts[1..]))
      case Number(v) => Some((NumP(v), ts[1..]))
      case StrLit(s) => Some((StrP(s), ts[1..]))
      case Name(name) =>
        if IsKeyword(name) then Some((Keyword(name), ts[1..]))
        else if name == "size" && Starts(ts[1..], "(") then
          (match ParseParen(ts[2..])
           case None => None
           case Some((g, rest)) => Some((Size(g), rest)))
        else None
      case Op(text) =>
        if text == "(" then
          match ParseParen(ts[1..])
          case None => None
          case Some((g, rest)) => Some((Paren(g), rest))
        else if text == "[" then ParseList(ts[1..])
        else None
  }

  // A list after its opening bracket.
  function ParseList(ts: seq<Tok>): (r: Option<(Primary, seq<Tok>)>)
    ensures r.Some? ==> |r.value.1| < |ts|
    decreases |ts|, 5
  {
    if Starts(ts, "]") then Some((EmptyList, ts[1..]))
    else
      match ParsePrimary(ts)
      case None => None
      case Some((p, rest)) =>
        match ParseItemsTail(One(p), rest)
        case None => None
        case Some((items, rest')) => Some((ListP(items), rest'))
  }

  // The inside of a parenthesis, up to and including the closing one.
  function ParseParen(ts: seq<Tok>): (r: Option<(Or, seq<Tok>)>)
    ensures r.Some? ==> |r.value.1| < |ts|
    decreases |ts|, 5
  {
    match ParseOr(ts)
    case None => None
    case Some((g, rest)) => if Starts(rest, ")") then Some((g, rest[1..])) else None
  }

  // The rest of a list after its first item, up to and including the closing bracket.
  function ParseItemsTail(acc: Items, ts: seq<Tok>): (r: Option<(Items, seq<Tok>)>)
    ensures r.Some? ==> |r.value.1| < |ts|
    decreases |ts|, 5
  {
    if Starts(ts, ",") then
      match ParsePrimary(ts[1..])
      case None => None
      case Some((p, rest)) => ParseItemsTail(More(acc, p), rest)
    else if Starts(ts, "]") then Some((acc, ts[1..]))
    else None
  }

  // --- printing then parsing gives the same tree -----------------------------------------------

  // What may follow a complete operand of each level without being absorbed by it.
  predicate EndsComp(rest: seq<Tok>) { !StartsComparator(rest) }
  predicate EndsAnd(rest: seq<Tok>) { EndsComp(rest) && !Starts(rest, "&&") }

  // No `has` is left: the parser proper never sees one.
  predicate HasFreeOr(g: Or) {
    match g
    case OrLast(c) => HasFreeAnd(c)
    case OrMore(init, right) => HasFreeOr(init) && HasFreeAnd(right)
  }

  predicate HasFreeAnd(g: And) {
    match g
    case AndLast(t) => HasFreeNot(t)
    case AndMore(init, right) => HasFreeAnd(init) && HasFreeNot(right)
  }

  predicate HasFreeNot(g: Not) {
    match g
    case Negate(t) => HasFreeNot(t)
    case Plain(Bare(p)) => HasFreePrimary(p)
    case Plain(Compare(l, _, r)) => HasFreePrimary(l) && HasFreePrimary(r)
  }

  predicate HasFreePrimary(p: Primary) {
    match p
    case Paren(g) => HasFreeOr(g)
    case Size(g) => HasFreeOr(g)
    case Has(_) => false
    case ListP(items) => HasFreeItems(items)
    case _ => true
  }

  predicate HasFreeItems(items: Items) {
    match items
    case One(p) => HasFreePrimary(p)
    case More(init, last) => HasFreeItems(init) && HasFreePrimary(last)
  }

  lemma {:induction false} OrPrintParse(g: Or, rest: seq<Tok>)
    requires WfOr(g) && HasFreeOr(g) && EndsAnd(rest)
    ensures ParseOr(PrintOr(g) + rest) == ParseOrTail(g, rest)
    decreases g, 0
  {
    match g
    case OrLast(c) => AndPrintParseWhole(c, rest);
    case OrMore(init, right) =>
      var more := [Op("||")] + PrintAnd(right) + rest;
      assert PrintOr(g) + rest == PrintOr(init) + more;
      OrPrintParse(init, more);
      assert more[1..] == PrintAnd(right) + rest;
      AndPrintParseWhole(right, rest);
  }

  lemma {:induction false} AndPrintParseWhole(g: And, rest: seq<Tok>)
    requires WfAnd(g) && HasFreeAnd(g) && EndsAnd(rest)
    ensures ParseAnd(PrintAnd(g) + rest) == Some((g, rest))
    decreases g, 1
  {
    AndPrintParse(g, rest);
  }

  lemma {:induction false} AndPrintParse(g: And, rest: seq<Tok>)
    requires WfAnd(g) && HasFreeAnd(g) && EndsComp(rest)
    ensures ParseAnd(PrintAnd(g) + rest) == ParseAndTail(g, rest)
    decreases g, 0
  {
    match g
    case AndLast(t) => NotPrintParse(t, rest);
    case AndMore(init, right) =>
      var more := [Op("&&")] + PrintNot(right) + rest;
      assert PrintAnd(g) + rest == PrintAnd(init) + more;
      AndPrintParse(init, more);
      assert more[1..] == PrintNot(right) + rest;
      NotPrintParse(right, rest);
  }

  lemma {:induction false} NotPrintParse(g: Not, rest: seq<Tok>)
    requires WfNot(g) && HasFreeNot(g) && EndsComp(rest)
    ensures ParseNot(PrintNot(g) + rest) == Some((g, rest))
  {
    match g
    case Negate(t) =>
      NotPrintParse(t, rest);
      assert (PrintNot(g) + rest)[1..] == PrintNot(t) + rest;
    case Plain(c) =>
      CompPrintParse(c, rest);
      PrimaryHead(if c.Bare? then c.p else c.l);
  }

  lemma {:induction false} CompPrintParse(g: Comp, rest: seq<Tok>)
    requires WfComp(g) && HasFreeNot(Plain(g)) && EndsComp(rest)
    ensures ParseComp(PrintComp(g) + rest) == Some((g, rest))
  {
    match g
    case Bare(p) => PrimaryPrintParse(p, rest);
    case Compare(l, op, r) =>
      var more := [ComparatorTok(op)] + PrintPrimary(r) + rest;
      assert PrintComp(g) + rest == PrintPrimary(l) + more;
      PrimaryPrintParse(l, more);
      assert more[1..] == PrintPrimary(r) + rest;
      PrimaryPrintParse(r, rest);
  }

  // A printed primary is not empty and starts with no operator that its context would react to.
  lemma PrimaryHead(p: Primary)
    requires WfPrimary(p)
    ensures PrintPrimary(p) != [] && !Starts(PrintPrimary(p), "!") && !Starts(PrintPrimary(p), "]")
  {
  }

  lemma {:induction false} PrimaryPrintParse(p: Primary, rest: seq<Tok>)
    requires WfPrimary(p) && HasFreePrimary(p)
    ensures ParsePrimary(PrintPrimary(p) + rest) == Some((p, rest))
  {
    var ts := PrintPrimary(p) + rest;
    match p
    case Paren(g) =>
      assert ts[1..] == PrintOr(g) + ([Op(")")] + rest);
      ParenPrintParse(g, rest);
    case Size(g) =>
      assert ts[2..] == PrintOr(g) + ([Op(")")] + rest);
      ParenPrintParse(g, rest);
    case ListP(items) =>
      var more := [Op("]")] + rest;
      assert ts[1..] == PrintItems(items) + more;
      assert more[1..] == rest;
      ItemsHead(items);
      ItemsPrintParse(items, more);
    case RefP(_) => assert ts[1..] == rest;
    case NumP(_) => assert ts[1..] == rest;
    case StrP(_) => assert ts[1..] == rest;
    case Keyword(_) => assert ts[1..] == rest;
    case EmptyList =>
      assert ts[1..] == [Op("]")] + rest;
      assert ts[1..][1..] == rest;
  }

  lemma {:induction false} ParenPrintParse(g: Or, rest: seq<Tok>)
    requires WfOr(g) && HasFreeOr(g)
    ensures ParseParen(PrintOr(g) + ([Op(")")] + rest)) == Some((g, rest))
    decreases g, 1
  {
    var more := [Op(")")] + rest;
    OrPrintParse(g, more);
    assert more[1..] == rest;
  }

  lemma {:induction false} ItemsHead(items: Items)
    requires WfItems(items)
    ensures PrintItems(items) != [] && !Starts(PrintItems(items), "]")
  {
    match items
    case One(p) => PrimaryHead(p);
    case More(init, _) => ItemsHead(init);
  }

  lemma {:induction false} ItemsPrintParse(items: Items, rest: seq<Tok>)
    requires WfItems(items) && HasFreeItems(items)
    ensures ParsePrimary(PrintItems(items) + rest).Some?
    ensures var first := ParsePrimary(PrintItems(items) + rest).value;
            ParseItemsTail(One(first.0), first.1) == ParseItemsTail(items, rest)
  {
    match items
    case One(p) => PrimaryPrintParse(p, rest);
    case More(init, last) =>
      var more := [Op(",")] + PrintPrimary(last) + rest;
      assert PrintItems(items) + rest == PrintItems(init) + more;
      ItemsPrintParse(init, more);
      assert more[1..] == PrintPrimary(last) + rest;
      PrimaryPrintParse(last, rest);
  }

  /** Printing any guard of the grammar and parsing the tokens gives the same tree, nothing left over. */
  lemma GuardPrintParse(g: Or)
    requires WfOr(g) && HasFreeOr(g)
    ensures ParseOr(PrintOr(g)) == Some((g, []))
  {
    assert PrintOr(g) + [] == PrintOr(g);
    OrPrintParse(g, []);
  }

  // --- parsing then printing gives the tokens back: the grammar is unambiguous -------------------

  lemma {:induction false} OrParsePrint(ts: seq<Tok>)
    ensures var r := ParseOr(ts);
            r.Some? ==> WfOr(r.value.0) && ts == PrintOr(r.value.0) + r.value.1
    decreases |ts|, 4
  {
    AndParsePrint(ts);
    if ParseAnd(ts).Some? {
      var (c, rest) := ParseAnd(ts).value;
      OrTailParsePrint(OrLast(c), rest);
    }
  }

  lemma {:induction false} OrTailParsePrint(acc: Or, ts: seq<Tok>)
    requires WfOr(acc)
    ensures var r := ParseOrTail(acc, ts);
            r.Some? ==> WfOr(r.value.0) && PrintOr(acc) + ts == PrintOr(r.value.0) + r.value.1
    decreases |ts|, 5
  {
    if Starts(ts, "||") {
      AndParsePrint(ts[1..]);
      if ParseAnd(ts[1..]).Some? {
        var (c, rest) := ParseAnd(ts[1..]).value;
        OrTailParsePrint(OrMore(acc, c), rest);
        assert PrintOr(acc) + ts == PrintOr(OrMore(acc, c)) + rest;
      }
    }
  }

  lemma {:induction false} AndParsePrint(ts: seq<Tok>)
    ensures var r := ParseAnd(ts);
            r.Some? ==> WfAnd(r.value.0) && ts == PrintAnd(r.value.0) + r.value.1
    decreases |ts|, 3
  {
    NotParsePrint(ts);
    if ParseNot(ts).Some? {
      var (t, rest) := ParseNot(ts).value;
      AndTailParsePrint(AndLast(t), rest);
    }
  }

  lemma {:induction false} AndTailParsePrint(acc: And, ts: seq<Tok>)
    requires WfAnd(acc)
    ensures var r := ParseAndTail(acc, ts);
            r.Some? ==> WfAnd(r.value.0) && PrintAnd(acc) + ts == PrintAnd(r.value.0) + r.value.1
    decreases |ts|, 5
  {
    if Starts(ts, "&&") {
      NotParsePrint(ts[1..]);
      if ParseNot(ts[1..]).Some? {
        var (t, rest) := ParseNot(ts[1..]).value;
        AndTailParsePrint(AndMore(acc, t), rest);
        assert PrintAnd(acc) + ts == PrintAnd(AndMore(acc, t)) + rest;
      }
    }
  }

  lemma {:induction false} NotParsePrint(ts: seq<Tok>)
    ensures var r := ParseNot(ts);
            r.Some? ==> WfNot(r.value.0) && ts == PrintNot(r.value.0) + r.value.1
    decreases |ts|, 2
  {
    if Starts(ts, "!") {
      NotParsePrint(ts[1..]);
      assert ts == [Op("!")] + ts[1..];
    } else {
      CompParsePrint(ts);
    }
  }

  lemma {:induction false} CompParsePrint(ts: seq<Tok>)
    ensures var r := ParseComp(ts);
            r.Some? ==> WfComp(r.value.0) && ts == PrintComp(r.value.0) + r.value.1
    decreases |ts|, 1
  {
    PrimaryParsePrint(ts);
    if ParsePrimary(ts).Some? {
      var (l, rest) := ParsePrimary(ts).value;
      if StartsComparator(rest) {
        PrimaryParsePrint(rest[1..]);
        if ParsePrimary(rest[1..]).Some? {
          var (r, after) := ParsePrimary(rest[1..]).value;
          ComparisonTokens(ts, PrintPrimary(l), rest, PrintPrimary(r), after);
        }
      }
    }
  }

  lemma ComparisonTokens(ts: seq<Tok>, left: seq<Tok>, rest: seq<Tok>, right: seq<Tok>, after: seq<Tok>)
    requires ts == left + rest && rest != [] && rest[1..] == right + after
    ensures ts == left + [rest[0]] + right + after
  {
    assert rest == [rest[0]] + rest[1..];
  }

  lemma {:induction false} PrimaryParsePrint(ts: seq<Tok>)
    ensures var r := ParsePrimary(ts);
            r.Some? ==> WfPrimary(r.value.0) && ts == PrintPrimary(r.value.0) + r.value.1
    decreases |ts|, 0
  {
    if ParsePrimary(ts).Some? {
      assert ts == [ts[0]] + ts[1..];
      if ts[0] == Name("size") {
        assert ts[1..] == [Op("(")] + ts[2..];
        ParenParsePrint(ts[2..]);
      } else if ts[0] == Op("(") {
        ParenParsePrint(ts[1..]);
      } else if ts[0] == Op("[") {
        ListParsePrint(ts);
      }
    }
  }

  lemma {:induction false} ListParsePrint(ts: seq<Tok>)
    requires ParsePrimary(ts).Some? && ts[0] == Op("[")
    ensures var r := ParsePrimary(ts);
            WfPrimary(r.value.0) && ts == PrintPrimary(r.value.0) + r.value.1
    decreases |ts[1..]|, 6
  {
    assert ts == [ts[0]] + ts[1..];
    if Starts(ts[1..], "]") {
      assert ts[1..] == [Op("]")] + ts[1..][1..];
    } else {
      PrimaryParsePrint(ts[1..]);
      var (p, rest) := ParsePrimary(ts[1..]).value;
      ItemsTailParsePrint(One(p), rest);
    }
  }

  lemma {:induction false} ParenParsePrint(ts: seq<Tok>)
    ensures var r := ParseParen(ts);
            r.Some? ==> WfOr(r.value.0) && ts == PrintOr(r.value.0) + [Op(")")] + r.value.1
    decreases |ts|, 5
  {
    OrParsePrint(ts);
    if ParseParen(ts).Some? {
      var rest := ParseOr(ts).value.1;
      assert rest == [Op(")")] + rest[1..];
    }
  }

  lemma {:induction false} ItemsTailParsePrint(acc: Items, ts: seq<Tok>)
    requires WfItems(acc)
    ensures var r := ParseItemsTail(acc, ts);
            r.Some? ==> WfItems(r.value.0) &&
                        PrintItems(acc) + ts == PrintItems(r.value.0) + [Op("]")] + r.value.1
    decreases |ts|, 5
  {
    if Starts(ts, ",") {
      PrimaryParsePrint(ts[1..]);
      if ParsePrimary(ts[1..]).Some? {
        var (p, rest) := ParsePrimary(ts[1..]).value;
        ItemsTailParsePrint(More(acc, p), rest);
        assert PrintItems(acc) + ts == PrintItems(More(acc, p)) + rest;
      }
    } else if Starts(ts, "]") {
      assert ts == [Op("]")] + ts[1..];
    }
  }

  /** A token list is accepted exactly when it is the print of a guard, and that guard is the only one. */
  lemma AcceptsExactlyPrints(ts: seq<Tok>, g: Or)
    requires WfOr(g) && HasFreeOr(g)
    ensures ParseOr(ts) == Some((g, [])) <==> ts == PrintOr(g)
  {
    OrParsePrint(ts);
    GuardPrintParse(g);
    assert PrintOr(g) + [] == PrintOr(g);
  }
}
