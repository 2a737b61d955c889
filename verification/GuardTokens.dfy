/** What tokens a guard of the grammar has, and which the parser refuses. */
module GuardTokens {
  import opened Values
  import opened Guards
  import opened GuardEval

  // --- the grammar's own tokens ------------------------------------------------------------------------------

  // A name that stands for nothing in a guard.
  predicate Stray(t: Tok) {
    t.Name? && !IsKeyword(t.text) && t.text != "size" && t.text != "in"
  }

  predicate HasStray(ts: seq<Tok>) { exists i :: 0 <= i < |ts| && Stray(ts[i]) }

  // What may stand before an opening parenthesis.
  predicate MayOpen(t: Tok) { t.Op? || t == Name("has") || t == Name("size") || t == Name("in") }

  predicate WellCalled(ts: seq<Tok>) {
    forall i :: 0 <= i < |ts| - 1 && ts[i + 1] == Op("(") ==> MayOpen(ts[i])
  }

  lemma JoinedWell(a: seq<Tok>, t: Tok, b: seq<Tok>)
    requires WellCalled(a) && WellCalled(b) && MayOpen(t) && t != Op("(")
    ensures WellCalled(a + ([t] + b))
  {
    var ts := a + ([t] + b);
    forall i | 0 <= i < |ts| - 1 && ts[i + 1] == Op("(") ensures MayOpen(ts[i]) {
      if i + 1 < |a| {
        assert ts[i] == a[i] && ts[i + 1] == a[i + 1];
      } else if i > |a| {
        assert ts[i] == b[i - |a| - 1] && ts[i + 1] == b[i - |a|];
      } else {
        assert ts[|a|] == t;
      }
    }
  }

  lemma BracketedWell(t: Tok, a: seq<Tok>, close: Tok)
    requires WellCalled(a) && MayOpen(t) && close != Op("(")
    ensures WellCalled([t] + (a + [close]))
  {
    var ts := [t] + (a + [close]);
    forall i | 0 <= i < |ts| - 1 && ts[i + 1] == Op("(") ensures MayOpen(ts[i]) {
      if 0 < i <= |a| {
        assert ts[i] == a[i - 1] && (i < |a| ==> ts[i + 1] == a[i]);
      }
    }
  }

  lemma OpenedWell(t: Tok, ts: seq<Tok>)
    requires WellCalled(ts) && MayOpen(t)
    ensures WellCalled([t] + ts)
  {
  }

  lemma {:induction false} PrintedOr(g: Or)
    requires WfOr(g)
    ensures WellCalled(PrintOr(g)) && (HasFreeOr(g) ==> !HasStray(PrintOr(g)))
  {
    match g
    case OrLast(c) => PrintedAnd(c);
    case OrMore(init, right) =>
      PrintedOr(init);
      PrintedAnd(right);
      JoinedWell(PrintOr(init), Op("||"), PrintAnd(right));
  }

  lemma {:induction false} PrintedAnd(g: And)
    requires WfAnd(g)
    ensures WellCalled(PrintAnd(g)) && (HasFreeAnd(g) ==> !HasStray(PrintAnd(g)))
  {
    match g
    case AndLast(t) => PrintedNot(t);
    case AndMore(init, right) =>
      PrintedAnd(init);
      PrintedNot(right);
      JoinedWell(PrintAnd(init), Op("&&"), PrintNot(right));
  }

  lemma {:induction false} PrintedNot(g: Not)
    requires WfNot(g)
    ensures WellCalled(PrintNot(g)) && (HasFreeNot(g) ==> !HasStray(PrintNot(g)))
  {
    match g
    case Negate(t) =>
      PrintedNot(t);
      OpenedWell(Op("!"), PrintNot(t));
    case Plain(Bare(p)) => PrintedPrimary(p);
    case Plain(Compare(l, op, r)) =>
      PrintedPrimary(l);
      PrintedPrimary(r);
      JoinedWell(PrintPrimary(l), ComparatorTok(op), PrintPrimary(r));
  }

  lemma {:induction false} PrintedPrimary(p: Primary)
    requires WfPrimary(p)
    ensures WellCalled(PrintPrimary(p)) && (HasFreePrimary(p) ==> !HasStray(PrintPrimary(p)))
  {
    match p
    case Paren(g) =>
      PrintedOr(g);
      BracketedWell(Op("("), PrintOr(g), Op(")"));
    case Size(g) =>
      PrintedOr(g);
      BracketedWell(Op("("), PrintOr(g), Op(")"));
      OpenedWell(Name("size"), [Op("(")] + (PrintOr(g) + [Op(")")]));
    case ListP(items) =>
      PrintedItems(items);
      BracketedWell(Op("["), PrintItems(items), Op("]"));
    case _ =>
  }

  lemma {:induction false} PrintedItems(items: Items)
    requires WfItems(items)
    ensures WellCalled(PrintItems(items)) && (HasFreeItems(items) ==> !HasStray(PrintItems(items)))
  {
    match items
    case One(p) => PrintedPrimary(p);
    case More(init, last) =>
      PrintedItems(init);
      PrintedPrimary(last);
      JoinedWell(PrintItems(init), Op(","), PrintPrimary(last));
  }

  // --- the parser reads no `has` ---------------------------------------------------------------------------

  lemma {:induction false} OrHasNone(ts: seq<Tok>)
    ensures ParseOr(ts).Some? ==> HasFreeOr(ParseOr(ts).value.0)
    decreases |ts|, 4
  {
    AndHasNone(ts);
    if ParseAnd(ts).Some? {
      OrTailHasNone(OrLast(ParseAnd(ts).value.0), ParseAnd(ts).value.1);
    }
  }

  lemma {:induction false} OrTailHasNone(acc: Or, ts: seq<Tok>)
    requires HasFreeOr(acc)
    ensures ParseOrTail(acc, ts).Some? ==> HasFreeOr(ParseOrTail(acc, ts).value.0)
    decreases |ts|, 5
  {
    if Starts(ts, "||") {
      AndHasNone(ts[1..]);
      if ParseAnd(ts[1..]).Some? {
        var (c, rest) := ParseAnd(ts[1..]).value;
        OrTailHasNone(OrMore(acc, c), rest);
      }
    }
  }

  lemma {:induction false} AndHasNone(ts: seq<Tok>)
    ensures ParseAnd(ts).Some? ==> HasFreeAnd(ParseAnd(ts).value.0)
    decreases |ts|, 3
  {
    NotHasNone(ts);
    if ParseNot(ts).Some? {
      AndTailHasNone(AndLast(ParseNot(ts).value.0), ParseNot(ts).value.1);
    }
  }

  lemma {:induction false} AndTailHasNone(acc: And, ts: seq<Tok>)
    requires HasFreeAnd(acc)
    ensures ParseAndTail(acc, ts).Some? ==> HasFreeAnd(ParseAndTail(acc, ts).value.0)
    decreases |ts|, 5
  {
    if Starts(ts, "&&") {
      NotHasNone(ts[1..]);
      if ParseNot(ts[1..]).Some? {
        var (t, rest) := ParseNot(ts[1..]).value;
        AndTailHasNone(AndMore(acc, t), rest);
      }
    }
  }

  lemma {:induction false} NotHasNone(ts: seq<Tok>)
    ensures ParseNot(ts).Some? ==> HasFreeNot(ParseNot(ts).value.0)
    decreases |ts|, 2
  {
    if Starts(ts, "!") {
      NotHasNone(ts[1..]);
    } else {
      PrimaryHasNone(ts);
      if ParsePrimary(ts).Some? && StartsComparator(ParsePrimary(ts).value.1) {
        PrimaryHasNone(ParsePrimary(ts).value.1[1..]);
      }
    }
  }

  lemma {:induction false} PrimaryHasNone(ts: seq<Tok>)
    ensures ParsePrimary(ts).Some? ==> HasFreePrimary(ParsePrimary(ts).value.0)
    decreases |ts|, 0
  {
    if ts != [] {
      if ts[0] == Name("size") && Starts(ts[1..], "(") {
        OrHasNone(ts[2..]);
      } else if ts[0] == Op("(") {
        OrHasNone(ts[1..]);
      } else if ts[0] == Op("[") {
        ListHasNone(ts[1..]);
      }
    }
  }

  lemma {:induction false} ListHasNone(ts: seq<Tok>)
    ensures ParseList(ts).Some? ==> HasFreePrimary(ParseList(ts).value.0)
    decreases |ts|, 5
  {
    if !Starts(ts, "]") {
      PrimaryHasNone(ts);
      if ParsePrimary(ts).Some? {
        ItemsTailHasNone(One(ParsePrimary(ts).value.0), ParsePrimary(ts).value.1);
      }
    }
  }

  lemma {:induction false} ItemsTailHasNone(acc: Items, ts: seq<Tok>)
    requires HasFreeItems(acc)
    ensures ParseItemsTail(acc, ts).Some? ==> HasFreeItems(ParseItemsTail(acc, ts).value.0)
    decreases |ts|, 5
  {
    if Starts(ts, ",") {
      PrimaryHasNone(ts[1..]);
      if ParsePrimary(ts[1..]).Some? {
        var (p, rest) := ParsePrimary(ts[1..]).value;
        ItemsTailHasNone(More(acc, p), rest);
      }
    }
  }

  /** No guard has a stray name in it. */
  lemma StrayIsRefused(ts: seq<Tok>, env: Env)
    requires HasStray(ts)
    ensures Evaluated(ts, env).None?
  {
    OrParsePrint(ts);
    if ParseOr(ts).Some? && ParseOr(ts).value.1 == [] {
      var g := ParseOr(ts).value.0;
      assert PrintOr(g) + [] == PrintOr(g);
      OrHasNone(ts);
      PrintedOr(g);
    }
  }
}
