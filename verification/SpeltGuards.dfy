/** Guards written down lexeme by lexeme, and two guards whose text does not mean what it says. */
module SpeltGuards {
  import opened Values
  import opened References
  import opened Guards
  import opened GuardEval
  import opened GuardText
  import opened Lexemes
  import opened HasInText
  import opened GuardTokens
  import opened GuardMeaning

  // --- writing a guard down --------------------------------------------------------------------------

  predicate IsLexeme(x: string) { x != "" && !IsSpace(x[0]) && LexemeRun(x) == |x| }

  predicate AreLexemes(xs: seq<string>) { forall i :: 0 <= i < |xs| ==> IsLexeme(xs[i]) }

  predicate OpensCall(xs: seq<string>) { |xs| > 1 && xs[0] == "has" && xs[1] == "(" }

  // The lexemes in a row, with a blank after each but `has` before its parenthesis.
  function Spelt(xs: seq<string>): string {
    if xs == [] then ""
    else if OpensCall(xs) then xs[0] + Spelt(xs[1..])
    else xs[0] + (" " + Spelt(xs[1..]))
  }

  function TokensOf(xs: seq<string>): seq<Tok>
    requires AreLexemes(xs)
  {
    if xs == [] then [] else [TokenOf(xs[0])] + TokensOf(xs[1..])
  }

  lemma BlankIsSkipped(t: string)
    ensures Tokens(" " + t) == Tokens(t)
  {
    assert (" " + t)[1..] == t;
    BlanksAreSkipped(" " + t);
    BlanksAreSkipped(t);
    assert (" " + t)[1 + SpaceRun(t)..] == t[SpaceRun(t)..];
  }

  // A blank or a parenthesis goes on no lexeme.
  lemma EndsLexeme(x: string, rest: string)
    requires IsLexeme(x) && rest != "" && (rest[0] == ' ' || rest[0] == '(')
    ensures LexemeRun(x + rest) == |x|
  {
    assert x + "" == x;
    NoSegment(rest);
    LexemeEndsAlike(x, "", rest);
  }

  function AfterFirst(xs: seq<string>): string
    requires xs != []
  {
    if OpensCall(xs) then Spelt(xs[1..]) else " " + Spelt(xs[1..])
  }

  lemma FirstOfSpelt(xs: seq<string>)
    requires xs != [] && AreLexemes(xs)
    ensures Spelt(xs) == xs[0] + AfterFirst(xs) && LexemeRun(Spelt(xs)) == |xs[0]|
    ensures !IsSpace(Spelt(xs)[0]) && Spelt(xs)[..|xs[0]|] == xs[0] && Spelt(xs)[|xs[0]|..] == AfterFirst(xs)
  {
    if OpensCall(xs) {
      assert Spelt(xs[1..])[0] == '(';
    }
    EndsLexeme(xs[0], AfterFirst(xs));
  }

  lemma {:induction false} SpeltIsRead(xs: seq<string>)
    requires AreLexemes(xs)
    ensures Tokens(Spelt(xs)) == Some(TokensOf(xs))
  {
    if xs != [] {
      FirstOfSpelt(xs);
      SpeltIsRead(xs[1..]);
      BlankIsSkipped(Spelt(xs[1..]));
      NextIsRead(xs[0], AfterFirst(xs), [TokenOf(xs[0])]);
    }
  }

  lemma CallSpelt(x: string, t: string)
    requires IsLexeme(x) && x[0] == '$'
    ensures FindCall("has" + ("(" + (" " + (x + (" " + (")" + t)))))) == Some(Found(RefOf(x), t))
  {
    var u := x + (" " + (")" + t));
    var s := "has" + ("(" + (" " + u));
    assert s[..4] == "has(" && s[4..] == " " + u;
    BlankThen(u);
    EndsLexeme(x, " " + (")" + t));
    assert u[..|x|] == x && u[|x|..] == " " + (")" + t);
    BlankThen(")" + t);
    assert (")" + t)[1..] == t;
  }

  // One blank before something else.
  lemma BlankThen(u: string)
    requires u != "" && !IsSpace(u[0])
    ensures Unblanked(" " + u) == u
  {
    assert (" " + u)[1..] == u;
    SpaceRunIs(" " + u, 1);
  }

  lemma TidyBlank(t: string, find: string -> Option<Found>)
    requires Finder(find) && Tidy(t, find) && !StartsSpace(t)
    ensures Tidy(" " + t, find)
  {
    var s := " " + t;
    assert s[1..] == t && s[0] == ' ' && s[0..] == s;
    SpaceRunIs(s, 1);
    assert find(s).None? by {
      assert |s| >= 4 ==> s[..4][0] == s[0];
    }
  }

  lemma NotSpaced(xs: seq<string>)
    requires AreLexemes(xs)
    ensures !StartsSpace(Spelt(xs))
  {
    if xs != [] {
      FirstOfSpelt(xs);
    }
  }

  // `has`, a parenthesis, a reference, a parenthesis.
  predicate SpellsCall(xs: seq<string>) {
    |xs| >= 4 && OpensCall(xs) && IsLexeme(xs[2]) && xs[2][0] == '$' && xs[3] == ")"
  }

  lemma CallIsFound(xs: seq<string>)
    requires AreLexemes(xs) && SpellsCall(xs)
    ensures FindCall(Spelt(xs)) == Some(Found(RefOf(xs[2]), " " + Spelt(xs[4..])))
  {
    var t := " " + Spelt(xs[4..]);
    assert xs[3..][1..] == xs[4..] && Spelt(xs[3..]) == ")" + t;
    assert xs[2..][1..] == xs[3..] && xs[2..][0] == xs[2];
    assert Spelt(xs[2..]) == xs[2] + (" " + (")" + t));
    assert xs[1..][1..] == xs[2..] && Spelt(xs[1..]) == "(" + (" " + Spelt(xs[2..]));
    CallSpelt(xs[2], t);
  }

  lemma TokensFirst(xs: seq<string>)
    requires AreLexemes(xs) && TokensOf(xs) != []
    ensures xs != [] && TokensOf(xs)[0] == TokenOf(xs[0]) && TokensOf(xs)[1..] == TokensOf(xs[1..])
  {
    assert ([TokenOf(xs[0])] + TokensOf(xs[1..]))[1..] == TokensOf(xs[1..]);
  }

  lemma LexemeOf(x: string)
    requires IsLexeme(x)
    ensures TokenOf(x).Name? || TokenOf(x).Op? ==> TokenOf(x).text == x
    ensures TokenOf(x).RefTok? ==> x[0] == '$'
  {
  }

  // Only these lexemes give the tokens of a call.
  lemma LexemesOfCall(xs: seq<string>)
    requires AreLexemes(xs) && IsHasCall(TokensOf(xs))
    ensures SpellsCall(xs)
  {
    var ts := TokensOf(xs);
    TokensFirst(xs);
    TokensFirst(xs[1..]);
    assert xs[1..][1..] == xs[2..] && ts[1..][1..] == ts[2..];
    TokensFirst(xs[2..]);
    assert xs[2..][1..] == xs[3..] && ts[2..][1..] == ts[3..];
    TokensFirst(xs[3..]);
    assert ts[1] == TokenOf(xs[1]) && ts[2] == TokenOf(xs[2]) && ts[3] == TokenOf(xs[3]);
    LexemeOf(xs[0]);
    LexemeOf(xs[1]);
    LexemeOf(xs[2]);
    LexemeOf(xs[3]);
  }

  lemma FoundIsRead(s: string, find: string -> Option<Found>)
    requires Finder(find) && find(s).Some? && Tokens(s).Some?
    ensures IsHasCall(Tokens(s).value)
  {
  }

  ghost predicate FindsSpelt(find: string -> Option<Found>) {
    forall xs :: AreLexemes(xs) && SpellsCall(xs) ==>
      find(Spelt(xs)) == Some(Found(RefOf(xs[2]), " " + Spelt(xs[4..])))
  }

  lemma {:induction false} SpeltIsTidy(xs: seq<string>, find: string -> Option<Found>)
    requires Finder(find) && FindsSpelt(find) && AreLexemes(xs) && WellCalled(TokensOf(xs))
    ensures Tidy(Spelt(xs), find)
    decreases |xs|
  {
    if SpellsCall(xs) {
      RestIsWell(xs, find);
      SpeltIsTidy(xs[4..], find);
      NotSpaced(xs[4..]);
      CallIsTidy(Spelt(xs), RefOf(xs[2]), Spelt(xs[4..]), find);
    } else if xs != [] {
      NotFound(xs, find);
      StillWellCalled([TokenOf(xs[0])], TokensOf(xs[1..]));
      SpeltIsTidy(xs[1..], find);
      FirstIsTidy(xs, find);
    }
  }

  lemma RestIsWell(xs: seq<string>, find: string -> Option<Found>)
    requires Finder(find) && FindsSpelt(find) && AreLexemes(xs) && WellCalled(TokensOf(xs)) && SpellsCall(xs)
    ensures WellCalled(TokensOf(xs[4..]))
  {
    SpeltIsRead(xs);
    assert find(Spelt(xs)).Some?;
    CallReadsWell(Spelt(xs), find);
    BlankIsSkipped(Spelt(xs[4..]));
    SpeltIsRead(xs[4..]);
  }

  lemma FoundIsTidy(s: string, find: string -> Option<Found>)
    requires Shrinks(find) && find(s).Some?
    requires !StartsWord(find(s).value.rest) && Tidy(find(s).value.rest, find)
    ensures Tidy(s, find)
  {
  }

  lemma CallIsTidy(s: string, r: Reference, t: string, find: string -> Option<Found>)
    requires Finder(find) && find(s) == Some(Found(r, " " + t)) && Tidy(t, find) && !StartsSpace(t)
    ensures Tidy(s, find)
  {
    TidyBlank(t, find);
    FoundIsTidy(s, find);
  }

  lemma NotFound(xs: seq<string>, find: string -> Option<Found>)
    requires Finder(find) && AreLexemes(xs) && !SpellsCall(xs)
    ensures find(Spelt(xs)).None? && !IsHasCall(TokensOf(xs))
  {
    SpeltIsRead(xs);
    if find(Spelt(xs)).Some? {
      FoundIsRead(Spelt(xs), find);
    }
    if IsHasCall(TokensOf(xs)) {
      LexemesOfCall(xs);
    }
  }

  lemma FirstIsTidy(xs: seq<string>, find: string -> Option<Found>)
    requires Finder(find) && xs != [] && AreLexemes(xs) && WellCalled(TokensOf(xs))
    requires find(Spelt(xs)).None? && !IsHasCall(TokensOf(xs)) && Tidy(Spelt(xs[1..]), find)
    ensures Tidy(Spelt(xs), find)
  {
    NotSpaced(xs[1..]);
    TidyBlank(Spelt(xs[1..]), find);
    FirstOfSpelt(xs);
    SpeltIsRead(xs);
    if !IsQuote(Spelt(xs)[0]) {
      NoCallInLexeme(Spelt(xs), find);
    }
  }

  lemma SpeltIsWellWritten(xs: seq<string>)
    requires AreLexemes(xs) && WellCalled(TokensOf(xs))
    ensures WellWritten(Spelt(xs))
  {
    CallsAreFound();
    forall xs | AreLexemes(xs) && SpellsCall(xs)
      ensures FindCall(Spelt(xs)) == Some(Found(RefOf(xs[2]), " " + Spelt(xs[4..])))
    {
      CallIsFound(xs);
    }
    SpeltIsTidy(xs, FindCall);
  }

  /** Every guard whose tokens are written down as lexemes with blanks between them means what it says, unless
      there is a call of `has` in one of its strings. */
  lemma SpeltGuardMeansItsDenotation(g: Or, xs: seq<string>, env: Env)
    requires WfOr(g) && AreLexemes(xs) && TokensOf(xs) == PrintOr(g) && PlainStrings(PrintOr(g), FindCall)
    ensures TextValue(Spelt(xs), env) ==
            match DenoteOr(g, env)
            case Some(Bool(b)) => Some(b)
            case _ => None
  {
    PrintedOr(g);
    SpeltIsRead(xs);
    SpeltIsWellWritten(xs);
    GuardTextMeansItsDenotation(Spelt(xs), g, env);
  }

  // --- every token of a guard can be written -----------------------------------------------------------

  lemma {:induction false} PrintedPathRun(path: seq<Segment>)
    requires WellFormedPath(path)
    ensures PathRun(PrintSegments(path)) == |PrintSegments(path)|
  {
    if path != [] {
      var tail := PrintSegments(path[1..]);
      assert path[0] in path;
      PrintedPathHead(path[1..]);
      PrintedPathRun(path[1..]);
      PrintedSegmentRun(path[0], tail);
      PathStep(PrintSegment(path[0]), tail);
    }
  }

  lemma PrintedFieldRun(s: string, name: string, tail: string)
    requires IsIdentifier(name) && s != "" && s[0] == '.' && s[1..] == name + tail && (tail == "" || !IsWord(tail[0]))
    ensures SegmentRun(s) == 1 + |name|
  {
    WordRunStops(name, tail);
    assert s[1] == s[1..][0] == name[0];
  }

  lemma PrintedIndexRun(s: string, d: string, tail: string)
    requires AllDigits(d) && s != "" && s[0] == '[' && s[1..] == d + ("]" + tail)
    ensures SegmentRun(s) == 2 + |d|
  {
    DigitRunStops(d, "]" + tail);
    assert s[1 + |d|] == s[1..][|d|] == ']';
  }

  lemma PrintedSegmentRun(seg: Segment, tail: string)
    requires seg.Field? ==> IsIdentifier(seg.name)
    requires tail == "" || tail[0] == '.' || tail[0] == '['
    ensures PrintSegment(seg) != "" && SegmentRun(PrintSegment(seg) + tail) == |PrintSegment(seg)|
  {
    match seg
    case Field(name) =>
      assert ("." + name + tail)[1..] == name + tail;
      PrintedFieldRun("." + name + tail, name, tail);
    case Index(i) =>
      var d := Decimal(i);
      assert ("[" + d + "]" + tail)[1..] == d + ("]" + tail);
      PrintedIndexRun("[" + d + "]" + tail, d, tail);
  }

  lemma PrintedRefRun(r: Reference)
    requires WellFormed(r)
    ensures RefRun(PrintReference(r)) == |PrintReference(r)|
  {
    var path := PrintSegments(r.segments);
    PrintedPathHead(r.segments);
    SourceRunOf(r.source, path);
    PrintedPathRun(r.segments);
    DollarFirst(r.source, path);
    RefParts(PrintReference(r), |r.source|);
  }

  lemma DollarFirst(source: string, path: string)
    ensures var s := "$." + (source + path);
            |s| == 2 + |source| + |path| && s[0] == '$' && s[1] == '.' && s[2..] == source + path &&
            s[2 + |source|..] == path
  {
  }

  /** A well-formed reference is written as it is printed. */
  lemma ReferencesAreWritten(r: Reference)
    requires WellFormed(r)
    ensures IsLexeme(PrintReference(r)) && TokenOf(PrintReference(r)) == RefTok(r)
  {
    PrintedRefRun(r);
    ReferenceRoundTrip(r);
    assert PrintReference(r) + "" == PrintReference(r);
    RefAlone(PrintReference(r), "");
  }

  /** A text without the quote is written in quotes, a name and an integer as they are. */
  lemma LeavesAreWritten(quote: char, text: string, name: string, n: nat)
    requires IsQuote(quote) && quote !in text && IsIdentifier(name)
    ensures var x := [quote] + (text + [quote]); IsLexeme(x) && TokenOf(x) == StrLit(text)
    ensures IsLexeme(name) && TokenOf(name) == Name(name)
    ensures IsLexeme(Decimal(n)) && TokenOf(Decimal(n)) == Number(Int(n))
    ensures IsLexeme("-" + Decimal(n)) && TokenOf("-" + Decimal(n)) == Number(Int(-(n as int)))
  {
    QuotedIsWritten(quote, text);
    assert name + "" == name;
    WordAlone(name, "");
    IntegerIsRead(n);
  }

  lemma QuotedIsWritten(quote: char, text: string)
    requires IsQuote(quote) && quote !in text
    ensures var x := [quote] + (text + [quote]); IsLexeme(x) && TokenOf(x) == StrLit(text)
  {
    var x := [quote] + (text + [quote]);
    assert x[1..] == text + [quote] && (text + [quote])[..|text|] == text && (text + [quote])[|text|..] == [quote];
    QuotedRunIs(x[1..], quote, |text|);
    assert x[1..|x| - 1] == text;
  }

  lemma LongOpsAreWritten(op: string)
    requires |op| == 2 && IsLongOp(op[0], op[1])
    ensures IsLexeme(op) && TokenOf(op) == Op(op)
  {
  }

  lemma ShortOpsAreWritten(op: string)
    requires |op| == 1 && IsShortOp(op[0])
    ensures IsLexeme(op) && TokenOf(op) == Op(op)
  {
  }

  /** And so are the operators of the grammar. */
  lemma OperatorsAreWritten(op: string)
    requires op in ["||", "&&", "!", "==", "!=", "<", "<=", ">", ">=", "(", ")", "[", "]", ","]
    ensures IsLexeme(op) && TokenOf(op) == Op(op)
  {
    if |op| == 2 {
      LongOpsAreWritten(op);
    } else {
      ShortOpsAreWritten(op);
    }
  }

  // --- two guards that do not mean what they say ------------------------------------------------------

  // The guard that asks for a reference, and one that compares a text with `true`.
  function Asking(r: Reference): Or { OrLast(AndLast(Plain(Bare(Has(r))))) }

  function Comparison(text: string): Comp { Compare(StrP(text), "==", StrP("true")) }

  function Comparing(text: string): Or { OrLast(AndLast(Plain(Comparison(text)))) }

  lemma AskingPrinted(r: Reference)
    ensures WfOr(Asking(r)) && PrintOr(Asking(r)) == CallTokens(r)
  {
    var p := Has(r);
    assert PrintPrimary(p) == CallTokens(r) && PrintComp(Bare(p)) == CallTokens(r) && WfComp(Bare(p));
    assert PrintNot(Plain(Bare(p))) == CallTokens(r) && WfNot(Plain(Bare(p)));
    assert PrintAnd(AndLast(Plain(Bare(p)))) == CallTokens(r);
  }

  function ComparingTokens(text: string): seq<Tok> { [StrLit(text), Op("=="), StrLit("true")] }

  lemma ComparingPrinted(text: string, env: Env)
    ensures WfOr(Comparing(text)) && PrintOr(Comparing(text)) == ComparingTokens(text)
    ensures GuardValue(ComparingTokens(text), env) == Some(text == "true")
  {
    var t := Plain(Comparison(text));
    var l, r := StrP(text), StrP("true");
    assert WfPrimary(l) && WfPrimary(r) && PrintPrimary(l) == [StrLit(text)] && PrintPrimary(r) == [StrLit("true")];
    assert WfComp(Comparison(text)) && PrintComp(Comparison(text)) == ComparingTokens(text);
    assert PrintNot(t) == ComparingTokens(text) && WfNot(t) && PrintAnd(AndLast(t)) == ComparingTokens(text);
    assert DenoteNot(t, env) == Some(Bool(text == "true"));
    assert DenoteAnd(AndLast(t), env) == Some(Bool(text == "true"));
    GuardMeansItsDenotation(Comparing(text), env);
  }

  function OpenRef(x: string): string { "(" + (x + ")") }

  function SpacedHas(x: string): string { "has" + (" " + OpenRef(x)) }

  lemma RefAndParen(x: string)
    requires IsLexeme(x) && x[0] == '$'
    ensures Tokens(x + ")") == Before([RefTok(RefOf(x))], Before([Op(")")], Some([])))
  {
    assert x + "" == x && ")" + "" == ")";
    NoSegment(")");
    LexemeEndsAlike(x, "", ")");
    RefAlone(x, ")");
    NextIsRead(x, ")", [RefTok(RefOf(x))]);
    ParenAlone(")", "");
    NextIsRead(")", "", [Op(")")]);
  }

  lemma OpenRefIsRead(x: string)
    requires IsLexeme(x) && x[0] == '$'
    ensures Tokens(OpenRef(x)) == Before([Op("(")], Before([RefTok(RefOf(x))], Before([Op(")")], Some([]))))
  {
    RefAndParen(x);
    ParenAlone("(", x + ")");
    NextIsRead("(", x + ")", [Op("(")]);
  }

  lemma HasAndBlank(t: string)
    ensures LexemeRun("has" + (" " + t)) == 3 && ("has" + (" " + t))[3] == ' '
    ensures Tokens("has" + (" " + t)) == Before([Name("has")], Tokens(t))
  {
    BlankIsSkipped(t);
    WordAlone("has", " " + t);
    NextIsRead("has", " " + t, [Name("has")]);
  }

  lemma SpacedHasIsRead(x: string)
    requires IsLexeme(x) && x[0] == '$'
    ensures Tokens(SpacedHas(x)) == Some(CallTokens(RefOf(x)))
  {
    OpenRefIsRead(x);
    HasAndBlank(OpenRef(x));
    CallAssembled(RefOf(x), Some([]));
    NothingAfter(CallTokens(RefOf(x)));
  }

  lemma NoCallWithABlank(s: string, find: string -> Option<Found>)
    requires Finder(find) && |s| >= 4 && s[3] == ' '
    ensures find(s).None?
  {
    assert s[..4] != "has(" by {
      assert s[..4][3] == s[3];
    }
  }

  lemma UnfoundIsUntidy(s: string, find: string -> Option<Found>)
    requires s != "" && !IsSpace(s[0]) && Tokens(s).Some? && IsHasCall(Tokens(s).value)
    requires Shrinks(find) && find(s).None?
    ensures !Tidy(s, find)
  {
  }

  lemma CallIsWellCalled(r: Reference)
    ensures WellCalled(CallTokens(r))
  {
  }

  lemma BlankedIsIllWritten(s: string)
    requires |s| >= 4 && s[3] == ' ' && s[0] == 'h' && Tokens(s).Some? && IsHasCall(Tokens(s).value)
    ensures !WellWritten(s)
  {
    CallsAreFound();
    NoCallWithABlank(s, FindCall);
    UnfoundIsUntidy(s, FindCall);
  }

  /** With a blank before its parenthesis `has` is refused, though the tokens are those of the guard that asks. */
  lemma SpacedHasIsRefused(x: string, env: Env)
    requires IsLexeme(x) && x[0] == '$'
    ensures Tokens(SpacedHas(x)) == Some(PrintOr(Asking(RefOf(x)))) && TextValue(SpacedHas(x), env).None?
  {
    var s := SpacedHas(x);
    AskingPrinted(RefOf(x));
    SpacedHasIsRead(x);
    HasAndBlank(OpenRef(x));
    BlankedIsIllWritten(s);
    CallIsWellCalled(RefOf(x));
    IllWrittenTextIsRefused(s, env);
  }

  function HasText(x: string): string { "has(" + (x + ")") }

  lemma HasTextIsFound(x: string)
    requires IsLexeme(x) && x[0] == '$'
    ensures FindCall(HasText(x)) == Some(Found(RefOf(x), ""))
  {
    var u := x + ")";
    assert HasText(x)[..4] == "has(" && HasText(x)[4..] == u;
    SpaceRunIs(u, 0);
    assert u[0..] == u && x + "" == x;
    NoSegment(")");
    LexemeEndsAlike(x, "", ")");
    assert u[..|x|] == x && u[|x|..] == ")";
    SpaceRunIs(")", 0);
    assert ")"[0..] == ")" && ")"[1..] == "";
  }

  lemma FoundAlone(s: string, r: Reference, find: string -> Option<Found>, word: Reference -> Option<string>)
    requires (forall t :: find(t).Some? ==> |find(t).value.rest| < |t|)
    requires s != "" && find(s) == Some(Found(r, ""))
    ensures Sub(s, find, word) == word(r)
  {
    assert word(r).Some? ==> word(r).value + "" == word(r).value;
  }

  lemma StringsOfComparison(text: string, word: string, find: string -> Option<Found>, env: Env)
    requires Shrinks(find)
    requires Sub(text, find, CallWords(env)) == Some(word) && Sub("true", find, CallWords(env)) == Some("true")
    ensures RewriteStrings(ComparingTokens(text), find, env) == Some(ComparingTokens(word))
  {
    StringRewrittenFirst("true", "true", [], find, env);
    assert [StrLit("true")] + [] == [StrLit("true")];
    NoStringFirst(Op("=="), [StrLit("true")], find, env);
    assert [Op("==")] + [StrLit("true")] == [Op("=="), StrLit("true")];
    StringRewrittenFirst(text, word, [Op("=="), StrLit("true")], find, env);
    assert [StrLit(text)] + [Op("=="), StrLit("true")] == ComparingTokens(text);
    assert [StrLit(word)] + [Op("=="), StrLit("true")] == ComparingTokens(word);
  }

  lemma StringRewrittenFirst(text: string, word: string, ts: seq<Tok>, find: string -> Option<Found>, env: Env)
    requires Shrinks(find) && Sub(text, find, CallWords(env)) == Some(word)
    ensures RewriteStrings([StrLit(text)] + ts, find, env) ==
            Before([StrLit(word)], RewriteStrings(ts, find, env))
  {
    assert ([StrLit(text)] + ts)[1..] == ts;
  }

  lemma TrueStays(env: Env)
    ensures Shrinks(FindCall) && Sub("true", FindCall, CallWords(env)) == Some("true")
  {
    CallsAreFound();
    CallsAreLikeHas(FindCall, env);
    NothingToRewrite("true", FindCall, CallWords(env));
    assert forall k :: 0 <= k < 4 ==> "true"[k..][0] == "true"[k];
  }

  /** A call in a string is rewritten: a text that compares the string `has(x)` with `true` says whether x is found,
      where its tokens say that the two differ. */
  lemma CallInAStringIsRewritten(s: string, x: string, env: Env)
    requires IsLexeme(x) && x[0] == '$' && RefOf(x).segments != []
    requires WellWritten(s) && Tokens(s) == Some(ComparingTokens(HasText(x)))
    ensures GuardValue(Tokens(s).value, env) == Some(false)
    ensures TextValue(s, env) == Some(Lookup(RefOf(x), env.ctx, env.item).Some?)
  {
    var r := RefOf(x);
    var word := CallWord(r, env).value;
    HasTextIsFound(x);
    TrueStays(env);
    FoundAlone(HasText(x), r, FindCall, CallWords(env));
    StringsOfComparison(HasText(x), word, FindCall, env);
    WellWrittenTextMeansItsTokens(s, env);
    ComparingPrinted(word, env);
    ComparingPrinted(HasText(x), env);
    assert HasText(x)[0] == 'h';
  }
}
