/** Rewriting `has(...)` in a guard's text and reading the tokens, against reading them and rewriting `has`. */
module HasInText {
  import opened Values
  import opened References
  import opened Guards
  import opened GuardEval
  import opened GuardText
  import opened Lexemes

  // --- the tokens of a call of `has` -----------------------------------------------------------------

  lemma BlanksAreSkipped(s: string)
    ensures Tokens(s) == Tokens(Unblanked(s))
  {
    if SpaceRun(s) > 0 {
      NothingBefore(Tokens(Unblanked(s)));
    }
  }

  lemma NextIsRead(x: string, rest: string, ts: seq<Tok>)
    requires x != "" && LexemeRun(x + rest) == |x| && TokenIf(x) == ts
    ensures Tokens(x + rest) == Before(ts, Tokens(rest))
  {
    assert (x + rest)[..|x|] == x && (x + rest)[|x|..] == rest;
  }

  lemma ParenAlone(x: string, rest: string)
    requires x == "(" || x == ")"
    ensures LexemeRun(x + rest) == 1 && TokenIf(x) == [Op(x)]
  {
    assert (x + rest)[0] == x[0];
  }

  lemma RefAlone(x: string, rest: string)
    requires x != "" && RefRun(x + rest) == |x|
    ensures LexemeRun(x + rest) == |x| && |x| >= 2 && TokenIf(x) == [RefTok(RefOf(x))]
  {
    assert (x + rest)[0] == x[0];
    RefIsLong(x + rest);
  }

  lemma WordAlone(x: string, rest: string)
    requires IsIdentifier(x) && !StartsWord(rest)
    ensures LexemeRun(x + rest) == |x| && TokenIf(x) == [Name(x)]
  {
    assert (x + rest)[0] == x[0] && (x + rest)[|x|..] == rest;
    assert forall k :: 0 <= k < |x| ==> (x + rest)[k] == x[k];
    WordRunIs(x + rest, |x|);
  }

  lemma HasIsRead(rest: string)
    ensures LexemeRun("has" + ("(" + rest)) == 3
    ensures Tokens("has" + ("(" + rest)) == Before([Name("has")], Before([Op("(")], Tokens(rest)))
  {
    WordAlone("has", "(" + rest);
    NextIsRead("has", "(" + rest, [Name("has")]);
    ParenAlone("(", rest);
    NextIsRead("(", rest, [Op("(")]);
  }

  lemma RefIsRead(s: string)
    requires RefRun(s) > 0
    ensures RefRun(s) >= 2
    ensures Tokens(s) == Before([RefTok(RefOf(s[..RefRun(s)]))], Tokens(s[RefRun(s)..]))
  {
    var x, rest := s[..RefRun(s)], s[RefRun(s)..];
    assert s == x + rest;
    RefAlone(x, rest);
    NextIsRead(x, rest, [RefTok(RefOf(x))]);
  }

  lemma HasAhead(s: string)
    requires |s| >= 4 && s[..4] == "has("
    ensures s == "has" + ("(" + s[4..])
  {
    assert s == s[..4] + s[4..] && "has(" == "has" + "(";
    assert s == "has" + "(" + s[4..];
  }

  function CallTokens(r: Reference): seq<Tok> { [Name("has"), Op("("), RefTok(r), Op(")")] }

  lemma CallIsRead(s: string)
    requires FindCall(s).Some?
    ensures var f := FindCall(s).value; Tokens(s) == Before(CallTokens(f.ref), Tokens(f.rest))
  {
    var f := FindCall(s).value;
    HasAhead(s);
    HasIsRead(s[4..]);
    BlanksAreSkipped(s[4..]);
    RefAndCloseAreRead(Unblanked(s[4..]));
    CallAssembled(f.ref, Tokens(f.rest));
  }

  lemma RefAndCloseAreRead(s: string)
    requires FindRef(s).Some?
    ensures var f := FindRef(s).value;
            Tokens(s) == Before([RefTok(f.ref)], Before([Op(")")], Tokens(f.rest)))
  {
    RefIsRead(s);
    BlanksAreSkipped(s[RefRun(s)..]);
    CloseIsRead(RefOf(s[..RefRun(s)]), Unblanked(s[RefRun(s)..]));
  }

  lemma CloseIsRead(r: Reference, s: string)
    requires FindClose(r, s).Some?
    ensures FindClose(r, s).value.ref == r
    ensures Tokens(s) == Before([Op(")")], Tokens(FindClose(r, s).value.rest))
  {
    assert s == ")" + s[1..];
    ParenAlone(")", s[1..]);
    NextIsRead(")", s[1..], [Op(")")]);
  }

  lemma CallAssembled(r: Reference, rest: Option<seq<Tok>>)
    ensures Before([Name("has")], Before([Op("(")], Before([RefTok(r)], Before([Op(")")], rest)))) ==
            Before(CallTokens(r), rest)
  {
    BeforeTwice([RefTok(r)], [Op(")")], rest);
    BeforeTwice([Op("(")], [RefTok(r)] + [Op(")")], rest);
    BeforeTwice([Name("has")], [Op("(")] + ([RefTok(r)] + [Op(")")]), rest);
    assert [Name("has")] + ([Op("(")] + ([RefTok(r)] + [Op(")")])) == CallTokens(r);
  }

  // --- rewriting piece by piece, whatever is called and whatever word it becomes --------------------------

  // Calls begin with an h, and become `true` or `false`.
  ghost predicate LikeHas(find: string -> Option<Found>, word: Reference -> Option<string>) {
    && (forall s :: find(s).Some? ==> |find(s).value.rest| < |s| && s[0] == 'h')
    && (forall s, c :: find(s).Some? && c in find(s).value.rest ==> c in s)
    && (forall r :: word(r).Some? ==> word(r).value == "true" || word(r).value == "false")
  }

  lemma AfterTwice(x: string, rest: Option<string>)
    ensures After("", rest) == rest
    ensures x != "" ==> After(x[..1], After(x[1..], rest)) == After(x, rest)
  {
    if rest.Some? {
      assert "" + rest.value == rest.value;
      if x != "" {
        assert x[..1] + (x[1..] + rest.value) == x + rest.value;
      }
    }
  }

  lemma OneDown(x: string, rest: string)
    requires x != ""
    ensures (x + rest)[1..] == x[1..] + rest && (x + rest)[0..] == x + rest && (x + rest)[..1] == x[..1]
    ensures forall k :: 0 <= k < |x| - 1 ==> (x[1..] + rest)[k..] == (x + rest)[k + 1..]
  {
  }

  lemma {:induction false} CopiedOver(x: string, rest: string,
                                      find: string -> Option<Found>, word: Reference -> Option<string>)
    requires forall s :: find(s).Some? ==> |find(s).value.rest| < |s|
    requires forall k :: 0 <= k < |x| ==> find((x + rest)[k..]).None?
    ensures Sub(x + rest, find, word) == After(x, Sub(rest, find, word))
  {
    AfterTwice(x, Sub(rest, find, word));
    if x == "" {
      assert x + rest == rest;
    } else {
      OneDown(x, rest);
      CopiedOver(x[1..], rest, find, word);
    }
  }

  predicate StartsHas(s: string) { s != "" && (s[0] == 't' || s[0] == 'f') }

  predicate StartsWith(s: string, c: char, tail: Option<string>) {
    s != "" && s[0] == c && tail == Some(s[1..])
  }

  lemma FirstOfRewritten(r: string, find: string -> Option<Found>, word: Reference -> Option<string>)
    requires LikeHas(find, word) && Sub(r, find, word).Some?
    ensures r == "" ==> Sub(r, find, word).value == ""
    ensures r != "" && find(r).Some? ==> r[0] == 'h' && StartsHas(Sub(r, find, word).value)
    ensures r != "" && find(r).None? ==>
              StartsWith(Sub(r, find, word).value, r[0], Sub(r[1..], find, word))
  {
    if r != "" && find(r).None? {
      var tail := Sub(r[1..], find, word).value;
      assert (r[..1] + tail)[1..] == tail;
    }
  }

  lemma {:induction false} DigitsAreKept(y: string, find: string -> Option<Found>, word: Reference -> Option<string>)
    requires LikeHas(find, word) && Sub(y, find, word).Some?
    ensures var y' := Sub(y, find, word).value;
            DigitRun(y') == DigitRun(y) && Sub(y[DigitRun(y)..], find, word) == Some(y'[DigitRun(y)..])
  {
    FirstOfRewritten(y, find, word);
    var y' := Sub(y, find, word).value;
    if StartsDigit(y) {
      DigitsAreKept(y[1..], find, word);
      assert y[1..][DigitRun(y[1..])..] == y[DigitRun(y)..];
      assert y'[1..][DigitRun(y[1..])..] == y'[DigitRun(y)..];
    } else {
      assert y[0..] == y && y'[0..] == y';
    }
  }

  lemma BracketIsKept(r: string, r': string, find: string -> Option<Found>, word: Reference -> Option<string>)
    requires LikeHas(find, word)
    requires r != "" && r' != "" && r[0] == r'[0] == '[' && Sub(r[1..], find, word) == Some(r'[1..])
    ensures SegmentRun(r') > 0 ==> SegmentRun(r) > 0
  {
    var d := DigitRun(r'[1..]);
    DigitsAreKept(r[1..], find, word);
    if SegmentRun(r') > 0 {
      FirstOfRewritten(r[1..][d..], find, word);
      assert r'[1..][d..][0] == ']';
    }
  }

  lemma NoTokenStartsWithADot(r: string)
    requires Tokens(r).Some?
    ensures !StartsDot(r)
  {
  }

  // What follows a lexeme is rewritten to a text that goes on the lexeme no further.
  lemma RewrittenIsAlike(r: string, find: string -> Option<Found>, word: Reference -> Option<string>)
    requires LikeHas(find, word) && Tokens(r).Some? && Sub(r, find, word).Some?
    ensures var r' := Sub(r, find, word).value;
            Alike(r, r') && !StartsDot(r') && (StartsSpace(r') ==> StartsSpace(r))
  {
    NoTokenStartsWithADot(r);
    FirstOfRewritten(r, find, word);
    var r' := Sub(r, find, word).value;
    if r != "" {
      if r[0] == '[' {
        BracketIsKept(r, r', find, word);
      } else {
        NoSegment(r');
      }
    }
  }

  // The tokens of a text after its rewriting.
  function SubTokens(s: string, find: string -> Option<Found>, word: Reference -> Option<string>): Option<seq<Tok>>
    requires forall t :: find(t).Some? ==> |find(t).value.rest| < |t|
  {
    match Sub(s, find, word)
    case Some(cut) => Tokens(cut)
    case None => None
  }

  lemma SpacesAreTaken(x: string, rest: string)
    requires x != "" && LexemeRun(x + rest) == |x|
    ensures IsSpace(x[0]) ==> !StartsSpace(rest)
  {
    SpaceRunIs(x + rest, |x|);
    assert (x + rest)[|x|..] == rest;
  }

  /** A lexeme without a call in it stays a lexeme when what follows is rewritten. */
  lemma LexemeStays(x: string, rest: string, find: string -> Option<Found>, word: Reference -> Option<string>)
    requires LikeHas(find, word)
    requires x != "" && LexemeRun(x + rest) == |x| && Tokens(rest).Some?
    requires forall k :: 0 <= k < |x| ==> find((x + rest)[k..]).None?
    ensures SubTokens(x + rest, find, word) == Before(TokenIf(x), SubTokens(rest, find, word))
  {
    CopiedOver(x, rest, find, word);
    if Sub(rest, find, word).Some? {
      var rest' := Sub(rest, find, word).value;
      RewrittenIsAlike(rest, find, word);
      SpacesAreTaken(x, rest);
      LexemeEndsAlike(x, rest, rest');
      NextIsRead(x, rest', TokenIf(x));
    }
  }

  /** A call that nothing is glued to becomes a token of its own. */
  lemma CallBecomesAWord(s: string, find: string -> Option<Found>, word: Reference -> Option<string>)
    requires LikeHas(find, word) && find(s).Some?
    requires var f := find(s).value; !StartsWord(f.rest) && Tokens(f.rest).Some?
    ensures var f := find(s).value;
            SubTokens(s, find, word) ==
            match word(f.ref)
            case Some(text) => Before([Name(text)], SubTokens(f.rest, find, word))
            case None => None
  {
    var f := find(s).value;
    if word(f.ref).Some? && Sub(f.rest, find, word).Some? {
      var text, rest' := word(f.ref).value, Sub(f.rest, find, word).value;
      RewrittenIsAlike(f.rest, find, word);
      WordAlone(text, rest');
      NextIsRead(text, rest', [Name(text)]);
    }
  }

  // --- inside a string -------------------------------------------------------------------------------

  lemma NoHasAtQuote(x: string, t: string)
    requires StartsQuote(t)
    ensures |x + t| >= 4 && (x + t)[..4] == "has(" <==> |x| >= 4 && x[..4] == "has("
  {
    if |x| >= 4 {
      assert (x + t)[..4] == x[..4];
    } else if |x + t| >= 4 {
      assert (x + t)[..4][|x|] == t[0];
    }
  }

  // The same call, with t after it.
  function Followed(f: Option<Found>, t: string): Option<Found> {
    match f
    case Some(g) => Some(Found(g.ref, g.rest + t))
    case None => None
  }

  lemma UnblankedUntilQuote(s: string, t: string)
    requires StartsQuote(t)
    ensures Unblanked(s + t) == Unblanked(s) + t
  {
    BlanksUntilQuote(s, t);
    assert (s + t)[SpaceRun(s)..] == s[SpaceRun(s)..] + t;
  }

  lemma CloseUntilQuote(r: Reference, s: string, t: string)
    requires StartsQuote(t)
    ensures FindClose(r, s + t) == Followed(FindClose(r, s), t)
  {
    if s == "" {
      assert s + t == t;
    } else {
      assert (s + t)[1..] == s[1..] + t;
    }
  }

  lemma FindRefUntilQuote(s: string, t: string)
    requires StartsQuote(t)
    ensures FindRef(s + t) == Followed(FindRef(s), t)
  {
    RefUntilQuote(s, t);
    var r := RefRun(s);
    assert (s + t)[..r] == s[..r] && (s + t)[r..] == s[r..] + t;
    UnblankedUntilQuote(s[r..], t);
    if r > 0 {
      CloseUntilQuote(RefOf(s[..r]), Unblanked(s[r..]), t);
    }
  }

  lemma CallUntilQuote(s: string, t: string)
    requires StartsQuote(t)
    ensures FindCall(s + t) == Followed(FindCall(s), t)
  {
    NoHasAtQuote(s, t);
    if |s| >= 4 {
      assert (s + t)[4..] == s[4..] + t;
      UnblankedUntilQuote(s[4..], t);
      FindRefUntilQuote(Unblanked(s[4..]), t);
    }
  }

  lemma BothAfter(x: string, a: Option<string>, b: Option<string>)
    ensures After(x, Both(a, b)) == Both(After(x, a), b)
    ensures Both(Some(""), b) == b
  {
    if a.Some? && b.Some? {
      assert x + (a.value + b.value) == x + a.value + b.value;
    }
    if b.Some? {
      assert "" + b.value == b.value;
    }
  }

  lemma BothTwice(w: Option<string>, a: Option<string>, b: Option<string>)
    ensures Both(w, Both(a, b)) == Both(Both(w, a), b)
  {
    if w.Some? {
      BothAfter(w.value, a, b);
    }
  }

  // No call reaches over t.
  ghost predicate EndsBefore(t: string, find: string -> Option<Found>) {
    forall y :: find(y + t) == Followed(find(y), t)
  }

  /** A text is rewritten piece by piece where no call reaches over. */
  lemma {:induction false} RewrittenApart(x: string, t: string,
                                          find: string -> Option<Found>, word: Reference -> Option<string>)
    requires LikeHas(find, word) && EndsBefore(t, find)
    ensures Sub(x + t, find, word) == Both(Sub(x, find, word), Sub(t, find, word))
    decreases |x|
  {
    assert find(x + t) == Followed(find(x), t);
    var after := Sub(t, find, word);
    if x == "" {
      assert x + t == t;
      BothAfter("", None, after);
    } else if find(x).Some? {
      var f := find(x).value;
      RewrittenApart(f.rest, t, find, word);
      BothTwice(word(f.ref), Sub(f.rest, find, word), after);
    } else {
      OneDown(x, t);
      RewrittenApart(x[1..], t, find, word);
      BothAfter(x[..1], Sub(x[1..], find, word), after);
    }
  }

  lemma {:induction false} NoQuoteIsMade(x: string, quote: char,
                                         find: string -> Option<Found>, word: Reference -> Option<string>)
    requires LikeHas(find, word) && IsQuote(quote)
    requires quote !in x && Sub(x, find, word).Some?
    ensures quote !in Sub(x, find, word).value
    decreases |x|
  {
    if x == "" {
    } else if find(x).Some? {
      NoQuoteIsMade(find(x).value.rest, quote, find, word);
    } else {
      NoQuoteIsMade(x[1..], quote, find, word);
    }
  }

  // A string of what is in the quotes.
  lemma StringAlone(quote: char, y: string, rest: string)
    requires IsQuote(quote) && quote !in y
    ensures Tokens([quote] + (y + ([quote] + rest))) == Before([StrLit(y)], Tokens(rest))
  {
    var x := [quote] + y + [quote];
    var s := [quote] + (y + ([quote] + rest));
    assert s == x + rest && s[1..] == y + ([quote] + rest);
    assert (y + ([quote] + rest))[..|y|] == y && (y + ([quote] + rest))[|y|..] == [quote] + rest;
    QuotedRunIs(s[1..], quote, |y|);
    assert x[1..|x| - 1] == y;
    NextIsRead(x, rest, [StrLit(y)]);
  }

  // A quote, a text without it, the quote again.
  lemma StringSplits(x: string, rest: string) returns (y: string)
    requires x != "" && IsQuote(x[0]) && LexemeRun(x + rest) == |x|
    ensures x[0] !in y && x + rest == [x[0]] + (y + ([x[0]] + rest)) && TokenIf(x) == [StrLit(y)]
  {
    var n := |x| - 2;
    assert (x + rest)[0] == x[0];
    QuotedRunIs((x + rest)[1..], x[0], n);
    y := x[1..|x| - 1];
    assert (x + rest)[1..][..n] == y && (x + rest)[1..][n] == x[|x| - 1];
    assert x == [x[0]] + (y + [x[0]]);
  }

  lemma StringRewritten(quote: char, y: string, rest: string,
                        find: string -> Option<Found>, word: Reference -> Option<string>)
    requires LikeHas(find, word) && EndsBefore([quote] + rest, find) && quote != 'h'
    ensures Sub([quote] + (y + ([quote] + rest)), find, word) ==
            After([quote], Both(Sub(y, find, word), After([quote], Sub(rest, find, word))))
  {
    OneCopied(quote, y + ([quote] + rest), find, word);
    RewrittenApart(y, [quote] + rest, find, word);
    OneCopied(quote, rest, find, word);
  }

  /** What is in a string is rewritten in the string. */
  lemma StringStays(quote: char, y: string, rest: string,
                    find: string -> Option<Found>, word: Reference -> Option<string>)
    requires LikeHas(find, word) && EndsBefore([quote] + rest, find)
    requires IsQuote(quote) && quote !in y
    ensures SubTokens([quote] + (y + ([quote] + rest)), find, word) ==
            match Sub(y, find, word)
            case Some(text) => Before([StrLit(text)], SubTokens(rest, find, word))
            case None => None
  {
    StringRewritten(quote, y, rest, find, word);
    if Sub(y, find, word).Some? && Sub(rest, find, word).Some? {
      NoQuoteIsMade(y, quote, find, word);
      StringAlone(quote, Sub(y, find, word).value, Sub(rest, find, word).value);
    }
  }

  lemma OneCopied(c: char, rest: string, find: string -> Option<Found>, word: Reference -> Option<string>)
    requires LikeHas(find, word) && c != 'h'
    ensures Sub([c] + rest, find, word) == After([c], Sub(rest, find, word))
  {
    assert ([c] + rest)[1..] == rest && ([c] + rest)[0] == c;
  }
}
