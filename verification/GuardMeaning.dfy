/** What the text of a guard means: its tokens' value where every call of `has` is written as one, and an error
    where one is not. */
module GuardMeaning {
  import opened Values
  import opened References
  import opened Guards
  import opened GuardEval
  import opened GuardText
  import opened Lexemes
  import opened HasInText
  import opened GuardTokens

  // --- what is found, and what it is replaced by, in tokens ---------------------------------------------

  // The facts about finding calls that the rest goes by.
  ghost predicate Finder(find: string -> Option<Found>) {
    && (forall s :: find(s).Some? ==> |find(s).value.rest| < |s| && |s| >= 4 && s[..4] == "has(")
    && (forall s, c :: find(s).Some? && c in find(s).value.rest ==> c in s)
    && (forall s :: find(s).Some? ==> Tokens(s) == Before(CallTokens(find(s).value.ref), Tokens(find(s).value.rest)))
    && (forall t :: StartsQuote(t) ==> EndsBefore(t, find))
  }

  ghost predicate Shrinks(find: string -> Option<Found>) {
    forall s :: find(s).Some? ==> |find(s).value.rest| < |s|
  }

  lemma RestIsWithin(s: string, c: char)
    requires FindCall(s).Some? && c in FindCall(s).value.rest
    ensures c in s
  {
    var t := Unblanked(s[4..]);
    var u := Unblanked(t[RefRun(t)..]);
    assert FindCall(s).value.rest == u[1..];
    assert c in u && c in t[RefRun(t)..] && c in t && c in s[4..];
  }

  lemma CallsAreFound()
    ensures Finder(FindCall)
  {
    forall s, c | FindCall(s).Some? && c in FindCall(s).value.rest ensures c in s {
      RestIsWithin(s, c);
    }
    forall s | FindCall(s).Some?
      ensures Tokens(s) == Before(CallTokens(FindCall(s).value.ref), Tokens(FindCall(s).value.rest))
    {
      CallIsRead(s);
    }
    forall t | StartsQuote(t) ensures EndsBefore(t, FindCall) {
      forall y ensures FindCall(y + t) == Followed(FindCall(y), t) {
        CallUntilQuote(y, t);
      }
    }
  }

  lemma CallsAreLikeHas(find: string -> Option<Found>, env: Env)
    requires Finder(find)
    ensures LikeHas(find, CallWords(env))
  {
    forall s | find(s).Some? ensures s[0] == 'h' {
      assert s[..4][0] == 'h';
    }
  }

  // A string has what is in it rewritten; every other token stays.
  function RewriteToken(t: Tok, find: string -> Option<Found>, env: Env): Option<Tok>
    requires Shrinks(find)
  {
    if !t.StrLit? then Some(t)
    else
      match Sub(t.s, find, CallWords(env))
      case Some(text) => Some(StrLit(text))
      case None => None
  }

  function RewriteStrings(ts: seq<Tok>, find: string -> Option<Found>, env: Env): Option<seq<Tok>>
    requires Shrinks(find)
  {
    if ts == [] then Some([])
    else
      match RewriteToken(ts[0], find, env)
      case Some(t) => Before([t], RewriteStrings(ts[1..], find, env))
      case None => None
  }

  lemma {:induction false} OnlyStringsChange(ts: seq<Tok>, find: string -> Option<Found>, env: Env)
    requires Shrinks(find) && RewriteStrings(ts, find, env).Some?
    ensures var l := RewriteStrings(ts, find, env).value;
            && |l| == |ts|
            && (forall i :: 0 <= i < |ts| ==> l[i].StrLit? == ts[i].StrLit? && (!ts[i].StrLit? ==> l[i] == ts[i]))
            && IsHasCall(l) == IsHasCall(ts)
  {
    if ts != [] {
      OnlyStringsChange(ts[1..], find, env);
    }
  }

  // Tokens with the calls in them, and in the strings among them, rewritten.
  function RewriteBoth(ts: seq<Tok>, find: string -> Option<Found>, env: Env): Option<seq<Tok>>
    requires Shrinks(find)
  {
    match RewriteStrings(ts, find, env)
    case Some(l) => RewriteHas(l, env)
    case None => None
  }

  lemma RewriteFirst(t: Tok, ts: seq<Tok>, find: string -> Option<Found>, env: Env)
    requires Shrinks(find) && !IsHasCall([t] + ts)
    ensures RewriteBoth([t] + ts, find, env) ==
            match RewriteToken(t, find, env)
            case Some(u) => Before([u], RewriteBoth(ts, find, env))
            case None => None
  {
    assert ([t] + ts)[1..] == ts;
    if RewriteStrings([t] + ts, find, env).Some? {
      var l := RewriteStrings([t] + ts, find, env).value;
      OnlyStringsChange([t] + ts, find, env);
      assert l[1..] == RewriteStrings(ts, find, env).value;
    }
  }

  lemma NoStringFirst(t: Tok, ts: seq<Tok>, find: string -> Option<Found>, env: Env)
    requires Shrinks(find) && !t.StrLit?
    ensures RewriteStrings([t] + ts, find, env) == Before([t], RewriteStrings(ts, find, env))
  {
    assert ([t] + ts)[1..] == ts;
  }

  lemma StringsAfterCall(r: Reference, ts: seq<Tok>, find: string -> Option<Found>, env: Env)
    requires Shrinks(find)
    ensures RewriteStrings(CallTokens(r) + ts, find, env) == Before(CallTokens(r), RewriteStrings(ts, find, env))
  {
    var close := [Op(")")] + ts;
    NoStringFirst(Op(")"), ts, find, env);
    NoStringFirst(RefTok(r), close, find, env);
    NoStringFirst(Op("("), [RefTok(r)] + close, find, env);
    NoStringFirst(Name("has"), [Op("(")] + ([RefTok(r)] + close), find, env);
    assert CallTokens(r) + ts == [Name("has")] + ([Op("(")] + ([RefTok(r)] + close));
    CallAssembled(r, RewriteStrings(ts, find, env));
  }

  lemma RewriteCall(r: Reference, ts: seq<Tok>, find: string -> Option<Found>, env: Env)
    requires Shrinks(find)
    ensures RewriteBoth(CallTokens(r) + ts, find, env) ==
            match CallWord(r, env)
            case Some(text) => Before([Name(text)], RewriteBoth(ts, find, env))
            case None => None
  {
    StringsAfterCall(r, ts, find, env);
    if RewriteStrings(ts, find, env).Some? {
      var l := RewriteStrings(ts, find, env).value;
      assert (CallTokens(r) + l)[4..] == l;
    }
  }

  // --- tidy texts --------------------------------------------------------------------------------------

  // No call begins inside the first lexeme, and the tokens begin with a call only where one is found.
  predicate PlainStart(s: string, find: string -> Option<Found>)
    requires s != ""
  {
    && (IsQuote(s[0]) || forall k :: 0 <= k < LexemeRun(s) ==> find(s[k..]).None?)
    && (IsSpace(s[0]) || Tokens(s).None? || !IsHasCall(Tokens(s).value))
  }

  /** Every call of `has` among the tokens is written without a blank before its parenthesis, and nothing is glued to
      a call on either side. */
  predicate Tidy(s: string, find: string -> Option<Found>)
    requires Shrinks(find)
    decreases |s|
  {
    s == "" ||
    match find(s)
    case Some(f) => !StartsWord(f.rest) && Tidy(f.rest, find)
    case None => LexemeRun(s) > 0 && PlainStart(s, find) && Tidy(s[LexemeRun(s)..], find)
  }

  lemma FirstIsRead(s: string)
    requires s != "" && LexemeRun(s) > 0
    ensures Tokens(s) == Before(TokenIf(s[..LexemeRun(s)]), Tokens(s[LexemeRun(s)..]))
  {
  }

  lemma NoneOverQuote(quote: char, rest: string, find: string -> Option<Found>)
    requires Finder(find) && IsQuote(quote)
    ensures EndsBefore([quote] + rest, find)
  {
    assert StartsQuote([quote] + rest);
  }

  lemma StringFirst(x: string, rest: string, find: string -> Option<Found>, env: Env)
    requires Finder(find) && x != "" && IsQuote(x[0]) && LexemeRun(x + rest) == |x| && Tokens(rest).Some?
    ensures SubTokens(x + rest, find, CallWords(env)) ==
            match RewriteToken(TokenOf(x), find, env)
            case Some(t) => Before([t], SubTokens(rest, find, CallWords(env)))
            case None => None
  {
    var y := StringSplits(x, rest);
    NoneOverQuote(x[0], rest, find);
    CallsAreLikeHas(find, env);
    StringStays(x[0], y, rest, find, CallWords(env));
  }

  lemma LexemeFirst(s: string, find: string -> Option<Found>, env: Env)
    requires Finder(find) && s != "" && !IsQuote(s[0]) && LexemeRun(s) > 0 && Tokens(s[LexemeRun(s)..]).Some?
    requires forall k :: 0 <= k < LexemeRun(s) ==> find(s[k..]).None?
    ensures SubTokens(s, find, CallWords(env)) ==
            Before(TokenIf(s[..LexemeRun(s)]), SubTokens(s[LexemeRun(s)..], find, CallWords(env)))
  {
    var x, rest := s[..LexemeRun(s)], s[LexemeRun(s)..];
    assert s == x + rest;
    CallsAreLikeHas(find, env);
    LexemeStays(x, rest, find, CallWords(env));
  }

  // Only what is in quotes is read as a string.
  lemma OnlyQuotesMakeStrings(x: string)
    requires x != "" && !IsQuote(x[0])
    ensures !TokenOf(x).StrLit?
  {
  }

  lemma CallFirst(s: string, find: string -> Option<Found>, env: Env)
    requires Finder(find) && find(s).Some?
    requires !StartsWord(find(s).value.rest) && Tokens(find(s).value.rest).Some?
    ensures var f := find(s).value;
            SubTokens(s, find, CallWords(env)) ==
            match CallWord(f.ref, env)
            case Some(text) => Before([Name(text)], SubTokens(f.rest, find, CallWords(env)))
            case None => None
  {
    CallsAreLikeHas(find, env);
    CallBecomesAWord(s, find, CallWords(env));
  }

  // A text whose rewriting and reading commute.
  predicate Commutes(s: string, find: string -> Option<Found>, env: Env)
    requires Shrinks(find)
  {
    Tokens(s).Some? && SubTokens(s, find, CallWords(env)) == RewriteBoth(Tokens(s).value, find, env)
  }

  lemma StringCommutes(x: string, rest: string, find: string -> Option<Found>, env: Env)
    requires Finder(find) && x != "" && IsQuote(x[0]) && LexemeRun(x + rest) == |x| && Commutes(rest, find, env)
    ensures Commutes(x + rest, find, env)
  {
    NextIsRead(x, rest, TokenIf(x));
    StringFirst(x, rest, find, env);
    RewriteFirst(TokenOf(x), Tokens(rest).value, find, env);
  }

  lemma BlankCommutes(x: string, rest: string, find: string -> Option<Found>, env: Env)
    requires Finder(find) && x != "" && IsSpace(x[0]) && LexemeRun(x + rest) == |x| && Commutes(rest, find, env)
    requires forall k :: 0 <= k < |x| ==> find((x + rest)[k..]).None?
    ensures Commutes(x + rest, find, env)
  {
    NextIsRead(x, rest, TokenIf(x));
    CallsAreLikeHas(find, env);
    LexemeStays(x, rest, find, CallWords(env));
    NothingBefore(Tokens(rest));
    NothingBefore(SubTokens(rest, find, CallWords(env)));
  }

  lemma LexemeCommutes(x: string, rest: string, find: string -> Option<Found>, env: Env)
    requires Finder(find) && x != "" && !IsQuote(x[0]) && !IsSpace(x[0])
    requires LexemeRun(x + rest) == |x| && Commutes(rest, find, env)
    requires forall k :: 0 <= k < |x| ==> find((x + rest)[k..]).None?
    requires !IsHasCall([TokenOf(x)] + Tokens(rest).value)
    ensures Commutes(x + rest, find, env)
  {
    NextIsRead(x, rest, TokenIf(x));
    CallsAreLikeHas(find, env);
    LexemeStays(x, rest, find, CallWords(env));
    OnlyQuotesMakeStrings(x);
    RewriteFirst(TokenOf(x), Tokens(rest).value, find, env);
  }

  // One lexeme, and what its token becomes.
  lemma FirstLexeme(s: string, find: string -> Option<Found>, env: Env)
    requires Finder(find) && s != "" && find(s).None? && LexemeRun(s) > 0 && PlainStart(s, find)
    requires Commutes(s[LexemeRun(s)..], find, env)
    ensures Commutes(s, find, env)
  {
    var x, rest := s[..LexemeRun(s)], s[LexemeRun(s)..];
    assert s == x + rest;
    FirstIsRead(s);
    if IsQuote(s[0]) {
      StringCommutes(x, rest, find, env);
    } else if IsSpace(s[0]) {
      BlankCommutes(x, rest, find, env);
    } else {
      LexemeCommutes(x, rest, find, env);
    }
  }

  /** Rewriting a tidy text and reading its tokens is reading its tokens and rewriting those. */
  lemma {:induction false} TidyRewritten(s: string, find: string -> Option<Found>, env: Env)
    requires Finder(find) && Tidy(s, find)
    ensures Commutes(s, find, env)
    decreases |s|
  {
    if s == "" {
    } else if find(s).Some? {
      var f := find(s).value;
      TidyRewritten(f.rest, find, env);
      CallFirst(s, find, env);
      RewriteCall(f.ref, Tokens(f.rest).value, find, env);
    } else {
      TidyRewritten(s[LexemeRun(s)..], find, env);
      FirstLexeme(s, find, env);
    }
  }

  // --- untidy texts ------------------------------------------------------------------------------------

  lemma {:induction false} PathEndsWell(s: string)
    ensures var n := PathRun(s); n > 0 && s[n - 1] != ']' ==> !StartsWord(s[n..])
    decreases |s|
  {
    var n := SegmentRun(s);
    if n > 0 {
      var p := PathRun(s[n..]);
      PathEndsWell(s[n..]);
      assert s[n..][p..] == s[n + p..];
      assert p > 0 ==> s[n..][p - 1] == s[n + p - 1];
      if p == 0 && s[0] == '.' {
        WordRunIs(s[1..], n - 1);
        assert s[1..][n - 1..] == s[n..];
      }
    }
  }

  lemma SourceLast(s: string)
    ensures !EndsInHA(s, SourceRun(s))
  {
    var n := SourceRun(s);
    if |s| >= 5 && s[..5] == "input" {
      assert s[4] == "input"[4];
    } else if |s| >= 4 && s[..4] == "item" {
      assert s[3] == "item"[3];
    } else if n > 0 {
      assert s[n - 1] == s[5..][n - 6];
    }
  }

  predicate EndsInHA(s: string, n: nat) { 0 < n <= |s| && (s[n - 1] == 'h' || s[n - 1] == 'a') }

  lemma Within(s: string, n: nat, p: nat)
    requires n + p <= |s|
    ensures s[n..][p..] == s[n + p..] && (p > 0 ==> s[n..][p - 1] == s[n + p - 1])
  {
  }

  lemma EndsWithin(s: string, k: nat, p: nat)
    requires EndsInHA(s, 2 + k + p) && k > 0 && !EndsInHA(s[2..], k)
    ensures EndsInHA(s[2 + k..], p) && s[2 + k..][p..] == s[2 + k + p..]
  {
    Within(s, 2, k);
    Within(s, 2 + k, p);
  }

  // A reference that ends in h or a is followed by no word character.
  lemma RefEndsWell(s: string)
    requires EndsInHA(s, RefRun(s))
    ensures !StartsWord(s[RefRun(s)..])
  {
    var k := SourceRun(s[2..]);
    RefParts(s, k);
    SourceLast(s[2..]);
    EndsWithin(s, k, PathRun(s[2 + k..]));
    PathEndsWell(s[2 + k..]);
  }

  lemma NumberChars(s: string)
    ensures forall k :: 0 <= k < NumberRun(s) ==> IsDigit(s[k]) || s[k] == '-' || s[k] == '.'
  {
    if s != "" {
      UnsignedChars(s);
      UnsignedChars(s[1..]);
      assert forall k :: 0 < k < |s| ==> s[k] == s[1..][k - 1];
    }
  }

  lemma UnsignedChars(s: string)
    ensures forall k :: 0 <= k < UnsignedRun(s) ==> IsDigit(s[k]) || s[k] == '.'
  {
    var d := DigitRun(s);
    if d < |s| {
      assert forall k :: d < k < |s| ==> s[k] == s[d + 1..][k - d - 1];
    }
  }

  predicate HasAt(s: string, k: nat) {
    k + 4 <= |s| && s[k] == 'h' && s[k + 1] == 'a' && s[k + 2] == 's' && s[k + 3] == '('
  }

  // Within a lexeme other than a string `has(` can only begin at the end of a word or of a reference.
  lemma HasInLexeme(s: string, k: nat)
    requires s != "" && !IsQuote(s[0]) && 0 < k < LexemeRun(s) && HasAt(s, k)
    ensures LexemeRun(s) == k + 3 && (s[0] == '$' || IsWordStart(s[0]))
  {
    if IsSpace(s[0]) {
      SpaceRunIs(s, SpaceRun(s));
    } else if s[0] == '$' {
      RefChars(s);
      if EndsInHA(s, RefRun(s)) {
        RefEndsWell(s);
      }
    } else if s[0] == '-' || IsDigit(s[0]) {
      NumberChars(s);
    } else if IsWordStart(s[0]) {
      WordRunIs(s, WordRun(s));
    }
  }

  lemma ParenNext(s: string, n: nat)
    requires n < |s| && s[n] == '(' && Tokens(s[n..]).Some?
    ensures Starts(Tokens(s[n..]).value, "(")
  {
    assert s[n..] == "(" + s[n + 1..];
    ParenAlone("(", s[n + 1..]);
    NextIsRead("(", s[n + 1..], [Op("(")]);
  }

  lemma CallInLexeme(s: string, k: nat)
    requires s != "" && !IsQuote(s[0]) && 0 < k < LexemeRun(s) && HasAt(s, k)
    requires Tokens(s).Some?
    ensures !WellCalled(Tokens(s).value)
  {
    HasInLexeme(s, k);
    FirstIsRead(s);
    var x := s[..k + 3];
    LongerThanHas(x, k);
    ParenNext(s, k + 3);
    OpenedBadly(TokenOf(x), Tokens(s[k + 3..]).value);
  }

  lemma OpenedBadly(t: Tok, ts: seq<Tok>)
    requires !MayOpen(t) && Starts(ts, "(")
    ensures !WellCalled([t] + ts)
  {
    assert ([t] + ts)[0] == t && ([t] + ts)[0 + 1] == Op("(");
  }

  lemma LongerThanHas(x: string, k: nat)
    requires 0 < k && |x| == k + 3 && x[k + 2] == 's' && (x[0] == '$' || IsWordStart(x[0]))
    ensures !MayOpen(TokenOf(x))
  {
    assert "size"[3] == 'e';
  }

  lemma StrayAfter(a: seq<Tok>, b: seq<Tok>)
    requires HasStray(b)
    ensures HasStray(a + b)
  {
    var i :| 0 <= i < |b| && Stray(b[i]);
    assert (a + b)[|a| + i] == b[i];
  }

  lemma StillWellCalled(a: seq<Tok>, b: seq<Tok>)
    requires WellCalled(a + b)
    ensures WellCalled(b)
  {
    forall i | 0 <= i < |b| - 1 && b[i + 1] == Op("(") ensures MayOpen(b[i]) {
      assert (a + b)[|a| + i] == b[i] && (a + b)[|a| + i + 1] == b[i + 1];
    }
  }

  lemma WordFirst(s: string)
    requires s != "" && IsWordStart(s[0])
    ensures WordRun(s) > 0 && Tokens(s) == Before([Name(s[..WordRun(s)])], Tokens(s[WordRun(s)..]))
  {
    FirstIsRead(s);
  }

  lemma WordsJoin(word: string, rest: string)
    requires forall k :: 0 <= k < |word| ==> IsWord(word[k])
    requires StartsWord(rest)
    ensures WordRun(word + rest) > |word| && (word + rest)[..WordRun(word + rest)][..|word|] == word
  {
    var s := word + rest;
    var n := WordRun(s);
    WordRunIs(s, n);
    assert s[|word|] == rest[0];
    assert forall k :: 0 <= k < |word| ==> s[k] == word[k];
  }

  // A word that goes on is another name.
  lemma WordGoesOn(word: string, rest: string)
    requires (word == "true" || word == "false") && StartsWord(rest)
    ensures Tokens(word + rest).Some? ==> HasStray(Tokens(word + rest).value)
  {
    WordsJoin(word, rest);
    WordFirst(word + rest);
    var x, after := (word + rest)[..WordRun(word + rest)], Tokens((word + rest)[WordRun(word + rest)..]);
    LongerThanAWord(x, word);
    if after.Some? {
      StrayFirst(Name(x), after.value);
    }
  }

  lemma LongerThanAWord(x: string, word: string)
    requires (word == "true" || word == "false") && |x| > |word| && x[..|word|] == word
    ensures Stray(Name(x))
  {
    assert x[0] == x[..|word|][0] && "true"[0] == 't' && "false"[0] == 'f';
  }

  // What the rewriting of a text leaves a stray name in.
  predicate LeavesStray(s: string, find: string -> Option<Found>, env: Env)
    requires Shrinks(find)
  {
    var ts := SubTokens(s, find, CallWords(env));
    ts.Some? ==> HasStray(ts.value)
  }

  predicate ReadsWell(s: string) { Tokens(s).Some? && WellCalled(Tokens(s).value) }

  /** A word character glued to a call makes a stray name of it. */
  lemma GluedIsStray(s: string, find: string -> Option<Found>, env: Env)
    requires Finder(find) && find(s).Some? && StartsWord(find(s).value.rest)
    ensures LeavesStray(s, find, env)
  {
    var f := find(s).value;
    CallsAreLikeHas(find, env);
    if CallWord(f.ref, env).Some? && Sub(f.rest, find, CallWords(env)).Some? {
      FirstOfRewritten(f.rest, find, CallWords(env));
      WordGoesOn(CallWord(f.ref, env).value, Sub(f.rest, find, CallWords(env)).value);
    }
  }

  /** In a text that is not tidy a stray name is left. */
  lemma {:induction false} UntidyIsStray(s: string, find: string -> Option<Found>, env: Env)
    requires Finder(find) && !Tidy(s, find) && ReadsWell(s)
    ensures LeavesStray(s, find, env)
    decreases |s|
  {
    if find(s).None? {
      RestReadsWell(s);
      if PlainStart(s, find) {
        UntidyIsStray(s[LexemeRun(s)..], find, env);
        PlainStartStays(s, find, env);
      } else {
        BareHasIsLeft(s, find, env);
      }
    } else if StartsWord(find(s).value.rest) {
      GluedIsStray(s, find, env);
    } else {
      CallReadsWell(s, find);
      UntidyIsStray(find(s).value.rest, find, env);
      StraysAfterCall(s, find, env);
    }
  }

  lemma RestReadsWell(s: string)
    requires s != "" && ReadsWell(s)
    ensures LexemeRun(s) > 0 && ReadsWell(s[LexemeRun(s)..])
  {
    FirstIsRead(s);
    StillWellCalled(TokenIf(s[..LexemeRun(s)]), Tokens(s[LexemeRun(s)..]).value);
  }

  lemma CallReadsWell(s: string, find: string -> Option<Found>)
    requires Finder(find) && ReadsWell(s) && find(s).Some?
    ensures ReadsWell(find(s).value.rest)
  {
    var f := find(s).value;
    StillWellCalled(CallTokens(f.ref), Tokens(f.rest).value);
  }

  lemma StraysAfterCall(s: string, find: string -> Option<Found>, env: Env)
    requires Finder(find) && find(s).Some?
    requires !StartsWord(find(s).value.rest) && Tokens(find(s).value.rest).Some?
    requires LeavesStray(find(s).value.rest, find, env)
    ensures LeavesStray(s, find, env)
  {
    CallFirst(s, find, env);
    var after := SubTokens(find(s).value.rest, find, CallWords(env));
    if after.Some? {
      StrayAfter([Name("true")], after.value);
      StrayAfter([Name("false")], after.value);
    }
  }

  lemma StrayAfterString(x: string, rest: string, find: string -> Option<Found>, env: Env)
    requires Finder(find) && x != "" && IsQuote(x[0]) && LexemeRun(x + rest) == |x| && Tokens(rest).Some?
    requires LeavesStray(rest, find, env)
    ensures LeavesStray(x + rest, find, env)
  {
    StringFirst(x, rest, find, env);
    var t, after := RewriteToken(TokenOf(x), find, env), SubTokens(rest, find, CallWords(env));
    if t.Some? && after.Some? {
      StrayAfter([t.value], after.value);
    }
  }

  lemma StrayAfterLexeme(s: string, find: string -> Option<Found>, env: Env)
    requires Finder(find) && s != "" && !IsQuote(s[0]) && LexemeRun(s) > 0 && Tokens(s[LexemeRun(s)..]).Some?
    requires forall k :: 0 <= k < LexemeRun(s) ==> find(s[k..]).None?
    requires LeavesStray(s[LexemeRun(s)..], find, env)
    ensures LeavesStray(s, find, env)
  {
    LexemeFirst(s, find, env);
    var after := SubTokens(s[LexemeRun(s)..], find, CallWords(env));
    if after.Some? {
      StrayAfter(TokenIf(s[..LexemeRun(s)]), after.value);
    }
  }

  lemma PlainStartStays(s: string, find: string -> Option<Found>, env: Env)
    requires Finder(find) && s != "" && LexemeRun(s) > 0 && ReadsWell(s[LexemeRun(s)..])
    requires PlainStart(s, find) && LeavesStray(s[LexemeRun(s)..], find, env)
    ensures LeavesStray(s, find, env)
  {
    if IsQuote(s[0]) {
      var x, rest := s[..LexemeRun(s)], s[LexemeRun(s)..];
      assert s == x + rest;
      StrayAfterString(x, rest, find, env);
    } else {
      StrayAfterLexeme(s, find, env);
    }
  }

  // `has` in front of a call that is not found.
  lemma BareHasIsLeft(s: string, find: string -> Option<Found>, env: Env)
    requires Finder(find) && s != "" && find(s).None? && LexemeRun(s) > 0
    requires ReadsWell(s) && ReadsWell(s[LexemeRun(s)..]) && !PlainStart(s, find)
    ensures LeavesStray(s, find, env)
  {
    if !IsQuote(s[0]) {
      NoCallInLexeme(s, find);
    }
    HasIsFirst(s, find);
    LexemeFirst(s, find, env);
    var after := SubTokens(s[LexemeRun(s)..], find, CallWords(env));
    if after.Some? {
      StrayFirst(Name("has"), after.value);
    }
  }

  lemma HasIsFirst(s: string, find: string -> Option<Found>)
    requires s != "" && find(s).None? && LexemeRun(s) > 0 && ReadsWell(s)
    requires !IsQuote(s[0]) ==> forall k :: 0 <= k < LexemeRun(s) ==> find(s[k..]).None?
    requires !PlainStart(s, find)
    ensures !IsQuote(s[0]) && TokenIf(s[..LexemeRun(s)]) == [Name("has")]
  {
    FirstIsRead(s);
  }

  lemma StrayFirst(t: Tok, ts: seq<Tok>)
    requires Stray(t)
    ensures HasStray([t] + ts)
  {
    assert ([t] + ts)[0] == t;
  }

  lemma NoCallInLexeme(s: string, find: string -> Option<Found>)
    requires Finder(find) && s != "" && find(s).None? && !IsQuote(s[0]) && LexemeRun(s) > 0
    requires Tokens(s).Some? && WellCalled(Tokens(s).value)
    ensures forall k :: 0 <= k < LexemeRun(s) ==> find(s[k..]).None?
  {
    forall k | 0 <= k < LexemeRun(s) ensures find(s[k..]).None? {
      if find(s[k..]).Some? {
        assert s[0..] == s;
        HasStarts(s, k);
        CallInLexeme(s, k);
      }
    }
  }

  lemma HasStarts(s: string, k: nat)
    requires k <= |s| && |s[k..]| >= 4 && s[k..][..4] == "has("
    ensures HasAt(s, k)
  {
    assert s[k] == s[k..][..4][0] && s[k + 1] == s[k..][..4][1] && s[k + 2] == s[k..][..4][2];
    assert s[k + 3] == s[k..][..4][3];
  }

  // --- the meaning of a guard's text -----------------------------------------------------------------

  /** A text is well written when its calls of `has` are found where its tokens have them. */
  predicate WellWritten(s: string) { Tidy(s, FindCall) }

  /** The value of a well-written text is the value of its tokens, strings rewritten; so what looks like a call of
      `has` inside a string is replaced there, and an error there is an error of the guard. */
  lemma WellWrittenTextMeansItsTokens(s: string, env: Env)
    requires WellWritten(s)
    ensures Tokens(s).Some?
    ensures TextValue(s, env) ==
            match RewriteStrings(Tokens(s).value, FindCall, env)
            case Some(ts) => GuardValue(ts, env)
            case None => None
  {
    CallsAreFound();
    TidyRewritten(s, FindCall, env);
  }

  /** A text that is not well written is refused, if an opening parenthesis in it is always a guard's own. */
  lemma IllWrittenTextIsRefused(s: string, env: Env)
    requires !WellWritten(s) && ReadsWell(s)
    ensures TextValue(s, env).None?
  {
    CallsAreFound();
    UntidyIsStray(s, FindCall, env);
    var ts := SubTokens(s, FindCall, CallWords(env));
    if ts.Some? {
      StrayIsRefused(ts.value, env);
    }
  }

  predicate CallFree(s: string, find: string -> Option<Found>) {
    forall k :: 0 <= k < |s| ==> find(s[k..]).None?
  }

  // No string among the tokens has a call in it.
  predicate PlainStrings(ts: seq<Tok>, find: string -> Option<Found>) {
    forall i :: 0 <= i < |ts| && ts[i].StrLit? ==> CallFree(ts[i].s, find)
  }

  // What is found is longer than the word it becomes.
  ghost predicate Longer(find: string -> Option<Found>) {
    forall t :: find(t).Some? ==> |find(t).value.rest| + 10 < |t|
  }

  lemma {:induction false} RewritingShortens(s: string, find: string -> Option<Found>,
                                             word: Reference -> Option<string>)
    requires LikeHas(find, word) && Longer(find)
    ensures Sub(s, find, word).Some? ==> |Sub(s, find, word).value| <= |s|
    ensures Sub(s, find, word).Some? && find(s).Some? ==> |Sub(s, find, word).value| < |s|
    decreases |s|
  {
    if s != "" {
      RewritingShortens(if find(s).Some? then find(s).value.rest else s[1..], find, word);
    }
  }

  lemma {:induction false} NothingToRewrite(s: string, find: string -> Option<Found>,
                                            word: Reference -> Option<string>)
    requires LikeHas(find, word) && Longer(find)
    ensures Sub(s, find, word) == Some(s) <==> CallFree(s, find)
    decreases |s|
  {
    assert s[0..] == s;
    if s == "" {
    } else if find(s).Some? {
      RewritingShortens(s, find, word);
    } else {
      NothingToRewrite(s[1..], find, word);
      assert forall k :: 0 < k < |s| ==> s[k..] == s[1..][k - 1..];
      assert [s[0]] + s[1..] == s;
      SameHead(s, Sub(s[1..], find, word));
    }
  }

  lemma SameHead(s: string, rest: Option<string>)
    requires s != ""
    ensures After(s[..1], rest) == Some(s) <==> rest == Some(s[1..])
  {
    if rest.Some? {
      assert (s[..1] + rest.value)[1..] == rest.value;
      assert s[..1] + s[1..] == s;
    }
  }

  lemma OneStays(t: Tok, ts: seq<Tok>, find: string -> Option<Found>, env: Env)
    requires Shrinks(find)
    ensures RewriteStrings([t] + ts, find, env) == Some([t] + ts) <==>
            RewriteToken(t, find, env) == Some(t) && RewriteStrings(ts, find, env) == Some(ts)
  {
    assert ([t] + ts)[1..] == ts && ([t] + ts)[0] == t;
    if RewriteToken(t, find, env).Some? && RewriteStrings(ts, find, env).Some? {
      var u, more := RewriteToken(t, find, env).value, RewriteStrings(ts, find, env).value;
      assert ([u] + more)[1..] == more && ([u] + more)[0] == u;
    }
  }

  lemma OneIsPlain(t: Tok, ts: seq<Tok>, find: string -> Option<Found>)
    ensures PlainStrings([t] + ts, find) <==> (t.StrLit? ==> CallFree(t.s, find)) && PlainStrings(ts, find)
  {
    var all := [t] + ts;
    assert all[0] == t;
    assert forall i :: 0 <= i < |ts| ==> ts[i] == all[i + 1];
    assert forall i :: 0 < i < |all| ==> all[i] == ts[i - 1];
  }

  lemma {:induction false} PlainStringsStay(ts: seq<Tok>, find: string -> Option<Found>, env: Env)
    requires LikeHas(find, CallWords(env)) && Longer(find)
    ensures RewriteStrings(ts, find, env) == Some(ts) <==> PlainStrings(ts, find)
  {
    if ts != [] {
      PlainStringsStay(ts[1..], find, env);
      assert ts == [ts[0]] + ts[1..];
      OneStays(ts[0], ts[1..], find, env);
      OneIsPlain(ts[0], ts[1..], find);
      if ts[0].StrLit? {
        NothingToRewrite(ts[0].s, find, CallWords(env));
      }
    }
  }

  /** The strings among the tokens stay as they are exactly when there is no call in them. */
  lemma StringsStayExactly(ts: seq<Tok>, env: Env)
    ensures RewriteStrings(ts, FindCall, env) == Some(ts) <==> PlainStrings(ts, FindCall)
  {
    CallsAreFound();
    CallsAreLikeHas(FindCall, env);
    PlainStringsStay(ts, FindCall, env);
  }

  /** Any text that reads as a guard of the grammar has the guard's meaning where it is well written and has no call in
      a string, and is refused where it is not well written. */
  lemma GuardTextMeansItsDenotation(s: string, g: Or, env: Env)
    requires WfOr(g) && Tokens(s) == Some(PrintOr(g))
    ensures !WellWritten(s) ==> TextValue(s, env).None?
    ensures WellWritten(s) && PlainStrings(PrintOr(g), FindCall) ==>
              TextValue(s, env) == match DenoteOr(g, env)
                                   case Some(Bool(b)) => Some(b)
                                   case _ => None
  {
    if WellWritten(s) {
      WellWrittenTextMeansItsTokens(s, env);
      StringsStayExactly(PrintOr(g), env);
      GuardMeansItsDenotation(g, env);
    } else {
      PrintedOr(g);
      IllWrittenTextIsRefused(s, env);
    }
  }
}
