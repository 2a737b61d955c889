/** How far the tokenizer's lexemes go, and on how little of what follows it depends. */
module Lexemes {
  import opened Values
  import opened References
  import opened Guards
  import opened GuardText

  // --- how far a lexeme goes depends on little of what comes after it --------------------------------

  lemma {:induction false} WordRunIs(s: string, n: nat)
    requires n <= |s|
    ensures WordRun(s) == n <==> (forall k :: 0 <= k < n ==> IsWord(s[k])) && !StartsWord(s[n..])
  {
    if s != "" {
      if n == 0 {
        assert s[0..] == s;
      } else {
        WordRunIs(s[1..], n - 1);
        assert s[1..][n - 1..] == s[n..];
        assert forall k :: 0 < k < n ==> s[k] == s[1..][k - 1];
      }
    }
  }

  predicate StartsDigit(s: string) { s != "" && IsDigit(s[0]) }

  lemma {:induction false} DigitRunIs(s: string, n: nat)
    requires n <= |s|
    ensures DigitRun(s) == n <==> (forall k :: 0 <= k < n ==> IsDigit(s[k])) && !StartsDigit(s[n..])
  {
    if s != "" {
      if n == 0 {
        assert s[0..] == s;
      } else {
        DigitRunIs(s[1..], n - 1);
        assert s[1..][n - 1..] == s[n..];
        assert forall k :: 0 < k < n ==> s[k] == s[1..][k - 1];
      }
    }
  }

  predicate StartsSpace(s: string) { s != "" && IsSpace(s[0]) }

  lemma {:induction false} SpaceRunIs(s: string, n: nat)
    requires n <= |s|
    ensures SpaceRun(s) == n <==> (forall k :: 0 <= k < n ==> IsSpace(s[k])) && !StartsSpace(s[n..])
  {
    if s != "" {
      if n == 0 {
        assert s[0..] == s;
      } else {
        SpaceRunIs(s[1..], n - 1);
        assert s[1..][n - 1..] == s[n..];
        assert forall k :: 0 < k < n ==> s[k] == s[1..][k - 1];
      }
    }
  }

  lemma {:induction false} QuotedRunIs(s: string, quote: char, n: nat)
    requires n <= |s|
    ensures QuotedRun(s, quote) == n <==> quote !in s[..n] && (s[n..] == "" || s[n] == quote)
  {
    if s != "" {
      if n == 0 {
        assert s[0..] == s;
      } else {
        QuotedRunIs(s[1..], quote, n - 1);
        assert s[1..][n - 1..] == s[n..];
        assert s[..n] == [s[0]] + s[1..][..n - 1];
      }
    }
  }

  // r' begins with nothing that could go on a lexeme, unless r does.
  predicate Alike(r: string, r': string) {
    && (StartsWord(r') ==> StartsWord(r))
    && (StartsDigit(r') ==> StartsDigit(r))
    && (SegmentRun(r') > 0 ==> SegmentRun(r) > 0)
    && (r' != "" && r'[0] == '=' ==> r != "" && r[0] == '=')
  }

  predicate StartsDot(s: string) { s != "" && s[0] == '.' }

  lemma DigitsEndAlike(x: string, r: string, r': string)
    requires DigitRun(x + r) == |x|
    requires StartsDigit(r') ==> StartsDigit(r)
    ensures DigitRun(x + r') == |x|
  {
    DigitRunIs(x + r, |x|);
    assert (x + r)[|x|..] == r && (x + r')[|x|..] == r';
    assert forall k :: 0 <= k < |x| ==> (x + r)[k] == x[k];
    DigitRunIs(x + r', |x|);
  }

  lemma WordEndsAlike(x: string, r: string, r': string)
    requires WordRun(x + r) == |x|
    requires StartsWord(r') ==> StartsWord(r)
    ensures WordRun(x + r') == |x|
  {
    WordRunIs(x + r, |x|);
    assert (x + r)[|x|..] == r && (x + r')[|x|..] == r';
    assert forall k :: 0 <= k < |x| ==> (x + r)[k] == x[k];
    WordRunIs(x + r', |x|);
  }

  lemma SpacesEndAlike(x: string, r: string, r': string)
    requires SpaceRun(x + r) == |x|
    requires StartsSpace(r') ==> StartsSpace(r)
    ensures SpaceRun(x + r') == |x|
  {
    SpaceRunIs(x + r, |x|);
    assert (x + r)[|x|..] == r && (x + r')[|x|..] == r';
    assert forall k :: 0 <= k < |x| ==> (x + r)[k] == x[k];
    SpaceRunIs(x + r', |x|);
  }

  // Digits that end within x end there whatever follows x.
  lemma DigitsWithin(x: string, r: string, r': string, n: nat)
    requires n < |x| && DigitRun(x + r) == n
    ensures DigitRun(x + r') == n
  {
    assert x + r == x[..n] + (x[n..] + r) && x + r' == x[..n] + (x[n..] + r');
    DigitsEndAlike(x[..n], x[n..] + r, x[n..] + r');
  }

  lemma UnsignedEndsAlike(x: string, r: string, r': string)
    requires x != "" && UnsignedRun(x + r) == |x| && Alike(r, r') && !StartsDot(r')
    ensures UnsignedRun(x + r') == |x|
  {
    var d := DigitRun(x + r);
    if d == |x| {
      DigitsEndAlike(x, r, r');
    } else {
      DigitsWithin(x, r, r', d);
      assert (x + r)[d + 1..] == x[d + 1..] + r && (x + r')[d + 1..] == x[d + 1..] + r';
      DigitsEndAlike(x[d + 1..], r, r');
    }
  }

  lemma NumberEndsAlike(x: string, r: string, r': string)
    requires x != "" && NumberRun(x + r) == |x| && Alike(r, r') && !StartsDot(r')
    ensures NumberRun(x + r') == |x|
  {
    if x[0] == '-' {
      assert (x + r)[1..] == x[1..] + r && (x + r')[1..] == x[1..] + r';
      UnsignedEndsAlike(x[1..], r, r');
    } else {
      UnsignedEndsAlike(x, r, r');
    }
  }

  lemma StringEndsAnyhow(x: string, r: string, r': string)
    requires x != "" && StringRun(x + r) == |x|
    ensures StringRun(x + r') == |x|
  {
    var n := |x| - 2;
    assert (x + r)[1..] == x[1..] + r && (x + r')[1..] == x[1..] + r';
    QuotedRunIs((x + r)[1..], x[0], n);
    assert (x + r')[1..][..n] == (x + r)[1..][..n] && (x + r')[1..][n] == x[|x| - 1];
    QuotedRunIs((x + r')[1..], x[0], n);
  }

  lemma SegmentEndsAlike(x: string, r: string, r': string)
    requires x != "" && SegmentRun(x + r) == |x|
    requires StartsWord(r') ==> StartsWord(r)
    ensures SegmentRun(x + r') == |x|
  {
    assert (x + r)[1..] == x[1..] + r && (x + r')[1..] == x[1..] + r';
    if x[0] == '.' {
      WordEndsAlike(x[1..], r, r');
    } else {
      DigitsWithin(x[1..], r, r', |x| - 2);
    }
  }

  lemma PathStep(a: string, rest: string)
    requires a != "" && SegmentRun(a + rest) == |a|
    ensures PathRun(a + rest) == |a| + PathRun(rest)
  {
    assert (a + rest)[|a|..] == rest;
  }

  lemma {:induction false} PathEndsAlike(x: string, r: string, r': string)
    requires PathRun(x + r) == |x| && Alike(r, r')
    ensures PathRun(x + r') == |x|
  {
    if x == "" {
      assert x + r == r && x + r' == r';
    } else {
      var n := SegmentRun(x + r);
      var a, b := x[..n], x[n..];
      assert x + r == a + (b + r) && x + r' == a + (b + r');
      PathStep(a, b + r);
      StillAlike(b, r, r');
      SegmentEndsAlike(a, b + r, b + r');
      PathStep(a, b + r');
      PathEndsAlike(b, r, r');
    }
  }

  lemma StillAlike(b: string, r: string, r': string)
    requires Alike(r, r')
    ensures StartsWord(b + r') ==> StartsWord(b + r)
    ensures StartsDigit(b + r') ==> StartsDigit(b + r)
  {
    if b == "" {
      assert b + r == r && b + r' == r';
    }
  }

  lemma SourceEndsAlike(x: string, r: string, r': string)
    requires x != "" && SourceRun(x + r) == |x|
    requires StartsDigit(r') ==> StartsDigit(r)
    ensures SourceRun(x + r') == |x|
  {
    var s, s' := x + r, x + r';
    if |s| >= 5 && s[..5] == "input" {
      assert s'[..5] == x == s[..5];
    } else if |s| >= 4 && s[..4] == "item" {
      assert s'[..4] == x == s[..4];
      assert s'[1] == 't';
    } else {
      assert |x| > 5;
      assert s'[..5] == x[..5] == s[..5];
      assert s[5..] == x[5..] + r && s'[5..] == x[5..] + r';
      DigitsEndAlike(x[5..], r, r');
      assert s'[0] == 's';
    }
  }

  // A source that ends within y ends there whatever follows y.
  lemma SourceWithin(y: string, r: string, r': string, n: nat)
    requires 0 < n <= |y| && SourceRun(y + r) == n && Alike(r, r')
    ensures SourceRun(y + r') == n
  {
    var a, b := y[..n], y[n..];
    assert y + r == a + (b + r) && y + r' == a + (b + r');
    StillAlike(b, r, r');
    SourceEndsAlike(a, b + r, b + r');
  }

  lemma PartsOf(x: string, r: string, n: nat)
    requires 2 + n <= |x|
    ensures (x + r)[2..] == x[2..] + r && (x + r)[2 + n..] == x[2 + n..] + r
    ensures (x + r)[0] == x[0] && (x + r)[1] == x[1]
  {
  }

  lemma RefParts(s: string, n: nat)
    requires 2 + n <= |s| && s[0] == '$' && s[1] == '.' && n > 0 && SourceRun(s[2..]) == n
    ensures RefRun(s) == 2 + n + PathRun(s[2 + n..])
  {
  }

  lemma RefEndsAlike(x: string, r: string, r': string)
    requires x != "" && RefRun(x + r) == |x| && Alike(r, r')
    ensures RefRun(x + r') == |x|
  {
    var n := SourceRun((x + r)[2..]);
    PartsOf(x, r, n);
    PartsOf(x, r', n);
    SourceWithin(x[2..], r, r', n);
    PathEndsAlike(x[2 + n..], r, r');
    RefParts(x + r', n);
  }

  lemma OpEndsAlike(x: string, r: string, r': string)
    requires x != "" && OpRun(x + r) == |x| && Alike(r, r')
    ensures OpRun(x + r') == |x|
  {
    assert |x| == 1 && r' != "" ==> (x + r')[1] == r'[0];
    assert |x| == 1 && r != "" ==> (x + r)[1] == r[0];
  }

  lemma LexemeEndsAlike(x: string, r: string, r': string)
    requires x != "" && LexemeRun(x + r) == |x| && Alike(r, r') && !StartsDot(r')
    requires IsSpace(x[0]) && StartsSpace(r') ==> StartsSpace(r)
    ensures LexemeRun(x + r') == |x|
  {
    var c := x[0];
    assert (x + r)[0] == c && (x + r')[0] == c;
    if IsSpace(c) { SpacesEndAlike(x, r, r'); }
    else if c == '$' { RefEndsAlike(x, r, r'); }
    else if c == '-' || IsDigit(c) { NumberEndsAlike(x, r, r'); }
    else if IsQuote(c) { StringEndsAnyhow(x, r, r'); }
    else if IsWordStart(c) { WordEndsAlike(x, r, r'); }
    else { OpEndsAlike(x, r, r'); }
  }

  lemma NoSegment(r: string)
    requires r != "" && r[0] != '.' && r[0] != '['
    ensures SegmentRun(r) == 0
  {
  }

  // --- up to a quote ---------------------------------------------------------------------------------

  predicate StartsQuote(s: string) { s != "" && IsQuote(s[0]) }

  predicate IsRefChar(c: char) { IsWord(c) || c == '$' || c == '.' || c == '[' || c == ']' }

  lemma SegmentChars(s: string)
    ensures forall k :: 0 <= k < SegmentRun(s) ==> IsRefChar(s[k])
  {
    var n := SegmentRun(s);
    if n > 0 {
      WordRunIs(s[1..], WordRun(s[1..]));
      assert forall k :: 0 < k < n ==> s[k] == s[1..][k - 1];
    }
  }

  lemma {:induction false} PathChars(s: string)
    ensures forall k :: 0 <= k < PathRun(s) ==> IsRefChar(s[k])
  {
    SegmentChars(s);
    var n := SegmentRun(s);
    if n > 0 {
      PathChars(s[n..]);
      assert forall k :: n <= k < PathRun(s) ==> s[k] == s[n..][k - n];
    }
  }

  lemma SourceChars(s: string)
    ensures forall k :: 0 <= k < SourceRun(s) ==> IsRefChar(s[k])
  {
    var n := SourceRun(s);
    if |s| >= 5 && s[..5] == "input" {
      assert forall k :: 0 <= k < 5 ==> s[k] == "input"[k];
    } else if |s| >= 4 && s[..4] == "item" {
      assert forall k :: 0 <= k < 4 ==> s[k] == "item"[k];
    } else if n > 0 {
      assert forall k :: 0 <= k < 5 ==> s[k] == "step_"[k];
      assert forall k :: 5 <= k < n ==> s[k] == s[5..][k - 5];
    }
  }

  lemma RefChars(s: string)
    ensures forall k :: 0 <= k < RefRun(s) ==> IsRefChar(s[k])
  {
    if RefRun(s) > 0 {
      var n := SourceRun(s[2..]);
      SourceChars(s[2..]);
      PathChars(s[2 + n..]);
      assert forall k :: 2 <= k < 2 + n ==> s[k] == s[2..][k - 2];
      assert forall k :: 2 + n <= k < RefRun(s) ==> s[k] == s[2 + n..][k - 2 - n];
    }
  }

  lemma DigitsUntilQuote(u: string, t: string)
    requires StartsQuote(t)
    ensures DigitRun(u + t) == DigitRun(u)
  {
    var n := DigitRun(u);
    DigitRunIs(u, n);
    assert (u + t)[n..] == u[n..] + t;
    DigitRunIs(u + t, n);
  }

  lemma WordUntilQuote(u: string, t: string)
    requires StartsQuote(t)
    ensures WordRun(u + t) == WordRun(u)
  {
    var n := WordRun(u);
    WordRunIs(u, n);
    assert (u + t)[n..] == u[n..] + t;
    WordRunIs(u + t, n);
  }

  lemma BlanksUntilQuote(u: string, t: string)
    requires StartsQuote(t)
    ensures SpaceRun(u + t) == SpaceRun(u)
  {
    var n := SpaceRun(u);
    SpaceRunIs(u, n);
    assert (u + t)[n..] == u[n..] + t;
    SpaceRunIs(u + t, n);
  }

  lemma SegmentUntilQuote(u: string, t: string)
    requires StartsQuote(t)
    ensures SegmentRun(u + t) == SegmentRun(u)
  {
    if u == "" {
      assert u + t == t;
    } else {
      assert (u + t)[1..] == u[1..] + t;
      DigitsUntilQuote(u[1..], t);
      WordUntilQuote(u[1..], t);
    }
  }

  lemma AlikeUntilQuote(u: string, t: string)
    requires StartsQuote(t)
    ensures Alike(u, u + t) && Alike(u + t, u)
  {
    SegmentUntilQuote(u, t);
    if u == "" {
      assert u + t == t;
    }
  }

  lemma RefKeptAtQuote(x: string, t: string)
    requires StartsQuote(t) && RefRun(x) > 0
    ensures RefRun(x + t) == RefRun(x)
  {
    var n := RefRun(x);
    var a, b := x[..n], x[n..];
    assert x == a + b && x + t == a + (b + t);
    AlikeUntilQuote(b, t);
    RefEndsAlike(a, b, b + t);
  }

  lemma RefEndsBeforeQuote(x: string, t: string)
    requires StartsQuote(t)
    ensures RefRun(x + t) <= |x|
  {
    RefChars(x + t);
    assert !IsRefChar((x + t)[|x|]);
  }

  lemma RefFoundBeforeQuote(x: string, t: string)
    requires StartsQuote(t) && RefRun(x + t) > 0
    ensures RefRun(x + t) == RefRun(x)
  {
    var m := RefRun(x + t);
    RefEndsBeforeQuote(x, t);
    var a, b := x[..m], x[m..];
    assert x == a + b && x + t == a + (b + t);
    AlikeUntilQuote(b, t);
    RefEndsAlike(a, b + t, b);
  }

  lemma RefUntilQuote(x: string, t: string)
    requires StartsQuote(t)
    ensures RefRun(x + t) == RefRun(x)
  {
    if RefRun(x) > 0 {
      RefKeptAtQuote(x, t);
    } else if RefRun(x + t) > 0 {
      RefFoundBeforeQuote(x, t);
    }
  }

  // --- numbers ------------------------------------------------------------------------------------------

  lemma AllOfThemDigits(s: string)
    requires AllDigits(s)
    ensures DigitRun(s) == |s|
  {
    DigitRunIs(s, |s|);
    assert s[|s|..] == "";
  }

  lemma NumberFirst(s: string)
    requires s != "" && IsDigit(s[0])
    ensures LexemeRun(s) == UnsignedRun(s) && TokenOf(s) == Number(UnsignedOf(s))
  {
  }

  lemma MinusFirst(s: string, d: string)
    requires s != "" && s[0] == '-' && s[1..] == d && UnsignedRun(d) > 0
    ensures LexemeRun(s) == 1 + UnsignedRun(d) && TokenOf(s) == Number(Negated(UnsignedOf(d)))
  {
  }

  lemma IntegerDigits(n: nat)
    ensures UnsignedRun(Decimal(n)) == |Decimal(n)| && UnsignedOf(Decimal(n)) == Int(n)
  {
    AllOfThemDigits(Decimal(n));
    DecimalRoundTrip(n);
  }

  /** The lexeme of an integer is that integer. */
  lemma IntegerIsRead(n: nat)
    ensures var d := Decimal(n); LexemeRun(d) == |d| && TokenOf(d) == Number(Int(n))
    ensures var m := "-" + Decimal(n); LexemeRun(m) == |m| && TokenOf(m) == Number(Int(-(n as int)))
  {
    IntegerDigits(n);
    NumberFirst(Decimal(n));
    MinusFirst("-" + Decimal(n), Decimal(n));
  }

  // r with the point n places further right.
  function Shifted(r: real, n: nat): real
    decreases n
  {
    if n == 0 then r else Shifted(10.0 * r, n - 1)
  }

  lemma {:induction false} PointGone(w: string, f: string)
    requires forall k :: 0 <= k < |w| ==> IsDigit(w[k])
    requires forall k :: 0 <= k < |f| ==> IsDigit(f[k])
    ensures Shifted(DecimalValue(w) as real + Fraction(f), |f|) == DecimalValue(w + f) as real
    decreases |f|
  {
    if f == "" {
      assert w + f == w;
    } else {
      var longer := w + [f[0]];
      assert longer[..|longer| - 1] == w && longer + f[1..] == w + f;
      PointGone(longer, f[1..]);
      assert 10.0 * (DecimalValue(w) as real + Fraction(f)) == DecimalValue(longer) as real + Fraction(f[1..]);
    }
  }

  // w, a point and f.
  predicate IsPointed(s: string, w: string, f: string) {
    && |s| == |w| + 1 + |f| && s[..|w|] == w && s[|w|] == '.' && s[|w| + 1..] == f
    && DigitRun(s) == |w| > 0 && DigitRun(f) == |f| > 0
  }

  lemma PointedParts(w: string, f: string)
    requires AllDigits(w) && AllDigits(f)
    ensures IsPointed(w + ("." + f), w, f)
  {
    var s := w + ("." + f);
    DigitRunIs(s, |w|);
    AllOfThemDigits(f);
    assert s[|w|..] == "." + f;
  }

  lemma PointedValue(s: string, w: string, f: string)
    requires IsPointed(s, w, f) && AllDigits(w) && AllDigits(f)
    ensures UnsignedRun(s) == |s|
    ensures UnsignedOf(s) == Dec(DecimalValue(w) as real + Fraction(f))
  {
    assert s[|w| + 1..][..|f|] == f;
  }

  lemma PointedToken(s: string, w: string, f: string) returns (r: real)
    requires IsPointed(s, w, f) && AllDigits(w) && AllDigits(f)
    ensures LexemeRun(s) == |s| && TokenOf(s) == Number(Dec(r))
    ensures r == DecimalValue(w) as real + Fraction(f)
  {
    PointedValue(s, w, f);
    assert s[0] == s[..|w|][0];
    NumberFirst(s);
    r := UnsignedOf(s).r;
  }

  /** The lexeme of a decimal is the number of all its digits with the point moved back over those behind it. */
  lemma DecimalIsRead(s: string, w: string, f: string) returns (r: real)
    requires AllDigits(w) && AllDigits(f) && s == w + ("." + f)
    ensures LexemeRun(s) == |s| && TokenOf(s) == Number(Dec(r))
    ensures Shifted(r, |f|) == DecimalValue(w + f) as real
  {
    PointedParts(w, f);
    r := PointedToken(s, w, f);
    PointGone(w, f);
  }
}
