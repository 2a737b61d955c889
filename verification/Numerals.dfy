/** Reading integers from text, as Python's `int` does for ASCII text. */
module Numerals {
  import opened Values
  import opened References

  // What `int` passes over at either end of a text.
  predicate IsBlank(c: char) {
    c in {' ', '\t', '\n', '\r', '\U{0B}', '\U{0C}'}
  }

  function LeftTrimmed(s: string): string {
    if s != "" && IsBlank(s[0]) then LeftTrimmed(s[1..]) else s
  }

  function RightTrimmed(s: string): string {
    if s != "" && IsBlank(s[|s| - 1]) then RightTrimmed(s[..|s| - 1]) else s
  }

  // Digits, with single underscores between them where one likes.
  predicate IsNumeral(s: string) {
    && s != "" && IsDigit(s[0]) && IsDigit(s[|s| - 1])
    && (forall k :: 0 <= k < |s| ==> IsDigit(s[k]) || s[k] == '_')
    && (forall j, k :: 0 <= j < |s| && k == j + 1 && k < |s| && s[j] == '_' ==> s[k] != '_')
  }

  function DigitsOf(s: string): (d: string)
    ensures forall k :: 0 <= k < |d| ==> IsDigit(d[k])
  {
    if s == "" then "" else (if IsDigit(s[0]) then [s[0]] else []) + DigitsOf(s[1..])
  }

  // `int(text)`, for ASCII texts.
  function IntOf(text: string): Option<int> {
    SignedOf(RightTrimmed(LeftTrimmed(text)))
  }

  function SignedOf(s: string): Option<int> {
    if IsNumeral(s) then Some(DecimalValue(DigitsOf(s)))
    else if s != "" && s[0] == '+' && IsNumeral(s[1..]) then Some(DecimalValue(DigitsOf(s[1..])))
    else if s != "" && s[0] == '-' && IsNumeral(s[1..]) then
      var n: int := DecimalValue(DigitsOf(s[1..]));
      Some(-n)
    else None
  }

  lemma {:induction false} DigitsOfDigits(d: string)
    requires forall k :: 0 <= k < |d| ==> IsDigit(d[k])
    ensures DigitsOf(d) == d
  {
    if d != "" {
      DigitsOfDigits(d[1..]);
      assert [d[0]] + d[1..] == d;
    }
  }

  lemma DigitsAreNotTrimmed(s: string)
    requires s != "" && !IsBlank(s[0]) && !IsBlank(s[|s| - 1])
    ensures RightTrimmed(LeftTrimmed(s)) == s
  {
  }

  lemma DigitsAreRead(d: string)
    requires AllDigits(d)
    ensures IsNumeral(d) && DigitsOf(d) == d && SignedOf(d) == Some(DecimalValue(d))
  {
    DigitsOfDigits(d);
  }

  lemma MinusIsRead(d: string)
    requires AllDigits(d)
    ensures SignedOf("-" + d) == Some(-(DecimalValue(d) as int))
  {
    DigitsAreRead(d);
    assert ("-" + d)[1..] == d;
  }

  /** `int` reads back what `str` writes. */
  lemma IntRoundTrip(n: int)
    ensures n >= 0 ==> IntOf(Decimal(n)) == Some(n)
    ensures n < 0 ==> IntOf("-" + Decimal(-n)) == Some(n)
  {
    var d := Decimal(if n < 0 then -n else n);
    DecimalRoundTrip(if n < 0 then -n else n);
    if n < 0 {
      MinusIsRead(d);
      DigitsAreNotTrimmed("-" + d);
    } else {
      DigitsAreRead(d);
      DigitsAreNotTrimmed(d);
    }
  }

  lemma {:induction false} DigitsOfBoth(a: string, b: string)
    ensures DigitsOf(a + b) == DigitsOf(a) + DigitsOf(b)
  {
    if a == "" {
      assert a + b == b;
    } else {
      assert (a + b)[1..] == a[1..] + b;
      DigitsOfBoth(a[1..], b);
    }
  }

  /** An underscore between digits is passed over. */
  lemma UnderscoredIsRead(a: string, b: string)
    requires AllDigits(a) && AllDigits(b)
    ensures IntOf(a + "_" + b) == Some(DecimalValue(a + b))
  {
    UnderscoredIsNumeral(a, b);
    UnderscoreIsDropped(a, b);
    DigitsAreNotTrimmed(a + "_" + b);
  }

  lemma UnderscoreIsDropped(a: string, b: string)
    requires AllDigits(a) && AllDigits(b)
    ensures DigitsOf(a + "_" + b) == a + b
  {
    DigitsOfBoth(a + "_", b);
    DigitsOfBoth(a, "_");
    assert DigitsOf("_") == "" by { assert "_"[1..] == ""; }
    DigitsOfDigits(a);
    DigitsOfDigits(b);
  }

  lemma UnderscoredIsNumeral(a: string, b: string)
    requires AllDigits(a) && AllDigits(b)
    ensures IsNumeral(a + "_" + b)
  {
    var s := a + "_" + b;
    assert s[|s| - 1] == b[|b| - 1];
  }

  predicate Blank(s: string) { forall k :: 0 <= k < |s| ==> IsBlank(s[k]) }

  lemma {:induction false} BlanksInFront(a: string, s: string)
    requires Blank(a)
    ensures LeftTrimmed(a + s) == LeftTrimmed(s)
  {
    if a == "" {
      assert a + s == s;
    } else {
      assert (a + s)[1..] == a[1..] + s;
      BlanksInFront(a[1..], s);
    }
  }

  lemma {:induction false} BlanksBehind(s: string, b: string)
    requires Blank(b)
    ensures RightTrimmed(s + b) == RightTrimmed(s)
  {
    if b == "" {
      assert s + b == s;
    } else {
      var init := b[..|b| - 1];
      assert (s + b)[..|s + b| - 1] == s + init && (s + b)[|s + b| - 1] == b[|b| - 1];
      BlanksBehind(s, init);
    }
  }

  lemma {:induction false} FrontIsTrimmedAlone(s: string, b: string)
    requires Blank(b)
    ensures LeftTrimmed(s + b) == if LeftTrimmed(s) == "" then "" else LeftTrimmed(s) + b
  {
    if s == "" {
      BlanksInFront(b, "");
      assert s + b == b && b + "" == b;
    } else if IsBlank(s[0]) {
      assert (s + b)[1..] == s[1..] + b;
      FrontIsTrimmedAlone(s[1..], b);
    }
  }

  /** Blanks around an integer do not matter, nor does a plus sign before its digits. */
  lemma BlanksAndPlusDoNotMatter(a: string, s: string, b: string)
    requires Blank(a) && Blank(b)
    ensures IntOf(a + (s + b)) == IntOf(s)
    ensures IsNumeral(s) ==> IntOf("+" + s) == IntOf(s)
  {
    BlanksInFront(a, s + b);
    FrontIsTrimmedAlone(s, b);
    BlanksBehind(LeftTrimmed(s), b);
    if IsNumeral(s) {
      DigitsAreNotTrimmed(s);
      DigitsAreNotTrimmed("+" + s);
      assert ("+" + s)[1..] == s;
    }
  }
}
