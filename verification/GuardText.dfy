/** Guards as texts: the tokenizer, the rewriting of `has(...)` before it, and what a guard's text means. */
module GuardText {
  import opened Values
  import opened References
  import opened Guards
  import opened GuardEval

  // --- lexemes ------------------------------------------------------------------------------------

  // `\s`, among ASCII characters.
  predicate IsSpace(c: char) {
    c == ' ' || '\t' <= c <= '\r' || '\U{1C}' <= c <= '\U{1F}'
  }

  predicate IsQuote(c: char) { c == '\'' || c == '\"' }

  predicate StartsWord(s: string) { s != "" && IsWord(s[0]) }

  function SpaceRun(s: string): (n: nat)
    ensures n <= |s|
  {
    if s == "" || !IsSpace(s[0]) then 0 else 1 + SpaceRun(s[1..])
  }

  // The length of the longest prefix without the quote.
  function QuotedRun(s: string, quote: char): (n: nat)
    ensures n <= |s|
  {
    if s == "" || s[0] == quote then 0 else 1 + QuotedRun(s[1..], quote)
  }

  // One `.name` or `[digits]`; 0 when there is none.
  function SegmentRun(s: string): (n: nat)
    ensures n <= |s|
  {
    if s == "" then 0
    else if s[0] == '.' then
      if |s| > 1 && IsWordStart(s[1]) then 1 + WordRun(s[1..]) else 0
    else if s[0] == '[' then
      var d := DigitRun(s[1..]);
      if d > 0 && 1 + d < |s| && s[1 + d] == ']' then 2 + d else 0
    else 0
  }

  function PathRun(s: string): (n: nat)
    ensures n <= |s|
  {
    var n := SegmentRun(s);
    if n == 0 then 0 else n + PathRun(s[n..])
  }

  function RefRun(s: string): (n: nat)
    ensures n <= |s|
  {
    if |s| < 2 || s[0] != '$' || s[1] != '.' then 0
    else
      var n := SourceRun(s[2..]);
      if n == 0 then 0 else 2 + n + PathRun(s[2 + n..])
  }

  // `\d+(?:\.\d+)?`.
  function UnsignedRun(s: string): (n: nat)
    ensures n <= |s|
  {
    var d := DigitRun(s);
    if d == 0 || d == |s| || s[d] != '.' || DigitRun(s[d + 1..]) == 0 then d
    else d + 1 + DigitRun(s[d + 1..])
  }

  function NumberRun(s: string): (n: nat)
    ensures n <= |s|
  {
    if s == "" || s[0] != '-' then UnsignedRun(s)
    else if UnsignedRun(s[1..]) == 0 then 0
    else 1 + UnsignedRun(s[1..])
  }

  function StringRun(s: string): (n: nat)
    ensures n <= |s|
  {
    if s == "" || !IsQuote(s[0]) then 0
    else
      var n := QuotedRun(s[1..], s[0]);
      if 1 + n == |s| then 0 else n + 2
  }

  function OpRun(s: string): (n: nat)
    ensures n <= |s|
  {
    if s == "" then 0
    else if |s| > 1 && IsLongOp(s[0], s[1]) then 2
    else if IsShortOp(s[0]) then 1
    else 0
  }

  predicate IsLongOp(c: char, d: char) {
    (d == '=' && (c == '<' || c == '>' || c == '=' || c == '!')) || (c == d && (c == '&' || c == '|'))
  }

  predicate IsShortOp(c: char) {
    c == '<' || c == '>' || c == '!' || c == '(' || c == ')' || c == '[' || c == ']' || c == ','
  }

  // How much of the text the tokenizer takes next; 0 is an unexpected character. The alternatives of its
  // expression never begin with the same character.
  function LexemeRun(s: string): (n: nat)
    requires s != ""
    ensures n <= |s|
  {
    var c := s[0];
    if IsSpace(c) then SpaceRun(s)
    else if c == '$' then RefRun(s)
    else if c == '-' || IsDigit(c) then NumberRun(s)
    else if IsQuote(c) then StringRun(s)
    else if IsWordStart(c) then WordRun(s)
    else OpRun(s)
  }

  // --- the value of a lexeme ------------------------------------------------------------------------

  // A reference without a path parses as none; its token keeps the source.
  function RefOf(lexeme: string): Reference
    requires |lexeme| >= 2
  {
    match ParseReference(lexeme)
    case Some(r) => r
    case None => Reference(lexeme[2..], [])
  }

  // `0.digits`.
  function Fraction(digits: string): real
    requires forall k :: 0 <= k < |digits| ==> IsDigit(digits[k])
  {
    if digits == "" then 0.0 else (DigitValue(digits[0]) as real + Fraction(digits[1..])) / 10.0
  }

  function UnsignedOf(s: string): Json {
    var d := DigitRun(s);
    if d == |s| then Int(DecimalValue(s))
    else
      var f := s[d + 1..][..DigitRun(s[d + 1..])];
      Dec(DecimalValue(s[..d]) as real + Fraction(f))
  }

  function Negated(v: Json): Json {
    match v
    case Int(n) => Int(-n)
    case Dec(r) => Dec(-r)
    case _ => v
  }

  // The token of a lexeme other than blanks.
  function TokenOf(lexeme: string): Tok
    requires lexeme != ""
  {
    var c := lexeme[0];
    if c == '$' && |lexeme| >= 2 then RefTok(RefOf(lexeme))
    else if c == '-' then Number(Negated(UnsignedOf(lexeme[1..])))
    else if IsDigit(c) then Number(UnsignedOf(lexeme))
    else if IsQuote(c) && |lexeme| >= 2 then StrLit(lexeme[1..|lexeme| - 1])
    else if IsWordStart(c) then Name(lexeme)
    else Op(lexeme)
  }

  function TokenIf(lexeme: string): seq<Tok>
    requires lexeme != ""
  {
    if IsSpace(lexeme[0]) then [] else [TokenOf(lexeme)]
  }

  function Before(ts: seq<Tok>, rest: Option<seq<Tok>>): Option<seq<Tok>> {
    match rest
    case Some(more) => Some(ts + more)
    case None => None
  }

  // The tokens of a text; None at an unexpected character.
  function Tokens(s: string): Option<seq<Tok>> {
    if s == "" then Some([])
    else
      var n := LexemeRun(s);
      if n == 0 then None else Before(TokenIf(s[..n]), Tokens(s[n..]))
  }

  method Tokenize(source: string) returns (r: Option<seq<Tok>>)
    ensures r == Tokens(source)
  {
    var tokens: seq<Tok> := [];
    var pos := 0;
    ghost var left := Tokens(source[pos..]);
    ghost var all := left;
    NothingBefore(left);
    WholeText(source);
    while pos < |source|
      invariant 0 <= pos <= |source|
      invariant left == Tokens(source[pos..]) && all == Before(tokens, left)
    {
      var end, taken, after := TakeToken(source, pos);
      if end == pos {
        return None;
      }
      BeforeTwice(tokens, taken, after);
      pos, tokens, left := end, tokens + taken, after;
    }
    NothingAfter(tokens);
    r := Some(tokens);
  }

  lemma WholeText(source: string)
    ensures Tokens(source[0..]) == Tokens(source) && Tokens(source[|source|..]) == Some([])
  {
    assert source[0..] == source && source[|source|..] == "";
  }

  // The end of the lexeme at a place, and the token it is unless it is blank.
  method TakeToken(source: string, pos: nat)
    returns (end: nat, taken: seq<Tok>, ghost after: Option<seq<Tok>>)
    requires pos < |source|
    ensures pos <= end <= |source| && after == Tokens(source[end..])
    ensures Tokens(source[pos..]) == if end == pos then None else Before(taken, after)
  {
    var here := source[pos..];
    var n := LexemeRun(here);
    end, taken, after := pos + n, [], Tokens(here[n..]);
    assert here[n..] == source[end..];
    if n > 0 {
      taken := TokenIf(here[..n]);
    }
  }

  lemma NothingAfter(ts: seq<Tok>)
    ensures Before(ts, Some([])) == Some(ts)
  {
    assert ts + [] == ts;
  }

  lemma NothingBefore(rest: Option<seq<Tok>>)
    ensures Before([], rest) == rest
  {
    if rest.Some? {
      assert [] + rest.value == rest.value;
    }
  }

  lemma BeforeTwice(a: seq<Tok>, b: seq<Tok>, rest: Option<seq<Tok>>)
    ensures Before(a, Before(b, rest)) == Before(a + b, rest)
  {
    if rest.Some? {
      assert a + (b + rest.value) == a + b + rest.value;
    }
  }

  // --- has(...), rewritten in the text ----------------------------------------------------------------

  // What a call of `has` is about, and the text after it.
  datatype Found = Found(ref: Reference, rest: string)

  function Unblanked(s: string): string { s[SpaceRun(s)..] }

  // `has(` blanks reference blanks `)` at the beginning of the text.
  function FindCall(s: string): (f: Option<Found>)
    ensures f.Some? ==> |s| >= 4 && s[..4] == "has(" && |f.value.rest| + 10 < |s|
  {
    if |s| < 4 || s[..4] != "has(" then None else FindRef(Unblanked(s[4..]))
  }

  function FindRef(s: string): (f: Option<Found>)
    ensures f.Some? ==> |f.value.rest| + 6 < |s|
  {
    var r := RefRun(s);
    RefIsLong(s);
    if r == 0 then None else FindClose(RefOf(s[..r]), Unblanked(s[r..]))
  }

  function FindClose(r: Reference, s: string): (f: Option<Found>)
    ensures f.Some? ==> |f.value.rest| < |s|
  {
    if s != "" && s[0] == ')' then Some(Found(r, s[1..])) else None
  }

  lemma RefIsLong(s: string)
    ensures RefRun(s) > 0 ==> RefRun(s) >= 6
  {
  }

  // What a call becomes; None when its reference is malformed.
  function CallWord(r: Reference, env: Env): Option<string> {
    match HasValue(r, env)
    case Some(v) => Some(if Truthy(v) then "true" else "false")
    case None => None
  }

  function CallWords(env: Env): Reference -> Option<string> { r => CallWord(r, env) }

  function After(text: string, rest: Option<string>): Option<string> {
    match rest
    case Some(more) => Some(text + more)
    case None => None
  }

  function Both(a: Option<string>, b: Option<string>): Option<string> {
    match a
    case Some(text) => After(text, b)
    case None => None
  }

  // `re.sub`: from left to right, what is found is replaced by its word and the rest is copied.
  function Sub(s: string, find: string -> Option<Found>, word: Reference -> Option<string>): Option<string>
    requires forall t :: find(t).Some? ==> |find(t).value.rest| < |t|
    decreases |s|
  {
    if s == "" then Some("")
    else
      match find(s)
      case None => After(s[..1], Sub(s[1..], find, word))
      case Some(f) => Both(word(f.ref), Sub(f.rest, find, word))
  }

  // Every call of `has` with a reference becomes `true` or `false`; None when one of them is malformed.
  function RewriteText(s: string, env: Env): Option<string> {
    Sub(s, FindCall, CallWords(env))
  }

  /** What the text of a guard evaluates to: a boolean, or None for GuardError. */
  function TextValue(s: string, env: Env): Option<bool> {
    match RewriteText(s, env)
    case None => None
    case Some(cut) =>
      match Tokens(cut)
      case None => None
      case Some(ts) => Evaluated(ts, env)
  }

  method EvaluateText(expression: string, env: Env) returns (r: Option<bool>)
    ensures r == TextValue(expression, env)
  {
    var cut := RewriteText(expression, env);
    if cut.None? {
      return None;
    }
    var ts := Tokenize(cut.value);
    if ts.None? {
      return None;
    }
    r := Evaluate(ts.value, env);
  }
}
