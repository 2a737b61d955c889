/** The `$.source.path` sub-language: parsing, following, resolving and collecting references. */
module References {
  import opened Values

  datatype Segment = Field(name: string) | Index(i: nat)

  datatype Reference = Reference(source: string, segments: seq<Segment>)

  // --- characters -----------------------------------------------------------------------------

  predicate IsDigit(c: char) { '0' <= c <= '9' }

  predicate IsWordStart(c: char) { 'a' <= c <= 'z' || 'A' <= c <= 'Z' || c == '_' }

  predicate IsWord(c: char) { IsWordStart(c) || IsDigit(c) }

  // The length of the longest prefix of word characters (the greedy `\w*`).
  function WordRun(s: string): (n: nat)
    ensures n <= |s|
  {
    if s == "" || !IsWord(s[0]) then 0 else 1 + WordRun(s[1..])
  }

  // The length of the longest prefix of digits (the greedy `[0-9]*`).
  function DigitRun(s: string): (n: nat)
    ensures n <= |s|
    ensures forall k :: 0 <= k < n ==> IsDigit(s[k])
  {
    if s == "" || !IsDigit(s[0]) then 0 else 1 + DigitRun(s[1..])
  }

  predicate IsIdentifier(s: string) {
    s != "" && IsWordStart(s[0]) && forall k :: 0 <= k < |s| ==> IsWord(s[k])
  }

  predicate AllDigits(s: string) {
    s != "" && forall k :: 0 <= k < |s| ==> IsDigit(s[k])
  }

  // Node ids: `step_` and at least one digit.
  predicate IsStepId(s: string) {
    |s| > 5 && s[..5] == "step_" && AllDigits(s[5..])
  }

  predicate IsSource(s: string) {
    s == "item" || s == "input" || IsStepId(s)
  }

  function DigitValue(c: char): nat
    requires IsDigit(c)
  {
    c as int - '0' as int
  }

  // `int(digits)`.
  function DecimalValue(s: string): nat
    requires forall k :: 0 <= k < |s| ==> IsDigit(s[k])
  {
    if s == "" then 0 else 10 * DecimalValue(s[..|s| - 1]) + DigitValue(s[|s| - 1])
  }

  // `str(n)` for a natural number.
  function Decimal(n: nat): (s: string)
    ensures AllDigits(s)
  {
    var last := [('0' as int + n % 10) as char];
    if n < 10 then last else Decimal(n / 10) + last
  }

  // --- parsing --------------------------------------------------------------------------------

  function ParseSegments(s: string): Option<seq<Segment>> {
    if s == "" then Some([])
    else if s[0] == '.' then
      var n := WordRun(s[1..]);
      if n == 0 || !IsWordStart(s[1]) then None
      else
        match ParseSegments(s[1 + n..])
        case None => None
        case Some(rest) => Some([Field(s[1..1 + n])] + rest)
    else if s[0] == '[' then
      var n := DigitRun(s[1..]);
      if n == 0 || 1 + n >= |s| || s[1 + n] != ']' then None
      else
        match ParseSegments(s[2 + n..])
        case None => None
        case Some(rest) => Some([Index(DecimalValue(s[1..1 + n]))] + rest)
    else None
  }

  // How many characters the source takes after `$.`; 0 when there is no source.
  function SourceRun(s: string): (n: nat)
    ensures n <= |s|
  {
    if |s| >= 5 && s[..5] == "input" then 5
    else if |s| >= 4 && s[..4] == "item" then 4
    else if |s| >= 5 && s[..5] == "step_" && DigitRun(s[5..]) > 0 then 5 + DigitRun(s[5..])
    else 0
  }

  // The regular expression's final `$` also matches just before one trailing newline.
  function WithoutFinalNewline(s: string): string {
    if s != "" && s[|s| - 1] == '\n' then s[..|s| - 1] else s
  }

  function ParseReference(text: string): Option<Reference> {
    var s := WithoutFinalNewline(text);
    if |s| < 2 || s[0] != '$' || s[1] != '.' then None else ParseAfterDollar(s[2..])
  }

  function ParseAfterDollar(t: string): Option<Reference> {
    var n := SourceRun(t);
    if n == 0 then None
    else
      match ParseSegments(t[n..])
      case None => None
      case Some(path) => if path == [] then None else Some(Reference(t[..n], path))
  }

  // --- printing -------------------------------------------------------------------------------

  function PrintSegment(seg: Segment): string {
    match seg
    case Field(name) => "." + name
    case Index(i) => "[" + Decimal(i) + "]"
  }

  function PrintSegments(path: seq<Segment>): string {
    if path == [] then "" else PrintSegment(path[0]) + PrintSegments(path[1..])
  }

  function PrintReference(r: Reference): string {
    "$." + (r.source + PrintSegments(r.segments))
  }

  predicate WellFormedPath(path: seq<Segment>) {
    forall seg :: seg in path && seg.Field? ==> IsIdentifier(seg.name)
  }

  predicate WellFormed(r: Reference) {
    IsSource(r.source) && r.segments != [] && WellFormedPath(r.segments)
  }

  lemma {:induction false} WordRunStops(w: string, rest: string)
    requires forall k :: 0 <= k < |w| ==> IsWord(w[k])
    requires rest == "" || !IsWord(rest[0])
    ensures WordRun(w + rest) == |w|
  {
    if w == "" {
      assert w + rest == rest;
    } else {
      assert (w + rest)[1..] == w[1..] + rest;
      WordRunStops(w[1..], rest);
    }
  }

  lemma {:induction false} DigitRunStops(d: string, rest: string)
    requires forall k :: 0 <= k < |d| ==> IsDigit(d[k])
    requires rest == "" || !IsDigit(rest[0])
    ensures DigitRun(d + rest) == |d|
  {
    if d == "" {
      assert d + rest == rest;
    } else {
      assert (d + rest)[1..] == d[1..] + rest;
      DigitRunStops(d[1..], rest);
    }
  }

  lemma {:induction false} DecimalRoundTrip(n: nat)
    ensures DecimalValue(Decimal(n)) == n
  {
    var last := [('0' as int + n % 10) as char];
    if n < 10 {
      assert Decimal(n) == last && last[..0] == "";
    } else {
      DecimalRoundTrip(n / 10);
      assert (Decimal(n / 10) + last)[..|Decimal(n)| - 1] == Decimal(n / 10);
    }
  }

  // A printed path begins with '.' or '[', so it ends the word or the digits before it.
  lemma PrintedPathHead(path: seq<Segment>)
    ensures PrintSegments(path) == "" || PrintSegments(path)[0] == '.' || PrintSegments(path)[0] == '['
  {
  }

  // Parsing one printed segment followed by text that cannot extend it.
  lemma FieldParses(name: string, tail: string)
    requires IsIdentifier(name)
    requires tail == "" || !IsWord(tail[0])
    requires ParseSegments(tail).Some?
    ensures ParseSegments("." + name + tail) == Some([Field(name)] + ParseSegments(tail).value)
  {
    var s := "." + name + tail;
    WordRunStops(name, tail);
    AfterTheDot(name, tail);
  }

  lemma AfterTheDot(name: string, tail: string)
    requires name != ""
    ensures var s := "." + name + tail;
            && s[0] == '.' && s[1] == name[0] && s[1..] == name + tail
            && s[1..1 + |name|] == name && s[1 + |name|..] == tail
  {
  }

  lemma IndexParses(i: nat, tail: string)
    requires ParseSegments(tail).Some?
    ensures ParseSegments("[" + Decimal(i) + "]" + tail) == Some([Index(i)] + ParseSegments(tail).value)
  {
    var d := Decimal(i);
    DigitRunStops(d, "]" + tail);
    DecimalRoundTrip(i);
    InTheBrackets(d, tail);
  }

  lemma InTheBrackets(d: string, tail: string)
    ensures var s := "[" + d + "]" + tail;
            && s[0] == '[' && s[1 + |d|] == ']' && s[1..] == d + ("]" + tail)
            && s[1..1 + |d|] == d && s[2 + |d|..] == tail
  {
  }

  lemma {:induction false} SegmentsRoundTrip(path: seq<Segment>)
    requires WellFormedPath(path)
    ensures ParseSegments(PrintSegments(path)) == Some(path)
  {
    if path != [] {
      var tail := PrintSegments(path[1..]);
      assert path[0] in path;
      PrintedPathHead(path[1..]);
      SegmentsRoundTrip(path[1..]);
      assert [path[0]] + path[1..] == path;
      if path[0].Field? {
        FieldParses(path[0].name, tail);
      } else {
        IndexParses(path[0].i, tail);
      }
    }
  }

  lemma SourceRunOf(source: string, rest: string)
    requires IsSource(source)
    requires rest == "" || rest[0] == '.' || rest[0] == '['
    ensures SourceRun(source + rest) == |source|
  {
    var s := source + rest;
    if source == "item" {
      assert s[..4] == "item";
    } else if source == "input" {
      assert s[..5] == "input";
    } else {
      assert s[..5] == source[..5];
      assert s[5..] == source[5..] + rest;
      DigitRunStops(source[5..], rest);
      assert s[..4] == "step";
    }
  }

  lemma PrintedSegmentEnds(seg: Segment)
    requires seg.Field? ==> IsIdentifier(seg.name)
    ensures PrintSegment(seg) != "" && PrintSegment(seg)[|PrintSegment(seg)| - 1] != '\n'
  {
    if seg.Field? {
      assert PrintSegment(seg)[|seg.name|] == seg.name[|seg.name| - 1];
      assert IsWord(seg.name[|seg.name| - 1]);
    }
  }

  lemma {:induction false} PrintedPathTail(path: seq<Segment>)
    requires WellFormedPath(path) && path != []
    ensures PrintSegments(path) != "" && PrintSegments(path)[|PrintSegments(path)| - 1] != '\n'
  {
    assert path[0] in path;
    PrintedSegmentEnds(path[0]);
    if |path| > 1 {
      PrintedPathTail(path[1..]);
    } else {
      assert PrintSegments(path[1..]) == "";
    }
  }

  lemma AfterDollarRoundTrip(r: Reference)
    requires WellFormed(r)
    ensures ParseAfterDollar(r.source + PrintSegments(r.segments)) == Some(r)
  {
    var path := PrintSegments(r.segments);
    var t := r.source + path;
    PrintedPathHead(r.segments);
    SourceRunOf(r.source, path);
    assert t[..|r.source|] == r.source && t[|r.source|..] == path;
    SegmentsRoundTrip(r.segments);
  }

  /** Printing a well-formed reference and parsing the text gives the same reference back. */
  lemma ReferenceRoundTrip(r: Reference)
    requires WellFormed(r)
    ensures ParseReference(PrintReference(r)) == Some(r)
  {
    var path := PrintSegments(r.segments);
    var t := r.source + path;
    var s := PrintReference(r);
    PrintedPathTail(r.segments);
    assert s[|s| - 1] == path[|path| - 1];
    assert WithoutFinalNewline(s) == s;
    assert s[2..] == t;
    AfterDollarRoundTrip(r);
  }

  /** A newline at the end of a reference does not matter. */
  lemma FinalNewlineIsIgnored(r: Reference)
    requires WellFormed(r)
    ensures ParseReference(PrintReference(r) + "\n") == Some(r)
  {
    var s := PrintReference(r);
    ReferenceRoundTrip(r);
    PrintedPathTail(r.segments);
    assert s[|s| - 1] == PrintSegments(r.segments)[|PrintSegments(r.segments)| - 1];
    assert WithoutFinalNewline(s) == s && WithoutFinalNewline(s + "\n") == s;
  }

  lemma {:induction false} ParsedPathWellFormed(s: string)
    ensures ParseSegments(s).Some? ==> WellFormedPath(ParseSegments(s).value)
  {
    if s == "" {
    } else if s[0] == '.' {
      var n := WordRun(s[1..]);
      WordRunIsWord(s[1..]);
      if n != 0 && IsWordStart(s[1]) {
        ParsedPathWellFormed(s[1 + n..]);
        assert IsIdentifier(s[1..1 + n]);
      }
    } else if s[0] == '[' {
      var n := DigitRun(s[1..]);
      if n != 0 && 1 + n < |s| && s[1 + n] == ']' {
        ParsedPathWellFormed(s[2 + n..]);
      }
    }
  }

  lemma WordRunIsWord(s: string)
    ensures forall k :: 0 <= k < WordRun(s) ==> IsWord(s[k])
  {
  }

  /** Whatever parses is a well-formed reference: it names a step, `item` or `input`, and has a path. */
  lemma ParsedIsWellFormed(text: string)
    ensures ParseReference(text).Some? ==> WellFormed(ParseReference(text).value)
  {
    var s := WithoutFinalNewline(text);
    if ParseReference(text).Some? {
      var t := s[2..];
      var n := SourceRun(t);
      ParsedPathWellFormed(t[n..]);
      if n > 5 {
        assert t[..n][5..] == t[5..][..n - 5];
        assert t[..n][..5] == t[..5];
      }
    }
  }

  // --- following and resolving ----------------------------------------------------------------

  // `cursor[segment]`; None stands for KeyError, IndexError and TypeError alike.
  function Select(cursor: Json, seg: Segment): Option<Json> {
    match seg
    case Field(name) =>
      if cursor.Obj? && name in cursor.fields then Some(cursor.fields[name]) else None
    case Index(i) =>
      if cursor.Arr? && i < |cursor.items| then Some(cursor.items[i])
      else if cursor.Str? && i < |cursor.s| then Some(Str([cursor.s[i]]))
      else None
  }

  function Follow(root: Json, path: seq<Segment>): Option<Json>
    decreases |path|
  {
    if path == [] then Some(root)
    else
      match Select(root, path[0])
      case None => None
      case Some(next) => Follow(next, path[1..])
  }

  method FollowPath(root: Json, path: seq<Segment>) returns (r: Option<Json>)
    ensures r == Follow(root, path)
  {
    var cursor := root;
    for k := 0 to |path|
      invariant Follow(cursor, path[k..]) == Follow(root, path)
    {
      var next := Select(cursor, path[k]);
      assert path[k..][0] == path[k] && path[k..][1..] == path[k + 1..];
      if next.None? {
        return None;
      }
      cursor := next.value;
    }
    return Some(cursor);
  }

  // The append-only run context: step id (or `input`) -> value.
  type Context = map<string, Json>

  // One reference against the context; a missing foreach element is Null, into which nothing indexes.
  function Lookup(r: Reference, ctx: Context, item: Json): Option<Json> {
    if r.source == "item" then Follow(item, r.segments)
    else if r.source in ctx then Follow(ctx[r.source], r.segments)
    else None
  }

  // Every reference inside `v` replaced by its value; None is a ReferenceError.
  function Resolve(v: Json, ctx: Context, item: Json): Option<Json> {
    match v
    case Obj(fields) =>
      if forall k :: k in fields ==> Resolve(fields[k], ctx, item).Some?
      then Some(Obj(map k | k in fields :: Resolve(fields[k], ctx, item).value))
      else None
    case Arr(items) =>
      if forall i :: 0 <= i < |items| ==> Resolve(items[i], ctx, item).Some?
      then Some(Arr(seq(|items|, i requires 0 <= i < |items| && Resolve(items[i], ctx, item).Some? =>
        Resolve(items[i], ctx, item).value)))
      else None
    case Str(text) =>
      (match ParseReference(text)
       case None => Some(v)
       case Some(r) => Lookup(r, ctx, item))
    case _ => Some(v)
  }

  // All references anywhere inside `v`.
  function RefsIn(v: Json): set<Reference> {
    match v
    case Obj(fields) => set k, r | k in fields && r in RefsIn(fields[k]) :: r
    case Arr(items) => set i, r | 0 <= i < |items| && r in RefsIn(items[i]) :: r
    case Str(text) => (var p := ParseReference(text); if p.Some? then {p.value} else {})
    case _ => {}
  }

  /** A value resolves exactly when each reference in it does. */
  lemma {:induction false} ResolvesExactlyWhenAllDo(v: Json, ctx: Context, item: Json)
    ensures Resolve(v, ctx, item).Some? <==> forall r :: r in RefsIn(v) ==> Lookup(r, ctx, item).Some?
  {
    match v
    case Obj(fields) =>
      forall k | k in fields
        ensures Resolve(fields[k], ctx, item).Some? <==>
                forall r :: r in RefsIn(fields[k]) ==> Lookup(r, ctx, item).Some?
      {
        ResolvesExactlyWhenAllDo(fields[k], ctx, item);
      }
      forall k, r | k in fields && r in RefsIn(fields[k]) ensures r in RefsIn(v) {}
    case Arr(items) =>
      forall i | 0 <= i < |items|
        ensures Resolve(items[i], ctx, item).Some? <==>
                forall r :: r in RefsIn(items[i]) ==> Lookup(r, ctx, item).Some?
      {
        ResolvesExactlyWhenAllDo(items[i], ctx, item);
      }
      forall i, r | 0 <= i < |items| && r in RefsIn(items[i]) ensures r in RefsIn(v) {}
    case _ =>
  }
}
