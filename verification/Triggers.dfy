/** What fires an automation: cron expressions read from their text, and events matched by their fields. */
module Triggers {
  import opened Values
  import opened References
  import opened Numerals
  import opened GuardEval
  import opened Registry

  // --- text ---------------------------------------------------------------------------------------------

  // `s.split(c)`: the pieces between the occurrences of the character.
  function Split(s: string, c: char): (pieces: seq<string>)
    ensures pieces != []
  {
    if s == "" then [""]
    else
      var rest := Split(s[1..], c);
      if s[0] == c then [""] + rest else [[s[0]] + rest[0]] + rest[1..]
  }

  // `s.split(c, 1)` when the character occurs: what is before its first occurrence and what is after.
  function Cut(s: string, c: char): Option<(string, string)> {
    if s == "" then None
    else if s[0] == c then Some(("", s[1..]))
    else
      match Cut(s[1..], c)
      case None => None
      case Some((before, after)) => Some(([s[0]] + before, after))
  }

  function Joined(pieces: seq<string>, c: char): string
    requires pieces != []
  {
    if |pieces| == 1 then pieces[0] else pieces[0] + [c] + Joined(pieces[1..], c)
  }

  lemma {:induction false} CutAtFirst(a: string, c: char, b: string)
    requires c !in a
    ensures Cut(a + [c] + b, c) == Some((a, b))
  {
    var s := a + [c] + b;
    if a == "" {
      assert s[1..] == b;
    } else {
      assert s[1..] == a[1..] + [c] + b;
      CutAtFirst(a[1..], c, b);
      assert [a[0]] + a[1..] == a;
    }
  }

  lemma {:induction false} NothingToCut(a: string, c: char)
    requires c !in a
    ensures Cut(a, c) == None && Split(a, c) == [a]
  {
    if a != "" {
      NothingToCut(a[1..], c);
      assert [a[0]] + a[1..] == a;
    }
  }

  lemma {:induction false} SplitAtFirst(a: string, c: char, b: string)
    requires c !in a
    ensures Split(a + [c] + b, c) == [a] + Split(b, c)
  {
    var s := a + [c] + b;
    if a == "" {
      assert s[1..] == b;
    } else {
      assert s[1..] == a[1..] + [c] + b;
      SplitAtFirst(a[1..], c, b);
      assert [a[0]] + a[1..] == a;
    }
  }

  lemma {:induction false} SplitJoined(pieces: seq<string>, c: char)
    requires pieces != [] && forall p :: p in pieces ==> c !in p
    ensures Split(Joined(pieces, c), c) == pieces
  {
    if |pieces| == 1 {
      NothingToCut(pieces[0], c);
    } else {
      SplitJoined(pieces[1..], c);
      SplitAtFirst(pieces[0], c, Joined(pieces[1..], c));
    }
  }

  // --- one cron field -----------------------------------------------------------------------------------

  datatype Stride = Stride(first: int, last: int, step: int)

  predicate Hits(s: Stride, value: int) {
    s.first <= value <= s.last && s.step > 0 && (value - s.first) % s.step == 0
  }

  // The values a part names, among lo to hi; None when it is malformed.
  function StrideOf(part: string, lo: int, hi: int): Option<Stride> {
    match Cut(part, '/')
    case None => StrideBy(part, "1", lo, hi)
    case Some((body, step)) => StrideBy(body, step, lo, hi)
  }

  function StrideBy(body: string, step: string, lo: int, hi: int): Option<Stride> {
    if IntOf(step).None? then None
    else if body == "*" then Some(Stride(lo, hi, IntOf(step).value))
    else
      match Cut(body, '-')
      case None => if IntOf(body).None? then None
        else Some(Stride(IntOf(body).value, IntOf(body).value, IntOf(step).value))
      case Some((a, b)) =>
        if IntOf(a).None? || IntOf(b).None? then None
          else Some(Stride(IntOf(a).value, IntOf(b).value, IntOf(step).value))
  }

  predicate PartHolds(part: string, value: int, lo: int, hi: int) {
    var s := StrideOf(part, lo, hi);
    s.Some? && Hits(s.value, value)
  }

  predicate FieldHolds(spec: string, value: int, lo: int, hi: int) {
    var parts := Split(spec, ',');
    exists i :: 0 <= i < |parts| && PartHolds(parts[i], value, lo, hi)
  }

  // A malformed part is passed over.
  method MatchesField(spec: string, value: int, lo: int, hi: int) returns (r: bool)
    ensures r == FieldHolds(spec, value, lo, hi)
  {
    var parts := Split(spec, ',');
    for k := 0 to |parts|
      invariant forall i :: 0 <= i < k ==> !PartHolds(parts[i], value, lo, hi)
    {
      var s := StrideOf(parts[k], lo, hi);
      if s.None? {
        continue;
      }
      if Hits(s.value, value) {
        return true;
      }
    }
    r := false;
  }

  // --- what a field is meant to say -----------------------------------------------------------------------

  datatype Range = Any | Span(from: nat, to: nat) | Just(n: nat)

  // A range, and every how many values of it.
  datatype Item = Item(range: Range, every: Option<nat>)

  function First(r: Range, lo: int): int {
    match r
    case Any => lo
    case Span(a, _) => a
    case Just(n) => n
  }

  function Last(r: Range, hi: int): int {
    match r
    case Any => hi
    case Span(_, b) => b
    case Just(n) => n
  }

  function StepOf(item: Item): nat {
    if item.every.Some? then item.every.value else 1
  }

  // The value is one of the range's first, its first plus the step, and so on up to its last.
  ghost predicate Names(item: Item, value: int, lo: int, hi: int) {
    && StepOf(item) > 0 && value <= Last(item.range, hi)
    && exists k: nat :: value == First(item.range, lo) + k * StepOf(item)
  }

  function PrintRange(r: Range): string {
    match r
    case Any => "*"
    case Span(a, b) => Decimal(a) + ['-'] + Decimal(b)
    case Just(n) => Decimal(n)
  }

  function PrintItem(item: Item): string {
    match item.every
    case None => PrintRange(item.range)
    case Some(n) => PrintRange(item.range) + ['/'] + Decimal(n)
  }

  function PrintItems(items: seq<Item>): (r: seq<string>)
    ensures |r| == |items| && forall i :: 0 <= i < |items| ==> r[i] == PrintItem(items[i])
  {
    seq(|items|, i requires 0 <= i < |items| => PrintItem(items[i]))
  }

  function PrintField(items: seq<Item>): string
    requires items != []
  {
    Joined(PrintItems(items), ',')
  }

  lemma DecimalReads(n: nat)
    ensures IntOf(Decimal(n)) == Some(n) && '-' !in Decimal(n) && '/' !in Decimal(n) && ',' !in Decimal(n)
    ensures Decimal(n) != "*"
  {
    IntRoundTrip(n);
    assert IsDigit(Decimal(n)[0]);
  }

  lemma RangeIsRead(r: Range, step: nat, text: string, lo: int, hi: int)
    requires IntOf(text) == Some(step)
    ensures StrideBy(PrintRange(r), text, lo, hi) == Some(Stride(First(r, lo), Last(r, hi), step))
    ensures '/' !in PrintRange(r) && ',' !in PrintRange(r)
  {
    match r
    case Any =>
    case Span(a, b) =>
      DecimalReads(a);
      DecimalReads(b);
      CutAtFirst(Decimal(a), '-', Decimal(b));
      assert '-' in PrintRange(r) && '-' !in "*";
    case Just(n) =>
      DecimalReads(n);
      NothingToCut(Decimal(n), '-');
  }

  lemma ItemIsRead(item: Item, lo: int, hi: int)
    ensures StrideOf(PrintItem(item), lo, hi) == Some(Stride(First(item.range, lo), Last(item.range, hi), StepOf(item)))
    ensures ',' !in PrintItem(item)
  {
    match item.every
    case None =>
      OneReads();
      RangeIsRead(item.range, 1, "1", lo, hi);
      NothingToCut(PrintRange(item.range), '/');
    case Some(n) =>
      DecimalReads(n);
      RangeIsRead(item.range, n, Decimal(n), lo, hi);
      CutAtFirst(PrintRange(item.range), '/', Decimal(n));
  }

  lemma OneReads()
    ensures IntOf("1") == Some(1)
  {
    DecimalReads(1);
    assert Decimal(1) == "1";
  }

  lemma MultiplesAreFar(step: int, d: int)
    requires step >= 0
    ensures d >= 1 ==> step * d >= step
    ensures d <= -1 ==> step * d <= -step
  {
    if d >= 1 {
      assert step * d == step + step * (d - 1);
    } else if d <= -1 {
      assert step * d == -step + step * (d + 1);
    }
  }

  lemma MultipleLeavesNothing(k: nat, step: nat)
    requires step > 0
    ensures (k * step) % step == 0
  {
    var q: int := k * step / step;
    assert k * step == step * q + k * step % step;
    var d: int := k as int - q;
    assert step * d == step * k - step * q;
    MultiplesAreFar(step, d);
  }

  lemma HitsIsNames(item: Item, value: int, lo: int, hi: int)
    ensures Hits(Stride(First(item.range, lo), Last(item.range, hi), StepOf(item)), value) <==>
            Names(item, value, lo, hi)
  {
    var first, step := First(item.range, lo), StepOf(item);
    if step > 0 && value >= first && (value - first) % step == 0 {
      var k: nat := (value - first) / step;
      assert value == first + k * step;
    }
    if step > 0 {
      if k: nat :| value == first + k * step {
        assert k * step >= 0;
        MultipleLeavesNothing(k, step);
      }
    }
  }

  ghost predicate Named(items: seq<Item>, value: int, lo: int, hi: int) {
    exists i :: 0 <= i < |items| && Names(items[i], value, lo, hi)
  }

  /** A field written from a list of items matches exactly the values that one of the items names. */
  lemma FieldMeansItsItems(items: seq<Item>, value: int, lo: int, hi: int)
    requires items != []
    ensures FieldHolds(PrintField(items), value, lo, hi) <==> Named(items, value, lo, hi)
  {
    forall i | 0 <= i < |items|
      ensures ',' !in PrintItem(items[i]) &&
              (PartHolds(PrintItem(items[i]), value, lo, hi) <==> Names(items[i], value, lo, hi))
    {
      ItemIsRead(items[i], lo, hi);
      HitsIsNames(items[i], value, lo, hi);
    }
    SplitJoined(PrintItems(items), ',');
    assert Split(PrintField(items), ',') == PrintItems(items);
  }

  /** A malformed part neither matches nor keeps the parts after it from matching. */
  lemma MalformedPartIsPassedOver(part: string, spec: string, value: int, lo: int, hi: int)
    requires ',' !in part && StrideOf(part, lo, hi).None?
    ensures FieldHolds(part + [','] + spec, value, lo, hi) <==> FieldHolds(spec, value, lo, hi)
    ensures !FieldHolds(part, value, lo, hi)
  {
    SplitAtFirst(part, ',', spec);
    NothingToCut(part, ',');
    var parts, rest := Split(part + [','] + spec, ','), Split(spec, ',');
    assert forall i :: 0 <= i < |rest| ==> rest[i] == parts[i + 1];
    assert parts[0] == part;
  }

  // --- whole expressions --------------------------------------------------------------------------------

  // A minute of the calendar; weekdays count from Monday as 0.
  datatype Moment = Moment(minute: nat, hour: nat, day: nat, month: nat, weekday: nat)

  // Days of the week count from Sunday as 0, and 7 is Sunday too.
  function FromSunday(weekday: nat): nat {
    (weekday + 1) % 7
  }

  predicate CronHolds(fields: seq<string>, t: Moment) {
    && |fields| == 5
    && FieldHolds(fields[0], t.minute, 0, 59)
    && FieldHolds(fields[1], t.hour, 0, 23)
    && FieldHolds(fields[2], t.day, 1, 31)
    && FieldHolds(fields[3], t.month, 1, 12)
    && (FieldHolds(fields[4], FromSunday(t.weekday), 0, 7) ||
        (FromSunday(t.weekday) == 0 && FieldHolds(fields[4], 7, 0, 7)))
  }

  method CronMatches(fields: seq<string>, t: Moment) returns (r: bool)
    ensures r == CronHolds(fields, t)
  {
    if |fields| != 5 {
      return false;
    }
    var dow := FromSunday(t.weekday);
    var dowOk := MatchesField(fields[4], dow, 0, 7);
    if !dowOk && dow == 0 {
      dowOk := MatchesField(fields[4], 7, 0, 7);
    }
    r := MatchesField(fields[0], t.minute, 0, 59);
    if r { r := MatchesField(fields[1], t.hour, 0, 23); }
    if r { r := MatchesField(fields[2], t.day, 1, 31); }
    if r { r := MatchesField(fields[3], t.month, 1, 12); }
    r := r && dowOk;
  }

  function PrintFields(fields: seq<seq<Item>>): (r: seq<string>)
    requires forall i :: 0 <= i < |fields| ==> fields[i] != []
    ensures |r| == |fields| && forall i :: 0 <= i < |r| ==> r[i] == PrintField(fields[i])
  {
    seq(|fields|, i requires 0 <= i < |fields| => PrintField(fields[i]))
  }

  // Every one of the five fields names its part of the minute.
  ghost predicate NamesMinute(fields: seq<seq<Item>>, t: Moment)
    requires |fields| == 5
  {
    && Named(fields[0], t.minute, 0, 59) && Named(fields[1], t.hour, 0, 23)
    && Named(fields[2], t.day, 1, 31) && Named(fields[3], t.month, 1, 12)
    && (Named(fields[4], FromSunday(t.weekday), 0, 7) ||
        (FromSunday(t.weekday) == 0 && Named(fields[4], 7, 0, 7)))
  }

  /** An expression written from five lists of items matches a minute exactly when each list names its
      part of it, both day fields included; a Sunday is named by 0 and by 7. */
  lemma CronMeansItsFields(fields: seq<seq<Item>>, t: Moment)
    requires |fields| == 5 && forall i :: 0 <= i < 5 ==> fields[i] != []
    ensures CronHolds(PrintFields(fields), t) <==> NamesMinute(fields, t)
  {
    FieldMeansItsItems(fields[0], t.minute, 0, 59);
    FieldMeansItsItems(fields[1], t.hour, 0, 23);
    FieldMeansItsItems(fields[2], t.day, 1, 31);
    FieldMeansItsItems(fields[3], t.month, 1, 12);
    FieldMeansItsItems(fields[4], FromSunday(t.weekday), 0, 7);
    FieldMeansItsItems(fields[4], 7, 0, 7);
  }

  function CronTrigger(fields: seq<string>, calendar: nat -> Moment): Trigger {
    Cron((minute: nat) => CronHolds(fields, calendar(minute)))
  }

  // --- events -------------------------------------------------------------------------------------------

  function Member(fields: map<string, Json>, name: string): Json {
    if name in fields then fields[name] else Null
  }

  function ArgsOf(body: map<string, Json>): map<string, Json> {
    if Member(body, "args").Obj? then body["args"].fields else map[]
  }

  // Each field asked for has its value among the arguments or in the body itself; a field that is
  // absent counts as Null.
  predicate EventMatches(kind: string, verb: string, asked: map<string, Json>, body: map<string, Json>) {
    && Member(body, "event") == Str(kind) && Member(body, "verb") == Str(verb)
    && forall k :: k in asked ==> PyEq(Member(ArgsOf(body), k), asked[k]) || PyEq(Member(body, k), asked[k])
  }

  method MatchesEvent(kind: string, verb: string, asked: map<string, Json>, body: map<string, Json>) returns (r: bool)
    ensures r == EventMatches(kind, verb, asked, body)
  {
    if Member(body, "event") != Str(kind) || Member(body, "verb") != Str(verb) {
      return false;
    }
    var args := ArgsOf(body);
    var keys := asked.Keys;
    while keys != {}
      invariant keys <= asked.Keys
      invariant forall k :: k in asked && k !in keys ==>
                  PyEq(Member(args, k), asked[k]) || PyEq(Member(body, k), asked[k])
      decreases |keys|
    {
      var k :| k in keys;
      if !PyEq(Member(args, k), asked[k]) && !PyEq(Member(body, k), asked[k]) {
        return false;
      }
      keys := keys - {k};
    }
    r := true;
  }

  function EventTrigger(kind: string, verb: string, asked: map<string, Json>): Trigger {
    OnEvent((body: Json) => body.Obj? && EventMatches(kind, verb, asked, body.fields))
  }
}
