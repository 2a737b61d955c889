/** What resolving a value replaces, and what it leaves, at every place in the value. */
module Replacing {
  import opened Values
  import opened References

  // A place in a value: down through fields and elements, never into a text.
  datatype Step = In(key: string) | At(i: nat)

  type Place = seq<Step>

  // What stands at the place; None when the value does not reach there.
  function Part(v: Json, place: Place): Option<Json>
    decreases |place|
  {
    if place == [] then Some(v)
    else
      match place[0]
      case In(key) => if v.Obj? && key in v.fields then Part(v.fields[key], place[1..]) else None
      case At(i) => if v.Arr? && i < |v.items| then Part(v.items[i], place[1..]) else None
  }

  // A text that is a reference.
  predicate Refers(v: Json, r: Reference) {
    v.Str? && ParseReference(v.s) == Some(r)
  }

  // What resolving makes of one place: objects and lists keep their shape, a reference becomes what it finds, and
  // everything else stays.
  predicate Follows(given: Json, result: Option<Json>, ctx: Context, item: Json) {
    match given
    case Obj(fields) => result.Some? && result.value.Obj? && result.value.fields.Keys == fields.Keys
    case Arr(items) => result.Some? && result.value.Arr? && |result.value.items| == |items|
    case Str(text) =>
      if ParseReference(text).Some?
      then result.Some? && Lookup(ParseReference(text).value, ctx, item) == result
      else result == Some(given)
    case _ => result == Some(given)
  }

  // The result is the given value with every reference in it replaced by what it finds.
  ghost predicate Filled(given: Json, result: Json, ctx: Context, item: Json) {
    forall place :: Part(given, place).Some? ==> Follows(Part(given, place).value, Part(result, place), ctx, item)
  }

  lemma {:induction false} ResolvedAt(v: Json, ctx: Context, item: Json, place: Place)
    requires Resolve(v, ctx, item).Some? && Part(v, place).Some?
    ensures Follows(Part(v, place).value, Part(Resolve(v, ctx, item).value, place), ctx, item)
    decreases |place|
  {
    if place != [] {
      match place[0]
      case In(key) => ResolvedAt(v.fields[key], ctx, item, place[1..]);
      case At(i) => ResolvedAt(v.items[i], ctx, item, place[1..]);
    }
  }

  lemma PartOfField(v: Json, key: string, place: Place)
    requires v.Obj? && key in v.fields
    ensures Part(v, [In(key)] + place) == Part(v.fields[key], place)
  {
    assert ([In(key)] + place)[1..] == place;
  }

  lemma PartOfItem(v: Json, i: nat, place: Place)
    requires v.Arr? && i < |v.items|
    ensures Part(v, [At(i)] + place) == Part(v.items[i], place)
  {
    assert ([At(i)] + place)[1..] == place;
  }

  // A value filled the same way is the same value.
  lemma {:induction false} FilledIsUnique(given: Json, a: Json, b: Json, ctx: Context, item: Json)
    requires Filled(given, a, ctx, item) && Filled(given, b, ctx, item)
    ensures a == b
    decreases given, 1
  {
    assert Part(given, []) == Some(given) && Part(a, []) == Some(a) && Part(b, []) == Some(b);
    match given
    case Obj(_) => FieldsAreUnique(given, a, b, ctx, item);
    case Arr(_) => ItemsAreUnique(given, a, b, ctx, item);
    case _ =>
  }

  lemma {:induction false} FieldsAreUnique(given: Json, a: Json, b: Json, ctx: Context, item: Json)
    requires Filled(given, a, ctx, item) && Filled(given, b, ctx, item) && given.Obj?
    ensures a == b
    decreases given, 0
  {
    assert Part(given, []) == Some(given) && Part(a, []) == Some(a) && Part(b, []) == Some(b);
    forall key | key in given.fields ensures a.fields[key] == b.fields[key] {
      forall place | Part(given.fields[key], place).Some?
        ensures Follows(Part(given.fields[key], place).value, Part(a.fields[key], place), ctx, item)
        ensures Follows(Part(given.fields[key], place).value, Part(b.fields[key], place), ctx, item)
      {
        PartOfField(given, key, place);
        PartOfField(a, key, place);
        PartOfField(b, key, place);
      }
      FilledIsUnique(given.fields[key], a.fields[key], b.fields[key], ctx, item);
    }
    assert a.fields == b.fields;
  }

  lemma {:induction false} ItemsAreUnique(given: Json, a: Json, b: Json, ctx: Context, item: Json)
    requires Filled(given, a, ctx, item) && Filled(given, b, ctx, item) && given.Arr?
    ensures a == b
    decreases given, 0
  {
    assert Part(given, []) == Some(given) && Part(a, []) == Some(a) && Part(b, []) == Some(b);
    forall i | 0 <= i < |given.items| ensures a.items[i] == b.items[i] {
      forall place | Part(given.items[i], place).Some?
        ensures Follows(Part(given.items[i], place).value, Part(a.items[i], place), ctx, item)
        ensures Follows(Part(given.items[i], place).value, Part(b.items[i], place), ctx, item)
      {
        PartOfItem(given, i, place);
        PartOfItem(a, i, place);
        PartOfItem(b, i, place);
      }
      FilledIsUnique(given.items[i], a.items[i], b.items[i], ctx, item);
    }
    assert a.items == b.items;
  }

  /** A value resolves to another exactly when that is the value filled in: of the same shape at every place, with
      what each reference finds where the reference stood and everything else as it was. */
  lemma ResolvesToTheFilled(v: Json, result: Json, ctx: Context, item: Json)
    requires forall r :: r in RefsIn(v) ==> Lookup(r, ctx, item).Some?
    ensures Resolve(v, ctx, item) == Some(result) <==> Filled(v, result, ctx, item)
  {
    ResolvesExactlyWhenAllDo(v, ctx, item);
    var got := Resolve(v, ctx, item).value;
    forall place | Part(v, place).Some? ensures Follows(Part(v, place).value, Part(got, place), ctx, item) {
      ResolvedAt(v, ctx, item, place);
    }
    if Filled(v, result, ctx, item) {
      FilledIsUnique(v, got, result, ctx, item);
    }
  }

  // --- what a reference finds ------------------------------------------------------------------------------

  // Where a path leads: through fields by name and through lists by index, and into a text for one character at most.
  lemma {:induction false} FollowingSplits(v: Json, p: seq<Segment>, q: seq<Segment>)
    ensures Follow(v, p + q) == match Follow(v, p) case Some(w) => Follow(w, q) case None => None
    decreases |p|
  {
    if p == [] {
      assert p + q == q;
    } else {
      assert (p + q)[1..] == p[1..] + q;
      if Select(v, p[0]).Some? {
        FollowingSplits(Select(v, p[0]).value, p[1..], q);
      }
    }
  }

  function SegmentsOf(place: Place): seq<Segment> {
    if place == [] then []
    else [match place[0] case In(key) => Field(key) case At(i) => Index(i)] + SegmentsOf(place[1..])
  }

  lemma {:induction false} PathsLeadToParts(v: Json, place: Place)
    ensures Part(v, place).Some? ==> Follow(v, SegmentsOf(place)) == Part(v, place)
    decreases |place|
  {
    if place != [] && Part(v, place).Some? {
      match place[0]
      case In(key) => PathsLeadToParts(v.fields[key], place[1..]);
      case At(i) => PathsLeadToParts(v.items[i], place[1..]);
    }
  }

  /** A path from a step into its output leads to the part of the output there; of a text it leads to the character
      at an index within it; one from `item` starts at the loop element; and nothing else is found. */
  lemma LookupsFind(source: string, place: Place, i: nat, ctx: Context, item: Json)
    requires source != "item"
    ensures source in ctx && Part(ctx[source], place).Some? ==>
              Lookup(Reference(source, SegmentsOf(place)), ctx, item) == Part(ctx[source], place)
    ensures source in ctx && Part(ctx[source], place).Some? && Part(ctx[source], place).value.Str? ==>
              var text := Part(ctx[source], place).value.s;
              Lookup(Reference(source, SegmentsOf(place) + [Index(i)]), ctx, item) ==
              if i < |text| then Some(Str([text[i]])) else None
    ensures source !in ctx ==> Lookup(Reference(source, SegmentsOf(place)), ctx, item) == None
    ensures Part(item, place).Some? ==> Lookup(Reference("item", SegmentsOf(place)), ctx, item) == Part(item, place)
  {
    PathsLeadToParts(item, place);
    if source in ctx && Part(ctx[source], place).Some? {
      PathsLeadToParts(ctx[source], place);
      var part := Part(ctx[source], place).value;
      FollowingSplits(ctx[source], SegmentsOf(place), [Index(i)]);
      assert [Index(i)][1..] == [];
    }
  }
}
