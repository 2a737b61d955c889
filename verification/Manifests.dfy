/** Requirement manifests: laying overrides over a base, and reporting the drift between two. */
module Manifests {
  import opened Values

  // --- unions by identity --------------------------------------------------------------------------

  function Keys<T, K>(xs: seq<T>, key: T -> K): set<K> {
    set i | 0 <= i < |xs| :: key(xs[i])
  }

  // The elements of b whose identity is new, first come first served.
  function New<T, K(==)>(b: seq<T>, key: T -> K, seen: set<K>): seq<T> {
    if b == [] then []
    else if key(b[0]) in seen then New(b[1..], key, seen)
    else [b[0]] + New(b[1..], key, seen + {key(b[0])})
  }

  function Union<T, K(==)>(a: seq<T>, b: seq<T>, key: T -> K): seq<T> {
    a + New(b, key, Keys(a, key))
  }

  lemma KeysOfMore<T, K>(xs: seq<T>, ys: seq<T>, key: T -> K)
    ensures Keys(xs + ys, key) == Keys(xs, key) + Keys(ys, key)
  {
    forall k | k in Keys(xs, key) ensures k in Keys(xs + ys, key) {
      var i :| 0 <= i < |xs| && key(xs[i]) == k;
      assert (xs + ys)[i] == xs[i];
    }
    forall k | k in Keys(ys, key) ensures k in Keys(xs + ys, key) {
      var i :| 0 <= i < |ys| && key(ys[i]) == k;
      assert (xs + ys)[|xs| + i] == ys[i];
    }
  }

  lemma KeysOfHead<T, K>(xs: seq<T>, key: T -> K)
    requires xs != []
    ensures Keys(xs, key) == {key(xs[0])} + Keys(xs[1..], key)
  {
    assert xs == [xs[0]] + xs[1..];
    KeysOfMore([xs[0]], xs[1..], key);
    assert Keys([xs[0]], key) == {key(xs[0])};
  }

  lemma {:induction false} KeysOfNew<T, K>(b: seq<T>, key: T -> K, seen: set<K>)
    ensures Keys(New(b, key, seen), key) == Keys(b, key) - seen
    decreases |b|
  {
    if b != [] {
      KeysOfHead(b, key);
      var k := key(b[0]);
      if k in seen {
        KeysOfNew(b[1..], key, seen);
      } else {
        KeysOfNew(b[1..], key, seen + {k});
        KeysOfHead(New(b, key, seen), key);
        assert New(b, key, seen)[1..] == New(b[1..], key, seen + {k});
      }
    }
  }

  /** The union has the identities of both. */
  lemma KeysOfUnion<T, K>(a: seq<T>, b: seq<T>, key: T -> K)
    ensures Keys(Union(a, b, key), key) == Keys(a, key) + Keys(b, key)
  {
    KeysOfNew(b, key, Keys(a, key));
    KeysOfMore(a, New(b, key, Keys(a, key)), key);
  }

  lemma {:induction false} NewOfMore<T, K>(b: seq<T>, c: seq<T>, key: T -> K, seen: set<K>)
    ensures New(b + c, key, seen) == New(b, key, seen) + New(c, key, seen + Keys(b, key))
    decreases |b|
  {
    if b == [] {
      assert b + c == c && seen + Keys(b, key) == seen;
    } else {
      assert (b + c)[1..] == b[1..] + c;
      KeysOfHead(b, key);
      var k := key(b[0]);
      if k in seen {
        NewOfMore(b[1..], c, key, seen);
        assert seen + Keys(b[1..], key) == seen + Keys(b, key);
      } else {
        NewOfMore(b[1..], c, key, seen + {k});
        assert seen + {k} + Keys(b[1..], key) == seen + Keys(b, key);
      }
    }
  }

  // Sifting twice is sifting once.
  lemma {:induction false} NewOfNew<T, K>(c: seq<T>, key: T -> K, seen: set<K>, more: set<K>)
    ensures New(New(c, key, seen), key, seen + more) == New(c, key, seen + more)
    ensures New(New(c, key, seen), key, more) == New(c, key, seen + more)
    decreases |c|
  {
    if c != [] {
      var k := key(c[0]);
      if k in seen {
        NewOfNew(c[1..], key, seen, more);
      } else {
        var rest := New(c[1..], key, seen + {k});
        assert New(c, key, seen) == [c[0]] + rest && ([c[0]] + rest)[1..] == rest;
        if k in more {
          NewOfNew(c[1..], key, seen + {k}, more);
          assert seen + {k} + more == seen + more;
        } else {
          NewOfNew(c[1..], key, seen + {k}, more + {k});
          assert seen + {k} + (more + {k}) == seen + more + {k};
        }
      }
    }
  }

  /** Union is associative, in order and all. */
  lemma UnionAssociates<T, K>(a: seq<T>, b: seq<T>, c: seq<T>, key: T -> K)
    ensures Union(Union(a, b, key), c, key) == Union(a, Union(b, c, key), key)
  {
    KeysOfUnion(a, b, key);
    NewOfMore(b, New(c, key, Keys(b, key)), key, Keys(a, key));
    NewOfNew(c, key, Keys(b, key), Keys(a, key) + Keys(b, key));
    assert Keys(b, key) + (Keys(a, key) + Keys(b, key)) == Keys(a, key) + Keys(b, key);
  }

  lemma {:induction false} NothingNew<T, K>(b: seq<T>, key: T -> K, seen: set<K>)
    requires Keys(b, key) <= seen
    ensures New(b, key, seen) == []
  {
    if b != [] {
      KeysOfHead(b, key);
      NothingNew(b[1..], key, seen);
    }
  }

  /** And idempotent. */
  lemma UnionIsIdempotent<T, K>(a: seq<T>, key: T -> K)
    ensures Union(a, a, key) == a
  {
    NothingNew(a, key, Keys(a, key));
  }

  // --- manifests ----------------------------------------------------------------------------------------

  datatype Requirement = Requirement(field: string, kind: string, detail: Json)
  datatype Prerequisite = Prerequisite(entity: string, detail: Json)
  datatype Quirk = Quirk(name: string, evidence: Json)

  // A verb's entry; `scalars` holds its native target, reversibility and the like.
  datatype Entry = Entry(
    requirements: seq<Requirement>,
    prerequisites: seq<Prerequisite>,
    instance: map<string, Json>,
    scalars: map<string, Json>)

  datatype Manifest = Manifest(scalars: map<string, Json>, verbs: map<string, Entry>, quirks: seq<Quirk>)

  const BLANK := Entry([], [], map[], map[])

  function RequirementKey(r: Requirement): (string, string) {
    (r.field, r.kind)
  }

  function EntityOf(p: Prerequisite): string {
    p.entity
  }

  function QuirkName(q: Quirk): string {
    q.name
  }

  function Filled(m: map<string, Json>): map<string, Json> {
    map k | k in m && Truthy(m[k]) :: m[k]
  }

  // A scalar of the override wins when it is not empty.
  function Overlaid(base: map<string, Json>, over: map<string, Json>): map<string, Json> {
    base + Filled(over)
  }

  function MergeEntry(target: Entry, entry: Entry): Entry {
    Entry(Union(target.requirements, entry.requirements, RequirementKey),
          Union(target.prerequisites, entry.prerequisites, EntityOf),
          target.instance + entry.instance,
          Overlaid(target.scalars, entry.scalars))
  }

  function EntryAt(m: Manifest, verb: string): Entry {
    if verb in m.verbs then m.verbs[verb] else BLANK
  }

  function MergeVerbs(base: Manifest, over: Manifest): map<string, Entry> {
    map v | v in base.verbs.Keys + over.verbs.Keys ::
      if v in over.verbs then MergeEntry(EntryAt(base, v), over.verbs[v]) else base.verbs[v]
  }

  // A dictionary built from the base's quirks, in which the last of a name replaces the others in the
  // first one's place.
  function LastOfEach(a: seq<Quirk>): seq<Quirk> {
    if a == [] then []
    else
      var last := a[|a| - 1];
      var rest := LastOfEach(a[..|a| - 1]);
      if last.name in Keys(rest, QuirkName) then Replaced(rest, last) else rest + [last]
  }

  function Replaced(qs: seq<Quirk>, q: Quirk): seq<Quirk> {
    seq(|qs|, i requires 0 <= i < |qs| => if qs[i].name == q.name then q else qs[i])
  }

  function UnionQuirks(a: seq<Quirk>, b: seq<Quirk>): seq<Quirk> {
    Union(LastOfEach(a), b, QuirkName)
  }

  function Merge(base: Manifest, over: Manifest): Manifest {
    Manifest(Overlaid(base.scalars, over.scalars),
             MergeVerbs(base, over),
             if over.quirks == [] then base.quirks else UnionQuirks(base.quirks, over.quirks))
  }

  function MergeAll(base: Manifest, overrides: seq<Manifest>): Manifest
    decreases |overrides|
  {
    if overrides == [] then base else MergeAll(Merge(base, overrides[0]), overrides[1..])
  }

  // --- laws -----------------------------------------------------------------------------------------------

  predicate DistinctNames(qs: seq<Quirk>) {
    forall i, j :: 0 <= i < j < |qs| ==> qs[i].name != qs[j].name
  }

  lemma {:induction false} LastOfDistinct(a: seq<Quirk>)
    requires DistinctNames(a)
    ensures LastOfEach(a) == a
  {
    if a != [] {
      LastOfDistinct(a[..|a| - 1]);
      assert a == a[..|a| - 1] + [a[|a| - 1]];
    }
  }

  lemma {:induction false} DictionaryHasDistinctNames(a: seq<Quirk>)
    ensures DistinctNames(LastOfEach(a)) && Keys(LastOfEach(a), QuirkName) == Keys(a, QuirkName)
    ensures |LastOfEach(a)| <= |a|
  {
    if a != [] {
      var rest, last := LastOfEach(a[..|a| - 1]), a[|a| - 1];
      DictionaryHasDistinctNames(a[..|a| - 1]);
      assert a == a[..|a| - 1] + [last];
      KeysOfMore(a[..|a| - 1], [last], QuirkName);
      assert Keys([last], QuirkName) == {last.name};
      if last.name in Keys(rest, QuirkName) {
        ReplacedKeepsNames(rest, last);
      } else {
        KeysOfMore(rest, [last], QuirkName);
      }
    }
  }

  lemma ReplacedKeepsNames(qs: seq<Quirk>, q: Quirk)
    ensures Keys(Replaced(qs, q), QuirkName) == Keys(qs, QuirkName)
    ensures DistinctNames(qs) ==> DistinctNames(Replaced(qs, q))
  {
    var r := Replaced(qs, q);
    forall i | 0 <= i < |qs| ensures QuirkName(r[i]) == QuirkName(qs[i]) {}
  }

  lemma {:induction false} NewIsDistinct(b: seq<Quirk>, seen: set<string>)
    ensures DistinctNames(New(b, QuirkName, seen))
    ensures forall q :: q in New(b, QuirkName, seen) ==> q.name !in seen
  {
    if b != [] {
      if b[0].name in seen {
        NewIsDistinct(b[1..], seen);
      } else {
        NewIsDistinct(b[1..], seen + {b[0].name});
      }
    }
  }

  lemma QuirkUnionIsDistinct(a: seq<Quirk>, b: seq<Quirk>)
    ensures DistinctNames(UnionQuirks(a, b))
    ensures Keys(UnionQuirks(a, b), QuirkName) == Keys(a, QuirkName) + Keys(b, QuirkName)
  {
    DictionaryHasDistinctNames(a);
    var d := LastOfEach(a);
    NewIsDistinct(b, Keys(d, QuirkName));
    KeysOfUnion(d, b, QuirkName);
    forall i, j | 0 <= i < |d| <= j < |Union(d, b, QuirkName)|
      ensures Union(d, b, QuirkName)[i].name != Union(d, b, QuirkName)[j].name
    {
      assert Union(d, b, QuirkName)[j] == New(b, QuirkName, Keys(d, QuirkName))[j - |d|];
      assert QuirkName(d[i]) in Keys(d, QuirkName);
    }
  }

  lemma FilledOverlay(b: map<string, Json>, c: map<string, Json>)
    ensures Filled(b + Filled(c)) == Filled(b) + Filled(c)
  {
  }

  lemma PlusAssociates(a: map<string, Json>, b: map<string, Json>, c: map<string, Json>)
    ensures a + b + c == a + (b + c)
  {
  }

  lemma OverlayAssociates(a: map<string, Json>, b: map<string, Json>, c: map<string, Json>)
    ensures Overlaid(Overlaid(a, b), c) == Overlaid(a, Overlaid(b, c))
  {
    FilledOverlay(b, c);
    PlusAssociates(a, Filled(b), Filled(c));
  }

  lemma OverlayIsIdempotent(a: map<string, Json>)
    ensures Overlaid(a, a) == a
  {
  }

  lemma BlankIsNeutral(a: Entry)
    ensures MergeEntry(a, BLANK) == a
  {
  }

  lemma MergeEntryAssociates(a: Entry, b: Entry, c: Entry)
    ensures MergeEntry(MergeEntry(a, b), c) == MergeEntry(a, MergeEntry(b, c))
  {
    UnionAssociates(a.requirements, b.requirements, c.requirements, RequirementKey);
    UnionAssociates(a.prerequisites, b.prerequisites, c.prerequisites, EntityOf);
    OverlayAssociates(a.scalars, b.scalars, c.scalars);
    PlusAssociates(a.instance, b.instance, c.instance);
  }

  lemma MergeEntryIsIdempotent(a: Entry)
    ensures MergeEntry(a, a) == a
  {
    UnionIsIdempotent(a.requirements, RequirementKey);
    UnionIsIdempotent(a.prerequisites, EntityOf);
    OverlayIsIdempotent(a.scalars);
  }

  // What a merge makes of one verb.
  lemma MergedEntry(base: Manifest, over: Manifest, v: string)
    ensures v in Merge(base, over).verbs <==> v in base.verbs || v in over.verbs
    ensures EntryAt(Merge(base, over), v) ==
            if v in over.verbs then MergeEntry(EntryAt(base, v), EntryAt(over, v)) else EntryAt(base, v)
  {
  }

  lemma VerbsAssociate(a: Manifest, b: Manifest, c: Manifest, v: string)
    ensures EntryAt(Merge(Merge(a, b), c), v) == EntryAt(Merge(a, Merge(b, c)), v)
  {
    MergedEntry(a, b, v);
    MergedEntry(Merge(a, b), c, v);
    MergedEntry(b, c, v);
    MergedEntry(a, Merge(b, c), v);
    if v in c.verbs {
      MergeEntryAssociates(EntryAt(a, v), EntryAt(b, v), EntryAt(c, v));
      BlankIsNeutral(EntryAt(a, v));
    }
  }

  // Of each name, the first quirk listed and the last are the same.
  predicate FirstsAreLasts(qs: seq<Quirk>) {
    New(qs, QuirkName, {}) == LastOfEach(qs)
  }

  lemma {:induction false} DistinctAreAllNew(qs: seq<Quirk>, seen: set<string>)
    requires DistinctNames(qs) && forall i :: 0 <= i < |qs| ==> qs[i].name !in seen
    ensures New(qs, QuirkName, seen) == qs
    decreases |qs|
  {
    if qs != [] {
      DistinctAreAllNew(qs[1..], seen + {qs[0].name});
    }
  }

  lemma DistinctFirstsAreLasts(qs: seq<Quirk>)
    requires DistinctNames(qs)
    ensures FirstsAreLasts(qs)
  {
    DistinctAreAllNew(qs, {});
    LastOfDistinct(qs);
  }

  // Whether the quirks of b come as they are or as a dictionary does not matter, whatever is there already.
  lemma SiftedAlike(b: seq<Quirk>, c: seq<Quirk>, seen: set<string>)
    requires FirstsAreLasts(b)
    ensures New(Union(b, c, QuirkName), QuirkName, seen) == New(UnionQuirks(b, c), QuirkName, seen)
  {
    var d, more := LastOfEach(b), New(c, QuirkName, Keys(b, QuirkName));
    DictionaryHasDistinctNames(b);
    NewOfNew(b, QuirkName, {}, seen);
    assert {} + seen == seen;
    NewOfMore(b, more, QuirkName, seen);
    NewOfMore(d, more, QuirkName, seen);
  }

  lemma QuirksAssociate(a: Manifest, b: Manifest, c: Manifest)
    requires FirstsAreLasts(b.quirks)
    ensures Merge(Merge(a, b), c).quirks == Merge(a, Merge(b, c)).quirks
  {
    if c.quirks != [] {
      var d := LastOfEach(a.quirks);
      UnionAssociates(d, b.quirks, c.quirks, QuirkName);
      SiftedAlike(b.quirks, c.quirks, Keys(d, QuirkName));
      NeverEmptied(b.quirks, c.quirks);
      if b.quirks == [] {
        assert Union(d, b.quirks, QuirkName) == d;
        assert UnionQuirks(b.quirks, c.quirks) == Union([], c.quirks, QuirkName);
      } else {
        QuirkUnionIsDistinct(a.quirks, b.quirks);
        LastOfDistinct(UnionQuirks(a.quirks, b.quirks));
      }
    }
  }

  lemma NeverEmptied(a: seq<Quirk>, b: seq<Quirk>)
    requires b != []
    ensures UnionQuirks(a, b) != []
  {
    QuirkUnionIsDistinct(a, b);
    assert QuirkName(b[0]) in Keys(b, QuirkName);
  }

  lemma VerbNamesAssociate(a: Manifest, b: Manifest, c: Manifest)
    ensures Merge(Merge(a, b), c).verbs.Keys == a.verbs.Keys + b.verbs.Keys + c.verbs.Keys
    ensures Merge(a, Merge(b, c)).verbs.Keys == a.verbs.Keys + b.verbs.Keys + c.verbs.Keys
  {
  }

  lemma SameTable(t: map<string, Entry>, t': map<string, Entry>)
    requires t.Keys == t'.Keys && forall v :: v in t ==> t[v] == t'[v]
    ensures t == t'
  {
  }

  lemma VerbTablesAssociate(a: Manifest, b: Manifest, c: Manifest)
    ensures Merge(Merge(a, b), c).verbs == Merge(a, Merge(b, c)).verbs
  {
    var left, right := Merge(Merge(a, b), c), Merge(a, Merge(b, c));
    VerbNamesAssociate(a, b, c);
    forall v | v in left.verbs ensures left.verbs[v] == right.verbs[v] {
      VerbsAssociate(a, b, c, v);
      assert EntryAt(left, v) == EntryAt(right, v);
    }
    SameTable(left.verbs, right.verbs);
  }

  lemma SameParts(m: Manifest, m': Manifest)
    requires m.scalars == m'.scalars && m.verbs == m'.verbs && m.quirks == m'.quirks
    ensures m == m'
  {
  }

  lemma MergeAssociates(a: Manifest, b: Manifest, c: Manifest)
    requires FirstsAreLasts(b.quirks)
    ensures Merge(Merge(a, b), c) == Merge(a, Merge(b, c))
  {
    OverlayAssociates(a.scalars, b.scalars, c.scalars);
    VerbTablesAssociate(a, b, c);
    QuirksAssociate(a, b, c);
    SameParts(Merge(Merge(a, b), c), Merge(a, Merge(b, c)));
  }

  const EMPTY := Manifest(map[], map[], [])

  lemma OntoNothing(qs: seq<Quirk>)
    ensures UnionQuirks([], qs) == New(qs, QuirkName, {})
  {
    assert Keys<Quirk, string>([], QuirkName) == {};
  }

  lemma QuirkFirsts(qs: seq<Quirk>)
    ensures UnionQuirks(New(qs, QuirkName, {}), qs) == New(qs, QuirkName, {})
  {
    var firsts := New(qs, QuirkName, {});
    KeysOfNew(qs, QuirkName, {});
    NewIsDistinct(qs, {});
    LastOfDistinct(firsts);
    NothingNew(qs, QuirkName, Keys(firsts, QuirkName));
  }

  lemma QuirkLasts(qs: seq<Quirk>)
    ensures UnionQuirks(qs, qs) == LastOfEach(qs) && New(LastOfEach(qs), QuirkName, {}) == LastOfEach(qs)
  {
    DictionaryHasDistinctNames(qs);
    NothingNew(qs, QuirkName, Keys(LastOfEach(qs), QuirkName));
    DistinctAreAllNew(LastOfEach(qs), {});
  }

  // Merged into nothing first, b shows the first quirk of each name; merged with itself first, the last.
  lemma FirstsOrLasts(b: Manifest)
    requires b.quirks != []
    ensures Merge(Merge(EMPTY, b), b).quirks == New(b.quirks, QuirkName, {})
    ensures Merge(EMPTY, Merge(b, b)).quirks == LastOfEach(b.quirks)
  {
    OntoNothing(b.quirks);
    QuirkFirsts(b.quirks);
    QuirkLasts(b.quirks);
    NeverEmptied(b.quirks, b.quirks);
    OntoNothing(LastOfEach(b.quirks));
  }

  /** Overrides can be merged among themselves before they are laid over a base, whatever the base and the
      others, exactly when of each name the middle manifest's first and last quirk are the same. */
  lemma MergeAssociatesExactly(b: Manifest)
    ensures (forall a, c {:trigger Merge(Merge(a, b), c)} :: Merge(Merge(a, b), c) == Merge(a, Merge(b, c))) <==>
            FirstsAreLasts(b.quirks)
  {
    if FirstsAreLasts(b.quirks) {
      forall a, c ensures Merge(Merge(a, b), c) == Merge(a, Merge(b, c)) {
        MergeAssociates(a, b, c);
      }
    } else {
      FirstsOrLasts(b);
      assert Merge(Merge(EMPTY, b), b) != Merge(EMPTY, Merge(b, b));
    }
  }

  /** Laying a manifest over itself changes nothing exactly when it names no quirk twice. */
  lemma MergeIsIdempotent(m: Manifest)
    ensures Merge(m, m) == m <==> DistinctNames(m.quirks)
  {
    OverlayIsIdempotent(m.scalars);
    forall v | v in m.verbs ensures MergeEntry(m.verbs[v], m.verbs[v]) == m.verbs[v] {
      MergeEntryIsIdempotent(m.verbs[v]);
    }
    assert Merge(m, m).verbs == m.verbs;
    if DistinctNames(m.quirks) {
      LastOfDistinct(m.quirks);
      UnionIsIdempotent(m.quirks, QuirkName);
    } else {
      QuirkUnionIsDistinct(m.quirks, m.quirks);
    }
  }

  // --- drift ------------------------------------------------------------------------------------------------

  datatype Change = Change(
    requirementsAdded: set<(string, string)>,
    requirementsRemoved: set<(string, string)>,
    prerequisitesAdded: set<string>,
    prerequisitesRemoved: set<string>,
    reversibility: Option<(Json, Json)>)

  datatype Report = Report(
    verbsAdded: set<string>,
    verbsRemoved: set<string>,
    verbsChanged: map<string, Change>,
    quirksAdded: set<string>,
    quirksRemoved: set<string>)
  {
    predicate Changed() {
      verbsAdded != {} || verbsRemoved != {} || verbsChanged != map[] || quirksAdded != {} || quirksRemoved != {}
    }
  }

  const NO_CHANGE := Change({}, {}, {}, {}, None)

  // A verb that declares no tier is irreversible.
  function Reversibility(e: Entry): Json {
    if "reversibility" in e.scalars then e.scalars["reversibility"] else Str("IRREVERSIBLE")
  }

  function ChangeOf(o: Entry, n: Entry): Change {
    var oldReqs, newReqs := Keys(o.requirements, RequirementKey), Keys(n.requirements, RequirementKey);
    var oldPre, newPre := Keys(o.prerequisites, EntityOf), Keys(n.prerequisites, EntityOf);
    Change(newReqs - oldReqs, oldReqs - newReqs, newPre - oldPre, oldPre - newPre,
           if Reversibility(o) != Reversibility(n) then Some((Reversibility(o), Reversibility(n))) else None)
  }

  function Diff(o: Manifest, n: Manifest): Report {
    var oldQ, newQ := Keys(o.quirks, QuirkName), Keys(n.quirks, QuirkName);
    Report(n.verbs.Keys - o.verbs.Keys, o.verbs.Keys - n.verbs.Keys,
           map v | v in o.verbs && v in n.verbs && ChangeOf(o.verbs[v], n.verbs[v]) != NO_CHANGE ::
             ChangeOf(o.verbs[v], n.verbs[v]),
           newQ - oldQ, oldQ - newQ)
  }

  // All that a diff looks at.
  datatype Outline = Outline(requirements: set<(string, string)>, prerequisites: set<string>, reversibility: Json)

  function OutlineOf(e: Entry): Outline {
    Outline(Keys(e.requirements, RequirementKey), Keys(e.prerequisites, EntityOf), Reversibility(e))
  }

  // The two agree in all that a diff looks at.
  ghost predicate SameOutline(o: Manifest, n: Manifest) {
    && o.verbs.Keys == n.verbs.Keys
    && (forall v :: v in o.verbs ==> OutlineOf(o.verbs[v]) == OutlineOf(n.verbs[v]))
    && Keys(o.quirks, QuirkName) == Keys(n.quirks, QuirkName)
  }

  lemma NoChangeIsSameOutline(o: Entry, n: Entry)
    ensures ChangeOf(o, n) == NO_CHANGE <==> OutlineOf(o) == OutlineOf(n)
  {
  }

  /** The report says `changed` exactly when verbs, requirement and prerequisite identities, reversibility
      tiers or quirk names differ; other differences it does not see, though its documentation says that
      it is true whenever anything differs. */
  lemma ChangedMeansAnotherOutline(o: Manifest, n: Manifest)
    ensures Diff(o, n).Changed() <==> !SameOutline(o, n)
  {
    var d := Diff(o, n);
    forall v | v in o.verbs && v in n.verbs
      ensures v in d.verbsChanged <==> OutlineOf(o.verbs[v]) != OutlineOf(n.verbs[v])
    {
      NoChangeIsSameOutline(o.verbs[v], n.verbs[v]);
    }
    if d.verbsChanged != map[] {
      var v :| v in d.verbsChanged;
      assert OutlineOf(o.verbs[v]) != OutlineOf(n.verbs[v]);
    }
  }

  // The change of one verb is what the override brings and the base had not.
  ghost predicate OnlyAdded(base: Entry, over: Entry, c: Change) {
    && c.requirementsRemoved == {} && c.prerequisitesRemoved == {}
    && c.requirementsAdded == Keys(over.requirements, RequirementKey) - Keys(base.requirements, RequirementKey)
    && c.prerequisitesAdded == Keys(over.prerequisites, EntityOf) - Keys(base.prerequisites, EntityOf)
  }

  lemma MergedEntryOnlyAdds(base: Entry, over: Entry)
    ensures OnlyAdded(base, over, ChangeOf(base, MergeEntry(base, over)))
  {
    KeysOfUnion(base.requirements, over.requirements, RequirementKey);
    KeysOfUnion(base.prerequisites, over.prerequisites, EntityOf);
  }

  lemma UnchangedVerb(e: Entry)
    ensures ChangeOf(e, e) == NO_CHANGE
  {
  }

  /** Merging only adds: a diff from the base to the merge reports no verb, requirement, prerequisite or
      quirk removed, and as added exactly those of the override that the base had not. */
  lemma MergeOnlyAdds(base: Manifest, over: Manifest)
    ensures var d := Diff(base, Merge(base, over));
            && d.verbsRemoved == {} && d.verbsAdded == over.verbs.Keys - base.verbs.Keys
            && d.quirksRemoved == {} && d.quirksAdded == Keys(over.quirks, QuirkName) - Keys(base.quirks, QuirkName)
            && forall v :: v in d.verbsChanged ==>
                 v in base.verbs && v in over.verbs && OnlyAdded(base.verbs[v], over.verbs[v], d.verbsChanged[v])
  {
    var d := Diff(base, Merge(base, over));
    QuirkUnionIsDistinct(base.quirks, over.quirks);
    forall v | v in d.verbsChanged
      ensures v in base.verbs && v in over.verbs && OnlyAdded(base.verbs[v], over.verbs[v], d.verbsChanged[v])
    {
      ChangedVerb(base, over, v);
    }
  }

  lemma ChangedVerb(base: Manifest, over: Manifest, v: string)
    requires v in Diff(base, Merge(base, over)).verbsChanged
    ensures v in base.verbs && v in over.verbs
    ensures OnlyAdded(base.verbs[v], over.verbs[v], Diff(base, Merge(base, over)).verbsChanged[v])
  {
    MergedEntry(base, over, v);
    UnchangedVerb(base.verbs[v]);
    MergedEntryOnlyAdds(base.verbs[v], over.verbs[v]);
  }

  // --- in place ---------------------------------------------------------------------------------------------

  method UnionInto<T, K(==)>(a: seq<T>, b: seq<T>, key: T -> K) returns (r: seq<T>)
    ensures r == Union(a, b, key)
  {
    r := a;
    var seen := Keys(a, key);
    for i := 0 to |b|
      invariant r + New(b[i..], key, seen) == Union(a, b, key)
    {
      assert b[i..][0] == b[i] && b[i..][1..] == b[i + 1..];
      if key(b[i]) !in seen {
        assert r + ([b[i]] + New(b[i + 1..], key, seen + {key(b[i])})) ==
               r + [b[i]] + New(b[i + 1..], key, seen + {key(b[i])});
        r := r + [b[i]];
        seen := seen + {key(b[i])};
      }
    }
    assert b[|b|..] == [] && r + [] == r;
  }

  /** All overrides, each laid over what the ones before it left. */
  method MergeOverrides(base: Manifest, overrides: seq<Manifest>) returns (result: Manifest)
    ensures result == MergeAll(base, overrides)
  {
    result := base;
    for i := 0 to |overrides|
      invariant MergeAll(result, overrides[i..]) == MergeAll(base, overrides)
    {
      assert overrides[i..][1..] == overrides[i + 1..];
      result := LayOver(result, overrides[i]);
    }
    assert overrides[|overrides|..] == [];
  }

  method Absorb(target: Entry, entry: Entry) returns (r: Entry)
    ensures r == MergeEntry(target, entry)
  {
    var requirements := UnionInto(target.requirements, entry.requirements, RequirementKey);
    var prerequisites := UnionInto(target.prerequisites, entry.prerequisites, EntityOf);
    r := Entry(requirements, prerequisites, target.instance + entry.instance, Overlaid(target.scalars, entry.scalars));
  }

  // The verbs when all of the override's but those in `left` have been laid over the base's.
  ghost predicate LaidBut(base: Manifest, over: Manifest, left: set<string>, verbs: map<string, Entry>) {
    && verbs.Keys == base.verbs.Keys + (over.verbs.Keys - left)
    && forall v :: v in verbs ==>
         verbs[v] == if v in over.verbs && v !in left then MergeEntry(EntryAt(base, v), over.verbs[v])
           else EntryAt(base, v)
  }

  lemma AllLaid(base: Manifest, over: Manifest, verbs: map<string, Entry>)
    requires LaidBut(base, over, {}, verbs)
    ensures verbs == MergeVerbs(base, over)
  {
  }

  lemma OneMoreLaid(base: Manifest, over: Manifest, left: set<string>, verbs: map<string, Entry>, v: string, e: Entry)
    requires LaidBut(base, over, left, verbs) && v in left && v in over.verbs
    requires e == MergeEntry(if v in verbs then verbs[v] else BLANK, over.verbs[v])
    ensures LaidBut(base, over, left - {v}, verbs[v := e])
  {
  }

  method LayOver(base: Manifest, over: Manifest) returns (result: Manifest)
    ensures result == Merge(base, over)
  {
    var verbs := base.verbs;
    var left := over.verbs.Keys;
    while left != {}
      invariant left <= over.verbs.Keys && LaidBut(base, over, left, verbs)
      decreases |left|
    {
      var v :| v in left;
      var e := Absorb(if v in verbs then verbs[v] else BLANK, over.verbs[v]);
      OneMoreLaid(base, over, left, verbs, v, e);
      left := left - {v};
      verbs := verbs[v := e];
    }
    AllLaid(base, over, verbs);
    result := Manifest(Overlaid(base.scalars, over.scalars), verbs,
                       if over.quirks == [] then base.quirks else UnionQuirks(base.quirks, over.quirks));
  }
}
