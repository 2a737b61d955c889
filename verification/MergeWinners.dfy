/** Whose word counts when manifests are merged. */
module MergeWinners {
  import opened Values
  import opened Manifests

  // --- the last that says something -----------------------------------------------------------------------

  // What there is of a member.
  function Member(m: map<string, Json>, k: string): Option<Json> {
    if k in m then Some(m[k]) else None
  }

  // The result is what the last to say something says, or what there was to begin with when none does.
  predicate WonBy(result: Option<Json>, start: Option<Json>, says: seq<Option<Json>>) {
    || (result == start && forall j :: 0 <= j < |says| ==> says[j].None?)
    || exists i :: 0 <= i < |says| && says[i].Some? && says[i] == result &&
         forall j :: i < j < |says| ==> says[j].None?
  }

  lemma SaidFirst(result: Option<Json>, start: Option<Json>, first: Option<Json>, says: seq<Option<Json>>)
    requires WonBy(result, if first.Some? then first else start, says)
    ensures WonBy(result, start, [first] + says)
  {
    var all := [first] + says;
    assert forall j :: 0 < j < |all| ==> all[j] == says[j - 1];
    if forall j :: 0 <= j < |says| ==> says[j].None? {
      assert all[0] == first;
    } else {
      var i :| 0 <= i < |says| && says[i].Some? && says[i] == result && forall j :: i < j < |says| ==> says[j].None?;
      assert all[i + 1] == result;
    }
  }

  // What each override says of a scalar: nothing when it is empty.
  function Scalars(overrides: seq<Manifest>, k: string): seq<Option<Json>> {
    if overrides == [] then [] else [NotEmpty(overrides[0].scalars, k)] + Scalars(overrides[1..], k)
  }

  function NotEmpty(m: map<string, Json>, k: string): Option<Json> {
    if k in m && Truthy(m[k]) then Some(m[k]) else None
  }

  /** A scalar of the merged manifest is that of the last override to give one that is not empty, and the base's
      if none does. */
  lemma {:induction false} LastScalarWins(base: Manifest, overrides: seq<Manifest>, k: string)
    ensures WonBy(Member(MergeAll(base, overrides).scalars, k), Member(base.scalars, k), Scalars(overrides, k))
    decreases |overrides|
  {
    if overrides != [] {
      var merged := Merge(base, overrides[0]);
      LastScalarWins(merged, overrides[1..], k);
      SaidFirst(Member(MergeAll(base, overrides).scalars, k), Member(base.scalars, k),
                NotEmpty(overrides[0].scalars, k), Scalars(overrides[1..], k));
    }
  }

  // And of a scalar or an instance value of a verb's entry, for the overrides that have the verb.
  function VerbScalars(overrides: seq<Manifest>, v: string, k: string): seq<Option<Json>> {
    if overrides == [] then []
    else [NotEmpty(EntryAt(overrides[0], v).scalars, k)] + VerbScalars(overrides[1..], v, k)
  }

  function Instances(overrides: seq<Manifest>, v: string, k: string): seq<Option<Json>> {
    if overrides == [] then [] else [Member(EntryAt(overrides[0], v).instance, k)] + Instances(overrides[1..], v, k)
  }

  /** So is a scalar of a verb's entry. */
  lemma {:induction false} LastVerbScalarWins(base: Manifest, overrides: seq<Manifest>, v: string, k: string)
    ensures WonBy(Member(EntryAt(MergeAll(base, overrides), v).scalars, k), Member(EntryAt(base, v).scalars, k),
                  VerbScalars(overrides, v, k))
    decreases |overrides|
  {
    if overrides != [] {
      MergedEntry(base, overrides[0], v);
      LastVerbScalarWins(Merge(base, overrides[0]), overrides[1..], v, k);
      SaidFirst(Member(EntryAt(MergeAll(base, overrides), v).scalars, k), Member(EntryAt(base, v).scalars, k),
                NotEmpty(EntryAt(overrides[0], v).scalars, k), VerbScalars(overrides[1..], v, k));
    }
  }

  /** An instance value of a verb's entry is that of the last override to have one, empty or not. */
  lemma {:induction false} LastInstanceWins(base: Manifest, overrides: seq<Manifest>, v: string, k: string)
    ensures WonBy(Member(EntryAt(MergeAll(base, overrides), v).instance, k), Member(EntryAt(base, v).instance, k),
                  Instances(overrides, v, k))
    decreases |overrides|
  {
    if overrides != [] {
      MergedEntry(base, overrides[0], v);
      LastInstanceWins(Merge(base, overrides[0]), overrides[1..], v, k);
      SaidFirst(Member(EntryAt(MergeAll(base, overrides), v).instance, k), Member(EntryAt(base, v).instance, k),
                Member(EntryAt(overrides[0], v).instance, k), Instances(overrides[1..], v, k));
    }
  }

  /** The merged manifest has the verbs of the base and of every override, and no other. */
  lemma {:induction false} VerbsAreCollected(base: Manifest, overrides: seq<Manifest>, v: string)
    ensures v in MergeAll(base, overrides).verbs <==>
            v in base.verbs || exists i :: 0 <= i < |overrides| && v in overrides[i].verbs
    decreases |overrides|
  {
    if overrides != [] {
      MergedEntry(base, overrides[0], v);
      VerbsAreCollected(Merge(base, overrides[0]), overrides[1..], v);
      assert forall j :: 0 < j < |overrides| ==> overrides[j] == overrides[1..][j - 1];
      if i :| 0 <= i < |overrides[1..]| && v in overrides[1..][i].verbs {
        assert v in overrides[i + 1].verbs;
      }
    }
  }

  // --- the first of an identity -----------------------------------------------------------------------------

  // The i-th is the first with its identity, which is none of the known ones.
  ghost predicate IsFirst<T, K>(b: seq<T>, key: T -> K, known: set<K>, i: nat) {
    i < |b| && key(b[i]) !in known && forall j :: 0 <= j < i ==> key(b[j]) != key(b[i])
  }

  lemma {:induction false} FirstsAreNew<T, K>(b: seq<T>, key: T -> K, known: set<K>, x: T)
    ensures x in New(b, key, known) <==> exists i :: 0 <= i < |b| && IsFirst(b, key, known, i) && b[i] == x
    decreases |b|
  {
    if b != [] {
      var rest, k := b[1..], key(b[0]);
      var known' := if k in known then known else known + {k};
      FirstsAreNew(rest, key, known', x);
      forall i | 0 <= i < |rest| ensures IsFirst(rest, key, known', i) <==> IsFirst(b, key, known, i + 1) {
        assert forall j :: 0 < j < |b| ==> b[j] == rest[j - 1];
        assert forall j :: 0 <= j < |rest| ==> rest[j] == b[j + 1];
      }
      if i :| 0 <= i < |rest| && IsFirst(rest, key, known', i) && rest[i] == x {
        assert IsFirst(b, key, known, i + 1) && b[i + 1] == x;
      }
      if i :| 0 <= i < |b| && IsFirst(b, key, known, i) && b[i] == x {
        assert i > 0 ==> IsFirst(rest, key, known', i - 1) && rest[i - 1] == x;
        assert i == 0 ==> k !in known;
      }
    }
  }

  /** A union begins with all that was there, in order, and goes on with the first of each identity that is new. */
  lemma UnionKeepsFirsts<T, K>(a: seq<T>, b: seq<T>, key: T -> K, x: T)
    ensures a <= Union(a, b, key)
    ensures x in Union(a, b, key)[|a|..] <==>
            exists i :: 0 <= i < |b| && IsFirst(b, key, Keys(a, key), i) && b[i] == x
  {
    FirstsAreNew(b, key, Keys(a, key), x);
    assert Union(a, b, key)[|a|..] == New(b, key, Keys(a, key));
  }

  /** Of a verb's requirements and prerequisites those of the base stay as they are, and the override adds the
      first of each that is new. */
  lemma RequirementsAreAdded(base: Manifest, over: Manifest, v: string, r: Requirement, p: Prerequisite)
    requires v in over.verbs
    ensures var held, brought, merged := EntryAt(base, v), over.verbs[v], EntryAt(Merge(base, over), v);
            && held.requirements <= merged.requirements && held.prerequisites <= merged.prerequisites
            && (r in merged.requirements[|held.requirements|..] <==>
                  exists i :: 0 <= i < |brought.requirements| && brought.requirements[i] == r &&
                    IsFirst(brought.requirements, RequirementKey, Keys(held.requirements, RequirementKey), i))
            && (p in merged.prerequisites[|held.prerequisites|..] <==>
                  exists i :: 0 <= i < |brought.prerequisites| && brought.prerequisites[i] == p &&
                    IsFirst(brought.prerequisites, EntityOf, Keys(held.prerequisites, EntityOf), i))
  {
    var held, brought := EntryAt(base, v), over.verbs[v];
    MergedEntry(base, over, v);
    UnionKeepsFirsts(held.requirements, brought.requirements, RequirementKey, r);
    UnionKeepsFirsts(held.prerequisites, brought.prerequisites, EntityOf, p);
  }

  // --- quirks -------------------------------------------------------------------------------------------

  // No later one has its name.
  predicate IsLastOfName(qs: seq<Quirk>, i: nat) {
    i < |qs| && forall j :: i < j < |qs| ==> qs[j].name != qs[i].name
  }

  lemma {:induction false} LastsAreKept(qs: seq<Quirk>, q: Quirk)
    ensures q in LastOfEach(qs) <==> exists i :: 0 <= i < |qs| && IsLastOfName(qs, i) && qs[i] == q
  {
    if qs != [] {
      var init, last := qs[..|qs| - 1], qs[|qs| - 1];
      LastsAreKept(init, q);
      DictionaryHasDistinctNames(init);
      LastJoins(init, last, q);
      forall i | 0 <= i < |init| ensures IsLastOfName(qs, i) <==> IsLastOfName(init, i) && init[i].name != last.name {
        assert forall j :: 0 <= j < |init| ==> qs[j] == init[j];
      }
      assert IsLastOfName(qs, |init|);
    }
  }

  lemma LastJoins(init: seq<Quirk>, last: Quirk, q: Quirk)
    ensures q in LastOfEach(init + [last]) <==> q == last || (q in LastOfEach(init) && q.name != last.name)
  {
    var rest := LastOfEach(init);
    assert (init + [last])[..|init|] == init;
    DictionaryHasDistinctNames(init);
    if last.name in Keys(rest, QuirkName) {
      var r := Replaced(rest, last);
      var k :| 0 <= k < |rest| && QuirkName(rest[k]) == last.name;
      assert r[k] == last;
      forall i | 0 <= i < |rest| ensures r[i] == (if rest[i].name == last.name then last else rest[i]) {}
      if q in rest && q.name != last.name {
        var i :| 0 <= i < |rest| && rest[i] == q;
        assert r[i] == q;
      }
    } else {
      forall i | 0 <= i < |rest| ensures rest[i].name != last.name {
        assert QuirkName(rest[i]) in Keys(rest, QuirkName);
      }
    }
  }

  /** Of the base's quirks the last of each name stays, and an override with quirks adds the first of each name
      that is new; without any it changes none. */
  lemma QuirksAreAdded(base: Manifest, over: Manifest, q: Quirk)
    ensures over.quirks == [] ==> Merge(base, over).quirks == base.quirks
    ensures over.quirks != [] ==>
              (q in Merge(base, over).quirks <==>
                 (exists i :: 0 <= i < |base.quirks| && IsLastOfName(base.quirks, i) && base.quirks[i] == q) ||
                 (exists i :: 0 <= i < |over.quirks| && over.quirks[i] == q &&
                    IsFirst(over.quirks, QuirkName, Keys(base.quirks, QuirkName), i)))
  {
    var d := LastOfEach(base.quirks);
    DictionaryHasDistinctNames(base.quirks);
    LastsAreKept(base.quirks, q);
    FirstsAreNew(over.quirks, QuirkName, Keys(d, QuirkName), q);
  }

  // --- drift --------------------------------------------------------------------------------------------

  predicate TierIs(e: Entry, tier: Json) {
    if "reversibility" in e.scalars then tier == e.scalars["reversibility"] else tier == Str("IRREVERSIBLE")
  }

  /** A report names, with the old one first, the tiers of a verb whose tier differs, and turns round when the two
      manifests do. */
  lemma ReportsTurnRound(o: Manifest, n: Manifest, v: string)
    requires v in Diff(o, n).verbsChanged
    ensures v in Diff(n, o).verbsChanged
    ensures var c, c' := Diff(o, n).verbsChanged[v], Diff(n, o).verbsChanged[v];
            && c'.requirementsAdded == c.requirementsRemoved && c'.prerequisitesAdded == c.prerequisitesRemoved
            && (c.reversibility.Some? ==>
                  c.reversibility.value.0 != c.reversibility.value.1 &&
                  TierIs(o.verbs[v], c.reversibility.value.0) && TierIs(n.verbs[v], c.reversibility.value.1))
            && (c.reversibility.None? ==> exists tier :: TierIs(o.verbs[v], tier) && TierIs(n.verbs[v], tier))
  {
    assert TierIs(o.verbs[v], Reversibility(o.verbs[v])) && TierIs(n.verbs[v], Reversibility(n.verbs[v]));
  }
}
