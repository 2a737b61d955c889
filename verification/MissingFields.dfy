/** The smallest program in which a reference goes missing although its source is there. */
module MissingFields {
  import opened Values
  import opened References
  import opened Graph
  import opened Kahn
  import opened Dsl
  import opened Validator
  import opened Executor
  import opened Client
  import opened Resolving
  import opened StraightLines

  function FieldOf(a: string, name: string): Reference {
    Reference(a, [Field("output"), Field(name)])
  }

  // b shows a field of what a was answered.
  function Showing(a: string, b: string, verb: string, shown: map<string, Json>): Program {
    Program(a, [Query(a, verb, map[], Some(b), None), Notify(b, shown, None)], Halt)
  }

  predicate TwoSteps(a: string, b: string, shown: map<string, Json>, name: string) {
    IsStepId(a) && IsStepId(b) && a != b && RefsIn(Obj(shown)) == {FieldOf(a, name)}
  }

  // Such a message: one text that is the reference.
  lemma ThereAreMessages(a: string, name: string)
    requires IsStepId(a) && IsIdentifier(name)
    ensures RefsIn(Obj(map["en" := Str(PrintReference(FieldOf(a, name)))])) == {FieldOf(a, name)}
  {
    ReferenceRoundTrip(FieldOf(a, name));
    TextReads(PrintReference(FieldOf(a, name)), FieldOf(a, name));
  }

  lemma TextReads(text: string, r: Reference)
    requires ParseReference(text) == Some(r)
    ensures RefsIn(Obj(map["en" := Str(text)])) == {r}
  {
    var shown := map["en" := Str(text)];
    assert RefsIn(shown["en"]) == {r};
  }

  lemma ShowingNodes(a: string, b: string, verb: string, shown: map<string, Json>)
    requires a != b
    ensures var p := Showing(a, b, verb, shown);
            && Ids(p) == [a, b] && NodeIds(p) == {a, b} && Members([a, b]) == {a, b}
            && NodeAt(p, a) == Query(a, verb, map[], Some(b), None) && NodeAt(p, b) == Notify(b, shown, None)
  {
    var p := Showing(a, b, verb, shown);
    var ids := [a, b];
    assert Ids(p) == ids;
    assert ids[0] in ids && ids[1] in ids;
    NodeAtIsUnique(p, 0);
    NodeAtIsUnique(p, 1);
  }

  lemma ShowingEdges(a: string, b: string, verb: string, shown: map<string, Json>)
    requires a != b
    ensures EdgesOf(Showing(a, b, verb, shown)) == map[a := [b], b := []]
  {
    var p := Showing(a, b, verb, shown);
    ShowingNodes(a, b, verb, shown);
    WithinAll([b], {a, b});
    WithinAll([], {a, b});
    assert EdgesOf(p)[a] == [b] && EdgesOf(p)[b] == [];
  }

  lemma ShowingOrder(e: Edges<string>, a: string, b: string)
    requires a != b && e == map[a := [b], b := []]
    ensures Topological(e, [a, b]) && Reaches(e, a, a) && Reaches(e, a, b)
  {
    assert PathBetween(e, [a], a, a);
    assert PathBetween(e, [a, b], a, b);
  }

  lemma OneSource(r: Reference)
    ensures Sources({r}) == {r.source}
  {
  }

  lemma NothingIsSent()
    ensures Sources(RefsIn(Obj(map[]))) == {}
  {
  }

  /** The validator admits the program. */
  lemma ShowingIsAdmitted(a: string, b: string, verb: string, shown: map<string, Json>, name: string)
    requires TwoSteps(a, b, shown, name)
    ensures var p, order := Showing(a, b, verb, shown), [a, b];
            && SchemaOk(p) && NoDangling(p) && !Cyclic(p) && AllReachable(p) && NoneMisplaced(p, order)
            && Members(order) == NodeIds(p) && Topological(EdgesOf(p), order)
  {
    var p, order := Showing(a, b, verb, shown), [a, b];
    ShowingNodes(a, b, verb, shown);
    ShowingEdges(a, b, verb, shown);
    ShowingOrder(EdgesOf(p), a, b);
    ShowingIsAcyclic(p, a, b);
    OneSource(FieldOf(a, name));
    NothingIsSent();
    InItsPlace(p, a, b);
  }

  lemma ShowingIsAcyclic(p: Program, a: string, b: string)
    requires NodeIds(p) == {a, b} && Topological(EdgesOf(p), [a, b])
    ensures !Cyclic(p)
  {
    EdgesAreClosed(p);
    forall v | v in NodeIds(p) ensures !OnCycle(EdgesOf(p), v) {
      TopologicalIsAcyclic(EdgesOf(p), [a, b], NodeIds(p), v);
    }
  }

  lemma InItsPlace(p: Program, a: string, b: string)
    requires a != b && NodeIds(p) == {a, b}
    requires ReferenceSources(NodeAt(p, a)) == {} && ReferenceSources(NodeAt(p, b)) == {a}
    ensures NoneMisplaced(p, [a, b])
  {
  }

  /** And an adapter that answers as the client asks makes its run end for want of the field, though the step it
      is read from is there. */
  lemma FieldGoesMissing(a: string, b: string, verb: string, shown: map<string, Json>, name: string, runId: string,
                         input: Option<Json>)
    returns (rank: map<string, nat>, world: World)
    requires TwoSteps(a, b, shown, name) && runId != ""
    ensures Ranked(NodeMap(Showing(a, b, verb, shown)), rank) && LetThrough(world)
    ensures RunProgram(RunOf(Showing(a, b, verb, shown), runId, world, 1), rank, input).1 == Raised(UnresolvedReference)
  {
    var p, order, line := Showing(a, b, verb, shown), [a, b], [a, b];
    rank := OrderRank(order);
    ShowingIsAdmitted(a, b, verb, shown, name);
    OrderGivesRank(p, order);
    var run := RunOf(p, runId, Contrary(false, None, []), 1);
    ContraryIsLetThrough(false, None, []);
    KeysAreLong(p, runId, run.world, 1);
    ShowingIsALine(a, b, verb, shown, name, run);
    ShowingIsNotAssured(a, b, verb, shown, name, run, input);
    world := UnassuredLinesCanMiss(run, rank, line, input);
    assert Against(run, world) == RunOf(p, runId, world, 1);
  }

  lemma ShowingIsALine(a: string, b: string, verb: string, shown: map<string, Json>, name: string, run: Run)
    requires TwoSteps(a, b, shown, name) && run == RunOf(Showing(a, b, verb, shown), run.runId, run.world, 1)
    requires LetThrough(run.world)
    ensures IsLine(run, [a, b])
  {
    ShowingNodes(a, b, verb, shown);
    var p := Showing(a, b, verb, shown);
    assert SchemaOk(p) by { assert Ids(p) == [a, b]; }
    RunIsOrdinary(p, run.runId, run.world, 1);
    assert Links(run, [a, b], 0) && Links(run, [a, b], 1);
  }

  lemma ShowingIsNotAssured(a: string, b: string, verb: string, shown: map<string, Json>, name: string, run: Run,
                            input: Option<Json>)
    requires TwoSteps(a, b, shown, name) && run == RunOf(Showing(a, b, verb, shown), run.runId, run.world, 1)
    requires IsLine(run, [a, b])
    ensures !LineAssured(run, [a, b], input)
  {
    var line, r := [a, b], FieldOf(a, name);
    ShowingNodes(a, b, verb, shown);
    FieldIsNotOffered(run.onError, run.nodes[a], name);
    NotAssured(run, line, input, r);
    assert r in Reads(NodeOn(run, line, 1));
  }

  lemma FieldIsNotOffered(onError: OnError, node: Node, name: string)
    requires node.Query?
    ensures !EntryOffers(onError, node, [Field("output"), Field(name)])
  {
    assert [Field("output"), Field(name)][1..] == [Field(name)];
  }

  lemma NotAssured(run: Run, line: seq<string>, input: Option<Json>, r: Reference)
    requires |line| == 2 && r.source == line[0] && r.source in run.nodes && r.source != "input"
    requires !EntryOffers(run.onError, run.nodes[r.source], r.segments)
    ensures !AssuredAfter(run, line, input, 1, r)
  {
  }
}
