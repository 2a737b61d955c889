/** Where the executor's documented promise fails: with branches, an admitted program can reach a
    step whose data reference names a step that was skipped. */
module Branching {
  import opened Values
  import opened References
  import opened Guards
  import opened GuardEval
  import opened Graph
  import opened Kahn
  import opened Dsl
  import opened Validator
  import opened Executor

  // a tests a guard that is false, so b is skipped; c then reading b's output.
  function Test(a: string, b: string, c: string): Node { Condition(a, [Name("false")], b, Some(c), None) }
  function Skipped(b: string, c: string): Node { Wait(b, Some(c)) }
  function Consumer(b: string, c: string, d: string): Node {
    Condition(c, [RefTok(Reference(b, [Field("output")]))], d, None, None)
  }
  function Last(d: string): Node { Wait(d, None) }

  function Skipping(a: string, b: string, c: string, d: string): Program {
    Program(a, [Test(a, b, c), Skipped(b, c), Consumer(b, c, d), Last(d)], Halt)
  }

  predicate FourSteps(a: string, b: string, c: string, d: string) {
    && IsStepId(a) && IsStepId(b) && IsStepId(c) && IsStepId(d)
    && a != b && a != c && a != d && b != c && b != d && c != d
  }

  lemma Lookups(a: string, b: string, c: string, d: string)
    requires FourSteps(a, b, c, d)
    ensures var p := Skipping(a, b, c, d);
            && Ids(p) == [a, b, c, d] && NodeIds(p) == {a, b, c, d} && Members([a, b, c, d]) == NodeIds(p)
            && NodeAt(p, a) == Test(a, b, c) && NodeAt(p, b) == Skipped(b, c)
            && NodeAt(p, c) == Consumer(b, c, d) && NodeAt(p, d) == Last(d)
  {
    var p := Skipping(a, b, c, d);
    var ids := [a, b, c, d];
    assert Ids(p) == ids;
    assert ids[0] in ids && ids[1] in ids && ids[2] in ids && ids[3] in ids;
    NodeAtIsUnique(p, 0);
    NodeAtIsUnique(p, 1);
    NodeAtIsUnique(p, 2);
    NodeAtIsUnique(p, 3);
  }

  lemma TargetsOfEach(a: string, b: string, c: string, d: string)
    ensures SuccessorTargets(Test(a, b, c)) == [b, c]
    ensures SuccessorTargets(Skipped(b, c)) == [c]
    ensures SuccessorTargets(Consumer(b, c, d)) == [d]
    ensures SuccessorTargets(Last(d)) == []
  {
  }

  lemma Edges4(a: string, b: string, c: string, d: string)
    requires FourSteps(a, b, c, d)
    ensures EdgesOf(Skipping(a, b, c, d)) == map[a := [b, c], b := [c], c := [d], d := []]
  {
    var p, ids := Skipping(a, b, c, d), {a, b, c, d};
    Lookups(a, b, c, d);
    TargetsOfEach(a, b, c, d);
    WithinAll([b, c], ids);
    WithinAll([c], ids);
    WithinAll([d], ids);
    SameEdges4(EdgesOf(p), a, b, c, d);
  }

  lemma SameEdges4(e: Edges<string>, a: string, b: string, c: string, d: string)
    requires e.Keys == {a, b, c, d} && a != b && a != c && a != d && b != c && b != d && c != d
    requires e[a] == [b, c] && e[b] == [c] && e[c] == [d] && e[d] == []
    ensures e == map[a := [b, c], b := [c], c := [d], d := []]
  {
  }

  lemma IsOrdered<V>(e: Edges<V>, a: V, b: V, c: V, d: V)
    requires a != b && a != c && a != d && b != c && b != d && c != d
    requires e == map[a := [b, c], b := [c], c := [d], d := []]
    ensures Topological(e, [a, b, c, d])
  {
    var order := [a, b, c, d];
    forall i, j | 0 <= i < |order| && 0 <= j < |order| && Edge(e, order[i], order[j]) ensures i < j {
      if i == 0 {
      } else if i == 1 {
      } else if i == 2 {
      }
    }
  }

  lemma IsConnected<V(!new)>(e: Edges<V>, a: V, b: V, c: V, d: V)
    requires a != b && a != c && a != d && b != c && b != d && c != d
    requires e == map[a := [b, c], b := [c], c := [d], d := []]
    ensures Reaches(e, a, a) && Reaches(e, a, b) && Reaches(e, a, c) && Reaches(e, a, d)
  {
    assert PathBetween(e, [a], a, a);
    assert PathBetween(e, [a, b], a, b);
    assert PathBetween(e, [a, c], a, c);
    assert PathBetween(e, [a, c, d], a, d);
  }

  lemma ShapeIsFine(a: string, b: string, c: string, d: string)
    requires FourSteps(a, b, c, d)
    ensures SchemaOk(Skipping(a, b, c, d)) && NoDangling(Skipping(a, b, c, d))
  {
    Lookups(a, b, c, d);
    TargetsOfEach(a, b, c, d);
  }

  lemma GraphIsFine(a: string, b: string, c: string, d: string)
    requires FourSteps(a, b, c, d)
    ensures var p := Skipping(a, b, c, d);
            && !Cyclic(p) && AllReachable(p)
            && Members([a, b, c, d]) == NodeIds(p) && Topological(EdgesOf(p), [a, b, c, d])
  {
    var p := Skipping(a, b, c, d);
    Lookups(a, b, c, d);
    Edges4(a, b, c, d);
    IsOrdered(EdgesOf(p), a, b, c, d);
    IsConnected(EdgesOf(p), a, b, c, d);
    EdgesAreClosed(p);
    InOrder(p, [a, b, c, d]);
    forall v | v in NodeIds(p) ensures !OnCycle(EdgesOf(p), v) {
      TopologicalIsAcyclic(EdgesOf(p), [a, b, c, d], NodeIds(p), v);
    }
  }

  lemma SourcesOfEach(a: string, b: string, c: string, d: string)
    ensures ReferenceSources(Test(a, b, c)) == {} && ReferenceSources(Skipped(b, c)) == {}
    ensures ReferenceSources(Consumer(b, c, d)) == {b} && ReferenceSources(Last(d)) == {}
  {
    var guard := [RefTok(Reference(b, [Field("output")]))];
    assert guard[0].RefTok?;
    assert b in ReferenceSources(Consumer(b, c, d));
  }

  lemma NothingIsMisplaced(a: string, b: string, c: string, d: string)
    requires FourSteps(a, b, c, d)
    ensures NoneMisplaced(Skipping(a, b, c, d), [a, b, c, d])
  {
    Lookups(a, b, c, d);
    SourcesOfEach(a, b, c, d);
    forall n, s ensures !Misplaced(Skipping(a, b, c, d), [a, b, c, d], n, s) {
    }
  }

  function Alone(p: Primary): Or {
    OrLast(AndLast(Plain(Bare(p))))
  }

  lemma AloneMeans(p: Primary, env: Env)
    requires WfPrimary(p)
    ensures WfOr(Alone(p)) && PrintOr(Alone(p)) == PrintPrimary(p)
    ensures DenoteOr(Alone(p), env) == DenotePrimary(p, env)
  {
    var c := Bare(p);
    assert WfComp(c) && PrintComp(c) == PrintPrimary(p);
    var t := Plain(c);
    assert WfNot(t) && PrintNot(t) == PrintPrimary(p) && DenoteNot(t, env) == DenotePrimary(p, env);
    var g := AndLast(t);
    assert WfAnd(g) && PrintAnd(g) == PrintPrimary(p) && DenoteAnd(g, env) == DenotePrimary(p, env);
  }

  lemma GuardsDecide(b: string, env: Env)
    ensures GuardValue([Name("false")], env) == Some(false)
    ensures b !in env.ctx && b != "item" ==> GuardValue([RefTok(Reference(b, [Field("output")]))], env) == None
  {
    AloneMeans(Keyword("false"), env);
    GuardMeansItsDenotation(Alone(Keyword("false")), env);
    var reading := RefP(Reference(b, [Field("output")]));
    AloneMeans(reading, env);
    GuardMeansItsDenotation(Alone(reading), env);
  }

  /** The validator admits the program: no pass has anything to report, and c does read b's output. */
  lemma SkippingIsAdmitted(a: string, b: string, c: string, d: string)
    requires FourSteps(a, b, c, d)
    ensures var p, order := Skipping(a, b, c, d), [a, b, c, d];
            && SchemaOk(p) && NoDangling(p) && !Cyclic(p) && AllReachable(p) && NoneMisplaced(p, order)
            && Members(order) == NodeIds(p) && Topological(EdgesOf(p), order)
            && b in ReferenceSources(NodeAt(p, c))
  {
    ShapeIsFine(a, b, c, d);
    GraphIsFine(a, b, c, d);
    NothingIsMisplaced(a, b, c, d);
    Lookups(a, b, c, d);
    SourcesOfEach(a, b, c, d);
  }

  /** The claim that an admitted program never meets an unresolved reference is false once a step can
      be skipped: every run of this one, whatever the adapter answers, raises at its third step. */
  lemma SkippingAlwaysRaises(a: string, b: string, c: string, d: string, rank: map<string, nat>, runId: string,
                             world: World, maxPolls: nat, input: Option<Json>)
    requires FourSteps(a, b, c, d) && Ranked(NodeMap(Skipping(a, b, c, d)), rank)
    ensures RunProgram(RunOf(Skipping(a, b, c, d), runId, world, maxPolls), rank, input).1 == Raised(BadGuard)
  {
    var p := Skipping(a, b, c, d);
    Lookups(a, b, c, d);
    var run := RunOf(p, runId, world, maxPolls);
    assert run.nodes == NodeMap(p) && b !in InitialSt(input).ctx;
    TwoSteps(a, b, c, d, run, rank, InitialSt(input));
  }

  lemma TwoSteps(a: string, b: string, c: string, d: string, run: Run, rank: map<string, nat>, st: St)
    requires FourSteps(a, b, c, d) && Ranked(run.nodes, rank)
    requires a in run.nodes && run.nodes[a] == Test(a, b, c) && c in run.nodes && run.nodes[c] == Consumer(b, c, d)
    requires forall env :: run.language.evaluate([Name("false")], env) == GuardValue([Name("false")], env)
    requires forall env :: var reading := [RefTok(Reference(b, [Field("output")]))];
               run.language.evaluate(reading, env) == GuardValue(reading, env)
    requires b !in st.ctx
    ensures Walk(run, rank, st, Some(a), Null, 0).1 == Raised(BadGuard)
  {
    var entered := Entered(st, a);
    GuardsDecide(b, Env(entered.ctx, Null));
    assert ExecuteNode(run, rank, entered, run.nodes[a], Null) == (entered, Done(Bool(false)));
    var st1 := Recorded(entered, a, Bool(false));
    assert WalkStep(run, rank, st, a, Null) == (st1, Done(Some(c)));
    GuardsDecide(b, Env(Entered(st1, c).ctx, Null));
    assert WalkStep(run, rank, st1, c, Null).1 == Raised(BadGuard);
  }
}
