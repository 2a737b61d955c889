/** What lies settled on every path is all that a graph alone assures: in a graph without `parallel` nodes
    every path can be the one taken, by a program with that graph that asks its input which way to go. */
module Realizing {
  import opened Values
  import opened References
  import opened Guards
  import opened GuardEval
  import opened Graph
  import opened Dsl
  import opened Validator
  import opened Executor
  import opened Client
  import opened DataFlow
  import opened Interleaving
  import opened Schedules
  import opened Sequential
  import opened Branching

  type Nodes = map<string, Node>

  // No node starts concurrent walks, and every loop may have an element.
  predicate OneWalkAtATime(nodes: Nodes) {
    forall id :: id in nodes ==> !nodes[id].Parallel? && (nodes[id].Foreach? ==> nodes[id].maxItems >= 1)
  }

  // --- programs that ask their input --------------------------------------------------------------------

  function InputRef(id: string): Reference {
    Reference("input", [Field(id)])
  }

  // The node with its edges, taking its verdicts and lists from the input and sending nothing.
  function Asking(node: Node): Node {
    match node
    case Action(id, verb, _, next, errorTo, _) => Action(id, verb, map[], next, errorTo, None)
    case Query(id, verb, _, next, errorTo) => Query(id, verb, map[], next, errorTo)
    case Condition(id, _, onTrue, onFalse, next) => Condition(id, [RefTok(InputRef(id))], onTrue, onFalse, next)
    case Foreach(id, _, binder, body, maxItems, next) =>
      Foreach(id, PrintReference(InputRef(id)), binder, body, maxItems, next)
    case AwaitApproval(id, _, onApproved, onRejected, onTimeout) =>
      AwaitApproval(id, PrintReference(InputRef(id)), onApproved, onRejected, onTimeout)
    case Notify(id, _, next) => Notify(id, map[], next)
    case _ => node
  }

  function AskingProgram(p: Program): Program {
    p.(pipeline := seq(|p.pipeline|, i requires 0 <= i < |p.pipeline| => Asking(p.pipeline[i])))
  }

  // It has the graph of the other program.
  lemma SameGraph(p: Program)
    requires SchemaOk(p)
    ensures var q := AskingProgram(p);
            && SchemaOk(q) && q.entry == p.entry && Ids(q) == Ids(p) && NodeIds(q) == NodeIds(p)
            && forall id :: id in NodeIds(p) ==> NodeAt(q, id) == Asking(NodeAt(p, id))
  {
    var q := AskingProgram(p);
    assert Ids(q) == Ids(p);
    forall id | id in NodeIds(p) ensures NodeAt(q, id) == Asking(NodeAt(p, id)) {
      var i := Position(p, id);
      NodeAtIsUnique(p, i);
      NodeAtIsUnique(q, i);
    }
  }

  lemma AskedReference(id: string)
    requires IsStepId(id)
    ensures ParseReference(PrintReference(InputRef(id))) == Some(InputRef(id))
  {
    ReferenceRoundTrip(InputRef(id));
  }

  lemma SameTargets(node: Node)
    ensures var asking := Asking(node);
            && asking.id == node.id && SuccessorTargets(asking) == SuccessorTargets(node)
            && WalkTargets(asking) == WalkTargets(node) && EnterTargets(asking) == EnterTargets(node)
  {
  }

  // There is nothing in it for the forward-reference check to find.
  lemma AsksOnlyTheInput(node: Node)
    requires IsStepId(node.id)
    ensures ReferenceSources(Asking(node)) <= {"input"}
  {
    AskedReference(node.id);
    OnlySource(PrintReference(InputRef(node.id)), InputRef(node.id));
    NoSources();
  }

  lemma OnlySource(text: string, r: Reference)
    requires ParseReference(text) == Some(r)
    ensures Sources(RefsIn(Str(text))) == {r.source}
  {
    assert RefsIn(Str(text)) == {r};
  }

  lemma NoSources()
    ensures Sources(RefsIn(Obj(map[]))) == {}
  {
  }

  /** The validator admits the asking program when it admits the other. */
  lemma AskingIsAdmitted(p: Program, order: seq<string>)
    requires SchemaOk(p) && NoDangling(p) && !Cyclic(p) && AllReachable(p)
    ensures var q := AskingProgram(p);
            && SchemaOk(q) && NoDangling(q) && EdgesOf(q) == EdgesOf(p)
            && !Cyclic(q) && AllReachable(q) && NoneMisplaced(q, order)
  {
    SameGraph(p);
    SameEdgesOf(p);
    AskingDanglesNowhere(p);
    AskingReadsNoStep(p, order);
    forall v | v in NodeIds(p) ensures ReachableFromEntry(AskingProgram(p), v) {
      assert ReachableFromEntry(p, v);
    }
  }

  lemma AskingDanglesNowhere(p: Program)
    requires SchemaOk(p) && NoDangling(p)
    ensures NoDangling(AskingProgram(p))
  {
    var q := AskingProgram(p);
    SameGraph(p);
    forall i | 0 <= i < |q.pipeline| ensures SuccessorTargets(q.pipeline[i]) == SuccessorTargets(p.pipeline[i]) {
      SameTargets(p.pipeline[i]);
    }
  }

  lemma AskingReadsNoStep(p: Program, order: seq<string>)
    requires SchemaOk(p)
    ensures NoneMisplaced(AskingProgram(p), order)
  {
    var q := AskingProgram(p);
    SameGraph(p);
    forall n | n in NodeIds(q) ensures ReferenceSources(NodeAt(q, n)) <= {"input"} {
      assert IsStepId(p.pipeline[Position(p, n)].id);
      AsksOnlyTheInput(NodeAt(p, n));
    }
  }

  lemma SameEdgesOf(p: Program)
    requires SchemaOk(p)
    ensures EdgesOf(AskingProgram(p)) == EdgesOf(p)
  {
    SameGraph(p);
    forall id | id in NodeIds(p) ensures EdgesOf(AskingProgram(p))[id] == EdgesOf(p)[id] {
      SameTargets(NodeAt(p, id));
    }
  }

  // --- paths ----------------------------------------------------------------------------------------------

  // A path through the program whose nodes lose rank as it goes.
  ghost predicate Way(nodes: Nodes, rank: map<string, nat>, path: seq<string>) {
    && Ranked(nodes, rank) && OneWalkAtATime(nodes)
    && IsPath(RunEdges(nodes), path) && (forall i :: 0 <= i < |path| ==> path[i] in nodes)
    && forall id :: RankAt(rank, id) < MAX_STEPS
  }

  predicate Enters(nodes: Nodes, path: seq<string>, i: nat)
    requires i + 1 < |path|
  {
    Entering(nodes, path[i], path[i + 1])
  }

  // The steps recorded by the time the path has come to its k-th node.
  function Gone(nodes: Nodes, path: seq<string>, k: nat): set<string>
    requires k < |path|
  {
    if k == 0 then {}
    else if Enters(nodes, path, k - 1) then Gone(nodes, path, k - 1)
    else Gone(nodes, path, k - 1) + {path[k - 1]}
  }

  lemma EdgeOnTheWay(nodes: Nodes, rank: map<string, nat>, path: seq<string>, k: nat)
    requires Way(nodes, rank, path) && k + 1 < |path|
    ensures path[k + 1] in WalkTargets(nodes[path[k]]) || path[k + 1] in EnterTargets(nodes[path[k]])
    ensures RankAt(rank, path[k + 1]) < RankAt(rank, path[k])
  {
    assert Edge(RunEdges(nodes), path[k], path[k + 1]);
    assert path[k + 1] in SuccessorTargets(nodes[path[k]]);
  }

  ghost predicate Falling(rank: map<string, nat>, path: seq<string>) {
    forall i, j :: 0 <= i && j == i + 1 && j < |path| ==> RankAt(rank, path[j]) < RankAt(rank, path[i])
  }

  lemma WayFalls(nodes: Nodes, rank: map<string, nat>, path: seq<string>)
    requires Way(nodes, rank, path)
    ensures Falling(rank, path)
  {
    forall i, j | 0 <= i && j == i + 1 && j < |path| ensures RankAt(rank, path[j]) < RankAt(rank, path[i]) {
      EdgeOnTheWay(nodes, rank, path, i);
    }
  }

  lemma {:induction false} RanksFall(rank: map<string, nat>, path: seq<string>, i: nat, k: nat)
    requires Falling(rank, path) && i <= k < |path|
    ensures RankAt(rank, path[k]) + (k - i) <= RankAt(rank, path[i])
    decreases k
  {
    if i < k {
      RanksFall(rank, path, i, k - 1);
    }
  }

  lemma {:induction false} GoneAreEarlier(nodes: Nodes, path: seq<string>, k: nat, x: string)
    requires k < |path| && x in Gone(nodes, path, k)
    ensures exists i :: 0 <= i < k && path[i] == x && !Enters(nodes, path, i)
  {
    if Enters(nodes, path, k - 1) || path[k - 1] != x {
      GoneAreEarlier(nodes, path, k - 1, x);
    }
  }

  lemma NoneTwice(rank: map<string, nat>, path: seq<string>)
    requires Falling(rank, path)
    ensures Distinct(path)
  {
    forall i, j | 0 <= i < j < |path| ensures path[i] != path[j] {
      RanksFall(rank, path, i, j);
    }
  }

  // --- an input and an adapter that follow the path ---------------------------------------------------------

  // The place of a node on the path.
  function PlaceOf(path: seq<string>, id: string): (i: nat)
    requires id in path
    ensures i < |path| && path[i] == id
  {
    if path[0] == id then 0 else 1 + PlaceOf(path[1..], id)
  }

  // What the input has to say for the path to go on from its k-th node as it does.
  function Directions(nodes: Nodes, path: seq<string>, k: nat): Json
    requires k < |path|
  {
    if k + 1 == |path| || path[k] !in nodes then Null
    else
      var node, next := nodes[path[k]], path[k + 1];
      match node
      case Condition(_, _, onTrue, _, _) => Bool(next == onTrue)
      case Foreach(_, _, _, _, _, _) => Arr(if Enters(nodes, path, k) then [Null] else [])
      case AwaitApproval(_, _, _, _, _) => Str(AskedFor(node, next))
      case _ => Null
  }

  function Guiding(nodes: Nodes, path: seq<string>): Json {
    Obj(map id | id in path :: Directions(nodes, path, PlaceOf(path, id)))
  }

  // Accepts every proposal, and reports the state that it is asked for by name.
  const ECHO := World((n, verb, args) => Proposal(false, SOME_ID, None),
                      (n, proposal, key) =>
                        if IsProposalId(proposal) && |key| >= 8 then Status(Str(SOME_ID), Null) else CommitReply.Lost,
                      (n, verb, args) => Data(Obj(map[])),
                      (n, asked: Json) =>
                        if asked.Str? && IsProposalId(asked.s) then State(StateNamed(asked.s)) else StatusReply.Lost)

  // The states by names long enough for proposal ids.
  function StateNamed(name: string): Option<string> {
    if name == "approved" || name == "rejected" then Some(name)
    else if name == "expired_" then Some("expired") else None
  }

  lemma EchoIsLetThrough()
    ensures LetThrough(ECHO)
  {
    SomeIdIsOne();
    forall n, asked ensures StatusAnswer(asked, ECHO.status(n, asked)) {
      if asked.Str? && IsProposalId(asked.s) {
        assert IsIdChar(asked.s[|asked.s| - 1]);
      }
    }
  }

  // The verdict by which an approval leads to the next node, and a state that routes that way.
  function RouteTo(node: Node, next: string): string
    requires node.AwaitApproval?
  {
    if next == node.onApproved then "approved" else if Some(next) == node.onRejected then "rejected" else "timeout"
  }

  function StateFor(node: Node, next: string): string
    requires node.AwaitApproval?
  {
    if next == node.onApproved then "approved" else if Some(next) == node.onRejected then "rejected" else "expired"
  }

  function AskedFor(node: Node, next: string): string
    requires node.AwaitApproval?
  {
    if next == node.onApproved then "approved" else if Some(next) == node.onRejected then "rejected" else "expired_"
  }

  lemma StatesAreNamed(node: Node, next: string)
    requires node.AwaitApproval?
    ensures IsProposalId(AskedFor(node, next)) && StateNamed(AskedFor(node, next)) == Some(StateFor(node, next))
  {
  }

  lemma StatesRoute(node: Node, next: string)
    requires node.AwaitApproval? && next in WalkTargets(node)
    ensures ApprovalRoute(Some(StateFor(node, next))) == Some(RouteTo(node, next))
    ensures NextAfter(node, Str(RouteTo(node, next))) == Some(next)
  {
  }

  // A run of an asking program against that adapter.
  ghost predicate Asks(run: Run, nodes: Nodes) {
    && run.world == ECHO && run.maxPolls == 1 && LongKeys(run)
    && run.nodes.Keys == nodes.Keys && "input" !in nodes
    && forall id :: id in nodes ==> nodes[id].id == id && run.nodes[id] == Asking(nodes[id])
  }

  predicate StepIds(nodes: Nodes) {
    forall id :: id in nodes ==> IsStepId(id)
  }

  // The language of References and GuardEval.
  ghost predicate Speaks(run: Run) {
    && (forall v, ctx, item :: run.language.resolve(v, ctx, item) == Resolve(v, ctx, item))
    && (forall guard, env :: run.language.evaluate(guard, env) == GuardValue(guard, env))
  }

  // The executor is about to start the path's k-th node.
  ghost predicate Arrived(nodes: Nodes, path: seq<string>, k: nat, ctx: Context) {
    k < |path| && ctx.Keys == Gone(nodes, path, k) + {"input"} && ctx["input"] == Guiding(nodes, path)
  }

  lemma InputTells(nodes: Nodes, path: seq<string>, k: nat, ctx: Context, item: Json)
    requires Arrived(nodes, path, k, ctx) && Distinct(path)
    ensures Lookup(InputRef(path[k]), ctx, item) == Some(Directions(nodes, path, k))
  {
    var r, guiding := InputRef(path[k]), Guiding(nodes, path);
    assert PlaceOf(path, path[k]) == k;
    assert r.segments[1..] == [];
    assert Select(guiding, r.segments[0]) == Some(Directions(nodes, path, k));
    assert Follow(guiding, r.segments) == Some(Directions(nodes, path, k));
  }

  // What the node asks for resolves to what the path needs, and what it sends resolves.
  ghost predicate Answered(run: Run, ctx: Context, item: Json, id: string, needed: Json) {
    && run.language.resolve(Str(PrintReference(InputRef(id))), ctx, item) == Some(needed)
    && (needed.Bool? ==> run.language.evaluate([RefTok(InputRef(id))], Env(ctx, item)) == Some(needed.b))
    && run.language.resolve(Obj(map[]), ctx, item) == Some(Obj(map[]))
  }

  // All along the path.
  ghost predicate Guided(run: Run, nodes: Nodes, path: seq<string>) {
    forall k, ctx, item :: 0 <= k < |path| && Arrived(nodes, path, k, ctx) ==>
      Answered(run, ctx, item, path[k], Directions(nodes, path, k))
  }

  lemma QuestionsAreAnswered(run: Run, nodes: Nodes, path: seq<string>)
    requires StepIds(nodes) && Speaks(run) && Distinct(path) && forall k :: 0 <= k < |path| ==> path[k] in nodes
    ensures Guided(run, nodes, path)
  {
    forall k, ctx, item | 0 <= k < |path| && Arrived(nodes, path, k, ctx)
      ensures Answered(run, ctx, item, path[k], Directions(nodes, path, k))
    {
      QuestionIsAnswered(run, nodes, path, k, ctx, item);
    }
  }

  lemma QuestionIsAnswered(run: Run, nodes: Nodes, path: seq<string>, k: nat, ctx: Context, item: Json)
    requires StepIds(nodes) && Speaks(run) && Arrived(nodes, path, k, ctx) && Distinct(path) && path[k] in nodes
    ensures Answered(run, ctx, item, path[k], Directions(nodes, path, k))
  {
    InputTells(nodes, path, k, ctx, item);
    ReferenceIsRead(path[k], Directions(nodes, path, k), ctx, item);
  }

  lemma ReferenceIsRead(id: string, value: Json, ctx: Context, item: Json)
    requires IsStepId(id) && Lookup(InputRef(id), ctx, item) == Some(value)
    ensures Resolve(Str(PrintReference(InputRef(id))), ctx, item) == Some(value)
    ensures Resolve(Obj(map[]), ctx, item) == Some(Obj(map[]))
    ensures value.Bool? ==> GuardValue([RefTok(InputRef(id))], Env(ctx, item)) == Some(value.b)
  {
    AskedReference(id);
    GuardIsRead(InputRef(id), value, Env(ctx, item));
    assert Resolve(Obj(map[]), ctx, item) == Some(Obj(map[]));
  }

  lemma GuardIsRead(r: Reference, value: Json, env: Env)
    requires r.segments != [] && Lookup(r, env.ctx, env.item) == Some(value)
    ensures value.Bool? ==> GuardValue([RefTok(r)], env) == Some(value.b)
  {
    AloneMeans(RefP(r), env);
    GuardMeansItsDenotation(Alone(RefP(r)), env);
  }

  // --- one node after the other -----------------------------------------------------------------------------

  // What executing a node comes to: it is done, with an output that leads to the next node.
  ghost predicate LeadsOnTo(node: Node, st: St, r: (St, Outcome<Json>), next: string) {
    r.1.Done? && r.0.ctx == st.ctx && NextAfter(node, r.1.value) == Some(next)
  }

  // The run and the path it is to take.
  ghost predicate OnTheWay(run: Run, nodes: Nodes, rank: map<string, nat>, path: seq<string>) {
    Asks(run, nodes) && Guided(run, nodes, path) && Way(nodes, rank, path) && Ranked(run.nodes, rank) && Distinct(path)
  }

  // The path goes on from its k-th node, which the executor has just started, in the same walk.
  ghost predicate GoingOn(run: Run, nodes: Nodes, rank: map<string, nat>, path: seq<string>, k: nat, st: St) {
    OnTheWay(run, nodes, rank, path) && Arrived(nodes, path, k, st.ctx) && k + 1 < |path| && !Enters(nodes, path, k)
  }

  lemma GoingOnTo(run: Run, nodes: Nodes, rank: map<string, nat>, path: seq<string>, k: nat, st: St)
    requires GoingOn(run, nodes, rank, path, k, st)
    ensures path[k] in nodes && path[k + 1] in WalkTargets(nodes[path[k]]) && !nodes[path[k]].Parallel?
  {
    EdgeOnTheWay(nodes, rank, path, k);
  }

  lemma ApprovalFollows(run: Run, nodes: Nodes, path: seq<string>, k: nat, st: St, item: Json)
    requires k + 1 < |path| && path[k] in nodes && nodes[path[k]].AwaitApproval? && Asks(run, nodes)
    requires path[k + 1] in WalkTargets(nodes[path[k]])
    requires Answered(run, st.ctx, item, path[k], Directions(nodes, path, k))
    ensures LeadsOnTo(nodes[path[k]], st, DoAwaitApproval(run, st, run.nodes[path[k]], item), path[k + 1])
  {
    var node := nodes[path[k]];
    StatesRoute(node, path[k + 1]);
    StatesAreNamed(node, path[k + 1]);
    assert Directions(nodes, path, k) == Str(AskedFor(node, path[k + 1]));
  }

  lemma ConditionFollows(run: Run, nodes: Nodes, path: seq<string>, k: nat, st: St, item: Json)
    requires k + 1 < |path| && path[k] in nodes && nodes[path[k]].Condition? && Asks(run, nodes)
    requires path[k + 1] in WalkTargets(nodes[path[k]])
    requires Answered(run, st.ctx, item, path[k], Directions(nodes, path, k))
    ensures LeadsOnTo(nodes[path[k]], st, DoCondition(run, st, run.nodes[path[k]], item), path[k + 1])
  {
  }

  lemma ActionFollows(run: Run, nodes: Nodes, path: seq<string>, k: nat, st: St, item: Json)
    requires k + 1 < |path| && path[k] in nodes && nodes[path[k]].Action? && Asks(run, nodes)
    requires path[k + 1] in WalkTargets(nodes[path[k]])
    requires Answered(run, st.ctx, item, path[k], Directions(nodes, path, k))
    ensures LeadsOnTo(nodes[path[k]], st, DoAction(run, st, run.nodes[path[k]], item), path[k + 1])
  {
    SomeIdIsOne();
    assert |IdemKey(run.runId, path[k])| >= 8;
  }

  lemma QuietFollows(run: Run, nodes: Nodes, rank: map<string, nat>, path: seq<string>, k: nat, st: St, item: Json)
    requires k + 1 < |path| && path[k] in nodes && Asks(run, nodes) && Ranked(run.nodes, rank)
    requires nodes[path[k]].Query? || nodes[path[k]].Wait? || nodes[path[k]].Notify?
    requires path[k + 1] in WalkTargets(nodes[path[k]])
    requires Answered(run, st.ctx, item, path[k], Directions(nodes, path, k))
    ensures LeadsOnTo(nodes[path[k]], st, ExecuteNode(run, rank, st, run.nodes[path[k]], item), path[k + 1])
  {
  }

  lemma LoopIsSkipped(run: Run, nodes: Nodes, rank: map<string, nat>, path: seq<string>, k: nat, st: St, item: Json)
    requires k + 1 < |path| && path[k] in nodes && nodes[path[k]].Foreach? && !Enters(nodes, path, k)
    requires Asks(run, nodes) && Ranked(run.nodes, rank) && path[k + 1] in WalkTargets(nodes[path[k]])
    requires Answered(run, st.ctx, item, path[k], Directions(nodes, path, k))
    ensures LeadsOnTo(nodes[path[k]], st, DoForeach(run, rank, st, run.nodes[path[k]], item), path[k + 1])
  {
    assert Directions(nodes, path, k) == Arr([]);
    assert Elements(Arr([]), nodes[path[k]].maxItems) == [];
  }

  lemma NodeFollows(run: Run, nodes: Nodes, rank: map<string, nat>, path: seq<string>, k: nat, st: St, item: Json)
    requires GoingOn(run, nodes, rank, path, k, st)
    ensures LeadsOnTo(nodes[path[k]], st, ExecuteNode(run, rank, st, run.nodes[path[k]], item), path[k + 1])
  {
    GoingOnTo(run, nodes, rank, path, k, st);
    assert Answered(run, st.ctx, item, path[k], Directions(nodes, path, k));
    match nodes[path[k]]
    case AwaitApproval(_, _, _, _, _) => ApprovalFollows(run, nodes, path, k, st, item);
    case Condition(_, _, _, _, _) => ConditionFollows(run, nodes, path, k, st, item);
    case Foreach(_, _, _, _, _, _) => LoopIsSkipped(run, nodes, rank, path, k, st, item);
    case Action(_, _, _, _, _, _) => ActionFollows(run, nodes, path, k, st, item);
    case _ => QuietFollows(run, nodes, rank, path, k, st, item);
  }

  lemma SameNext(node: Node, output: Json)
    ensures NextAfter(Asking(node), output) == NextAfter(node, output) && Asking(node).id == node.id
  {
  }

  /** One round of the walk goes where the path goes, when the path goes on in the same walk. */
  lemma StepFollows(run: Run, nodes: Nodes, rank: map<string, nat>, path: seq<string>, k: nat, st: St, item: Json)
    requires GoingOn(run, nodes, rank, path, k, st)
    ensures var (st', out) := WalkStep(run, rank, st, path[k], item);
            out == Done(Some(path[k + 1])) && Arrived(nodes, path, k + 1, st'.ctx)
  {
    var entered := Entered(st, path[k]);
    NodeFollows(run, nodes, rank, path, k, entered, item);
    var (st1, out) := ExecuteNode(run, rank, entered, run.nodes[path[k]], item);
    SameNext(nodes[path[k]], out.value);
    RecordedArrives(nodes, path, k, st1, out.value);
  }

  lemma RecordedArrives(nodes: Nodes, path: seq<string>, k: nat, st: St, output: Json)
    requires Arrived(nodes, path, k, st.ctx) && k + 1 < |path| && !Enters(nodes, path, k) && path[k] != "input"
    ensures Arrived(nodes, path, k + 1, Recorded(st, path[k], output).ctx)
  {
    assert Recorded(st, path[k], output).ctx.Keys == Gone(nodes, path, k) + {"input"} + {path[k]};
  }

  // --- going down into loops --------------------------------------------------------------------------------

  // The task is at work on this one, down in some loop or right here.
  ghost predicate Focus(t: Task, f: Task) {
    t == f || (t.Looping? && Focus(t.inner, f))
  }

  lemma {:induction false} FocusMoves(run: Run, st: St, t: Task, f: Task, st': St, f': Task) returns (t': Task)
    requires Focus(t, f) && Leads(run, st, f, st', f')
    ensures Focus(t', f') && Leads(run, st, t, st', t')
  {
    if t == f {
      t' := f';
    } else {
      var inner' := FocusMoves(run, st, t.inner, f, st', f');
      var moves :| Play(run, st, t.inner, moves) == Some((st', inner'));
      var lifted := InsideLoop(run, st, t, moves);
      t' := t.(inner := inner');
    }
  }

  lemma {:induction false} FocusThrough(t: Task, f: Task, g: Task)
    requires Focus(t, f) && Focus(f, g)
    ensures Focus(t, g)
  {
    if t != f {
      FocusThrough(t.inner, f, g);
    }
  }

  // Entering a loop whose list has one element, which is bound.
  lemma LoopIsEntered(run: Run, id: string, st: St, item: Json, steps: nat) returns (loop: Task, bound: Json)
    requires id in run.nodes && run.nodes[id].id == id && run.nodes[id].Foreach? && run.nodes[id].maxItems >= 1
    requires run.language.resolve(Str(run.nodes[id].items), st.ctx, item) == Some(Arr([Null])) && steps < MAX_STEPS
    ensures Leads(run, st, At(Some(id), item, steps), Entered(st, id), loop)
    ensures Focus(loop, At(Some(run.nodes[id].body), bound, 0))
  {
    var node, entered := run.nodes[id], Entered(st, id);
    var waiting := Looping(node, item, steps, [Null], 1, At(None, Null, 0));
    assert Advance(run, st, At(Some(id), item, steps), Go) == Some((entered, waiting));
    LeadsByOneMove(run, st, At(Some(id), item, steps), Go);
    bound := Obj(map[node.binder := Null]);
    loop := Looping(node, item, steps, [], 1, At(Some(node.body), bound, 0));
    assert [Null][1..] == [];
    assert Advance(run, entered, waiting, Go) == Some((entered, loop));
    LeadsByOneMove(run, entered, waiting, Go);
    LeadsOn(run, st, At(Some(id), item, steps), entered, waiting, entered, loop);
  }

  lemma LoopIsListed(run: Run, nodes: Nodes, path: seq<string>, k: nat, st: St, item: Json)
    requires Asks(run, nodes) && Guided(run, nodes, path) && OneWalkAtATime(nodes) && Arrived(nodes, path, k, st.ctx)
    requires k + 1 < |path| && Enters(nodes, path, k)
    ensures path[k] in nodes && run.nodes[path[k]].Foreach? && run.nodes[path[k]].maxItems >= 1
    ensures run.nodes[path[k]].id == path[k] && run.nodes[path[k]].body == path[k + 1]
    ensures run.language.resolve(Str(run.nodes[path[k]].items), st.ctx, item) == Some(Arr([Null]))
  {
    assert nodes[path[k]].Foreach?;
    assert Answered(run, st.ctx, item, path[k], Directions(nodes, path, k));
    assert Directions(nodes, path, k) == Arr([Null]);
  }

  // The executor, in this state with this work left, has come to the path's k-th node.
  ghost predicate HasCome(nodes: Nodes, path: seq<string>, k: nat, st: St, t: Task, item: Json, steps: nat) {
    Arrived(nodes, path, k, st.ctx) && steps <= k && Focus(t, At(Some(path[k]), item, steps))
  }

  // Some schedule has brought it there.
  ghost predicate ComesTo(run: Run, nodes: Nodes, path: seq<string>, k: nat, st: St, t: Task, st': St, t': Task,
                          item: Json, steps: nat) {
    HasCome(nodes, path, k, st', t', item, steps) && Leads(run, st, t, st', t')
  }

  lemma IntoTheLoop(run: Run, nodes: Nodes, rank: map<string, nat>, path: seq<string>, k: nat, st0: St, t0: Task,
                    st: St, t: Task, item: Json, steps: nat)
    returns (st': St, t': Task, item': Json)
    requires OnTheWay(run, nodes, rank, path) && ComesTo(run, nodes, path, k, st0, t0, st, t, item, steps)
    requires k + 1 < |path| && Enters(nodes, path, k) && steps < MAX_STEPS
    ensures ComesTo(run, nodes, path, k + 1, st0, t0, st', t', item', 0)
  {
    var loop;
    LoopIsListed(run, nodes, path, k, st, item);
    loop, item' := LoopIsEntered(run, path[k], st, item, steps);
    st' := Entered(st, path[k]);
    t' := FocusMoves(run, st, t, At(Some(path[k]), item, steps), st', loop);
    FocusThrough(t', loop, At(Some(path[k + 1]), item', 0));
    LeadsOn(run, st0, t0, st, t, st', t');
  }

  lemma OneStepOn(run: Run, nodes: Nodes, rank: map<string, nat>, path: seq<string>, k: nat, st0: St, t0: Task,
                  st: St, t: Task, item: Json, steps: nat)
    returns (st': St, t': Task)
    requires OnTheWay(run, nodes, rank, path) && ComesTo(run, nodes, path, k, st0, t0, st, t, item, steps)
    requires k + 1 < |path| && !Enters(nodes, path, k) && steps < MAX_STEPS
    ensures ComesTo(run, nodes, path, k + 1, st0, t0, st', t', item, steps + 1)
  {
    StepFollows(run, nodes, rank, path, k, st, item);
    StepIsASchedule(run, rank, st, path[k], item, steps);
    st' := WalkStep(run, rank, st, path[k], item).0;
    t' := FocusMoves(run, st, t, At(Some(path[k]), item, steps), st', At(Some(path[k + 1]), item, steps + 1));
    LeadsOn(run, st0, t0, st, t, st', t');
  }

  // There are never as many steps behind the executor as the walk's own limit.
  lemma WayIsShort(nodes: Nodes, rank: map<string, nat>, path: seq<string>, k: nat)
    requires Way(nodes, rank, path) && k < |path|
    ensures k < MAX_STEPS
  {
    WayFalls(nodes, rank, path);
    RanksFall(rank, path, 0, k);
  }

  function Started(nodes: Nodes, path: seq<string>): St {
    InitialSt(Some(Guiding(nodes, path)))
  }

  // Some schedule brings the executor to the path's k-th node.
  ghost predicate Comes(run: Run, nodes: Nodes, path: seq<string>, k: nat)
    requires path != []
  {
    exists st, t, item, steps :: ComesTo(run, nodes, path, k, Started(nodes, path), WholeRun(run), st, t, item, steps)
  }

  lemma ComesAtFirst(run: Run, nodes: Nodes, path: seq<string>)
    requires path != [] && path[0] == run.entry
    ensures Comes(run, nodes, path, 0)
  {
    LeadsNowhere(run, Started(nodes, path), WholeRun(run));
    assert HasCome(nodes, path, 0, Started(nodes, path), WholeRun(run), Null, 0);
    assert ComesTo(run, nodes, path, 0, Started(nodes, path), WholeRun(run), Started(nodes, path), WholeRun(run), Null,
                   0);
  }

  lemma ComesFurther(run: Run, nodes: Nodes, rank: map<string, nat>, path: seq<string>, k: nat)
    requires OnTheWay(run, nodes, rank, path) && k + 1 < |path| && Comes(run, nodes, path, k)
    ensures Comes(run, nodes, path, k + 1)
  {
    var st0, t0 := Started(nodes, path), WholeRun(run);
    var st, t, item, steps :| ComesTo(run, nodes, path, k, st0, t0, st, t, item, steps);
    WayIsShort(nodes, rank, path, k);
    if Enters(nodes, path, k) {
      var st', t', item' := IntoTheLoop(run, nodes, rank, path, k, st0, t0, st, t, item, steps);
    } else {
      var st', t' := OneStepOn(run, nodes, rank, path, k, st0, t0, st, t, item, steps);
    }
  }

  lemma {:induction false} StepByStep(comes: nat -> bool, n: nat, k: nat)
    requires comes(0) && (forall j: nat :: j + 1 < n && comes(j) ==> comes(j + 1)) && k < n
    ensures comes(k)
  {
    if k > 0 {
      StepByStep(comes, n, k - 1);
    }
  }

  /** The executor comes to every node of the path. */
  lemma PathIsTaken(run: Run, nodes: Nodes, rank: map<string, nat>, path: seq<string>, k: nat)
    requires OnTheWay(run, nodes, rank, path) && k < |path| && path[0] == run.entry
    ensures Comes(run, nodes, path, k)
  {
    ghost var comes := (j: nat) => Comes(run, nodes, path, j);
    ComesAtFirst(run, nodes, path);
    forall j: nat | j + 1 < |path| && comes(j) ensures comes(j + 1) {
      ComesFurther(run, nodes, rank, path, j);
    }
    StepByStep(comes, |path|, k);
  }

  lemma StartIsAVisit(run: Run, st: St, id: string, item: Json, steps: nat)
    requires steps < MAX_STEPS && id in run.nodes
    ensures Start(run, st, id, item, steps).0.visits == st.visits + [Visit(id, st.ctx)]
  {
  }

  lemma NotGone(nodes: Nodes, path: seq<string>, source: string)
    requires path != [] && !LeavesSettled(nodes, path, source)
    ensures source !in Gone(nodes, path, |path| - 1)
  {
    if source in Gone(nodes, path, |path| - 1) {
      GoneAreEarlier(nodes, path, |path| - 1, source);
    }
  }

  lemma AskingRun(p: Program, rank: map<string, nat>, runId: string)
    requires SchemaOk(p) && Ranked(NodeMap(p), rank) && runId != ""
    ensures var run := RunOf(AskingProgram(p), runId, ECHO, 1);
            Asks(run, NodeMap(p)) && StepIds(NodeMap(p)) && Speaks(run) && Ranked(run.nodes, rank)
  {
    var run := RunOf(AskingProgram(p), runId, ECHO, 1);
    SameGraph(p);
    forall id | id in NodeIds(p)
      ensures IsStepId(id) && SuccessorTargets(run.nodes[id]) == SuccessorTargets(NodeAt(p, id))
    {
      assert IsStepId(p.pipeline[Position(p, id)].id);
      SameTargets(NodeAt(p, id));
    }
  }

  // What the input has to be for the run to take the path, and what the run has then come to.
  lemma ConsumerIsStarted(run: Run, nodes: Nodes, rank: map<string, nat>, path: seq<string>, source: string)
    returns (moves: seq<Move>, v: Visit)
    requires OnTheWay(run, nodes, rank, path) && path[0] == run.entry && source != "input"
    requires !LeavesSettled(nodes, path, source)
    ensures Play(run, Started(nodes, path), WholeRun(run), moves).Some?
    ensures v in Play(run, Started(nodes, path), WholeRun(run), moves).value.0.visits
    ensures v.node == path[|path| - 1] && source !in v.ctx
  {
    var st, t, item, steps := ConsumerIsReached(run, nodes, rank, path);
    NotGone(nodes, path, source);
    moves, v := OneMoreStart(run, Started(nodes, path), WholeRun(run), st, t, path[|path| - 1], item, steps);
  }

  lemma ConsumerIsReached(run: Run, nodes: Nodes, rank: map<string, nat>, path: seq<string>)
    returns (st: St, t: Task, item: Json, steps: nat)
    requires OnTheWay(run, nodes, rank, path) && path[0] == run.entry
    ensures Leads(run, Started(nodes, path), WholeRun(run), st, t) && steps < MAX_STEPS
    ensures Focus(t, At(Some(path[|path| - 1]), item, steps)) && path[|path| - 1] in run.nodes
    ensures st.ctx.Keys == Gone(nodes, path, |path| - 1) + {"input"}
  {
    var k := |path| - 1;
    PathIsTaken(run, nodes, rank, path, k);
    st, t, item, steps :| ComesTo(run, nodes, path, k, Started(nodes, path), WholeRun(run), st, t, item, steps);
    WayIsShort(nodes, rank, path, k);
  }

  lemma OneMoreStart(run: Run, st0: St, t0: Task, st: St, t: Task, id: string, item: Json, steps: nat)
    returns (moves: seq<Move>, v: Visit)
    requires id in run.nodes && steps < MAX_STEPS && Leads(run, st0, t0, st, t) && Focus(t, At(Some(id), item, steps))
    ensures Play(run, st0, t0, moves).Some? && v in Play(run, st0, t0, moves).value.0.visits && v == Visit(id, st.ctx)
  {
    var here := At(Some(id), item, steps);
    LeadsByOneMove(run, st, here, Go);
    var (st', here') := Start(run, st, id, item, steps);
    var t' := FocusMoves(run, st, t, here, st', here');
    LeadsOn(run, st0, t0, st, t, st', t');
    moves :| Play(run, st0, t0, moves) == Some((st', t'));
    v := Visit(id, st.ctx);
    StartIsAVisit(run, st, id, item, steps);
    assert st'.visits[|st.visits|] == v;
  }

  /** The converse of DominatingSourcesAreFound, for graphs without `parallel` nodes: where some way to the
      consumer does not leave the source behind with its output recorded, no check that looks at the graph
      alone can tell, for there are a program with the same graph, an input and an adapter by which a run of
      that program starts the consumer without the source in the context. */
  lemma OtherSourcesAreMissed(p: Program, rank: map<string, nat>, source: string, consumer: string, runId: string)
    returns (input: Json, moves: seq<Move>, v: Visit)
    requires SchemaOk(p) && NoDangling(p) && OneWalkAtATime(NodeMap(p)) && Ranked(NodeMap(p), rank)
    requires (forall id :: RankAt(rank, id) < MAX_STEPS) && source != "input" && runId != ""
    requires !AlwaysBefore(NodeMap(p), p.entry, source, consumer)
    ensures LetThrough(ECHO)
    ensures var run, start := RunOf(AskingProgram(p), runId, ECHO, 1), InitialSt(Some(input));
            && Play(run, start, WholeRun(run), moves).Some?
            && v in Play(run, start, WholeRun(run), moves).value.0.visits
            && v.node == consumer && source !in v.ctx
  {
    var nodes, run := NodeMap(p), RunOf(AskingProgram(p), runId, ECHO, 1);
    var path :| PathBetween(RunEdges(nodes), path, p.entry, consumer) && !LeavesSettled(nodes, path, source);
    AskingRun(p, rank, runId);
    EchoIsLetThrough();
    TargetsAreNodes(p);
    PathStaysInside(nodes, path);
    WayFalls(nodes, rank, path);
    NoneTwice(rank, path);
    QuestionsAreAnswered(run, nodes, path);
    input := Guiding(nodes, path);
    moves, v := ConsumerIsStarted(run, nodes, rank, path, source);
  }

  lemma PathStaysInside(nodes: Nodes, path: seq<string>)
    requires IsPath(RunEdges(nodes), path) && path[0] in nodes
    requires forall id, t :: id in nodes && t in SuccessorTargets(nodes[id]) ==> t in nodes
    ensures forall i :: 0 <= i < |path| ==> path[i] in nodes
  {
    forall a, b | a in nodes && b in Succ(RunEdges(nodes), a) ensures b in nodes {
      assert b in SuccessorTargets(nodes[a]);
    }
    forall i | 0 <= i < |path| ensures path[i] in nodes {
      PathStaysIn(RunEdges(nodes), nodes.Keys, path, i);
    }
  }

  lemma TargetsAreNodes(p: Program)
    requires NoDangling(p)
    ensures forall id, t :: id in NodeMap(p) && t in SuccessorTargets(NodeMap(p)[id]) ==> t in NodeMap(p)
  {
    forall id, t | id in NodeMap(p) && t in SuccessorTargets(NodeMap(p)[id]) ensures t in NodeMap(p) {
      assert p.pipeline[Position(p, id)] == NodeMap(p)[id];
    }
  }
}
