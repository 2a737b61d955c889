/** The local executor: the walk over an admitted program, as functions of the run state, and the
    class whose methods update that state step by step. */
module Executor {
  import opened Values
  import opened References
  import opened Guards
  import opened GuardEval
  import opened Graph
  import opened Kahn
  import opened Dsl
  import opened Validator

  const MAX_STEPS := 1000

  // --- the adapter, as arbitrary answers ----------------------------------------------------------

  datatype Call =
    | ProposeCall(verb: string, args: Json)
    | CommitCall(proposal: string, key: string)
    | QueryCall(verb: string, args: Json)
    | StatusCall(asked: Json)

  // A reply that is Lost stands for any exception the client raises.
  datatype ProposeReply = Lost | Proposal(isRefusal: bool, id: string, code: Option<string>)
  datatype CommitReply = Lost | Status(proposal: Json, state: Json) | Parked(tier: Json)
  datatype QueryReply = Lost | Data(data: Json)
  datatype StatusReply = Lost | State(state: Option<string>)

  // The answer to each call may depend on the call and on how many were made before it.
  datatype World = World(
    propose: (nat, string, Json) -> ProposeReply,
    commit: (nat, string, string) -> CommitReply,
    query: (nat, string, Json) -> QueryReply,
    status: (nat, Json) -> StatusReply)

  // --- run state ------------------------------------------------------------------------------------

  // A node as it was started: what the context held at that moment.
  datatype Visit = Visit(node: string, ctx: Context)

  datatype St = St(
    ctx: Context,
    notices: seq<Json>,
    committed: seq<string>,
    calls: seq<Call>,
    visits: seq<Visit>)

  // The data language the executor is built on: reference resolution (None is ReferenceError) and
  // guard evaluation (None is GuardError).
  datatype Language = Language(
    resolve: (Json, Context, Json) -> Option<Json>,
    evaluate: (seq<Tok>, Env) -> Option<bool>)

  // What a run is given: the node map, the entry and error policy of its program, and its surroundings.
  datatype Run = Run(
    nodes: map<string, Node>,
    entry: string,
    onError: OnError,
    language: Language,
    runId: string,
    world: World,
    maxPolls: nat)

  // The run of a program in the language of References and GuardEval.
  function RunOf(p: Program, runId: string, world: World, maxPolls: nat): Run {
    var language := Language((v, ctx, item) => Resolve(v, ctx, item), (guard, env) => GuardValue(guard, env));
    Run(NodeMap(p), p.entry, p.onError, language, runId, world, maxPolls)
  }

  datatype Fault =
    | UnresolvedReference   // ReferenceError out of resolve
    | BadGuard              // GuardError
    | ClientError           // anything the client raised
    | UnknownNode           // a walk was sent to an id that is not in the program
    | TooManySteps          // the step guard

  datatype Outcome<+T> = Done(value: T) | Halted(node: string, code: string) | Raised(fault: Fault)

  function Commit(st: St, id: string): St {
    st.(committed := st.committed + [id])
  }

  function Called(st: St, call: Call): St {
    st.(calls := st.calls + [call])
  }

  // --- graph helpers (graph.py) -----------------------------------------------------------------

  function IdemKey(runId: string, nodeId: string): string {
    runId + ":" + nodeId
  }

  function NextAfter(node: Node, output: Json): Option<string> {
    match node
    case Condition(_, _, onTrue, onFalse, next) =>
      if Truthy(output) then Some(onTrue) else if onFalse.Some? then onFalse else next
    case AwaitApproval(_, _, onApproved, onRejected, onTimeout) =>
      if output == Str("approved") then Some(onApproved)
      else if output == Str("rejected") then onRejected
      else if output == Str("timeout") then onTimeout
      else None
    case _ => node.next
  }

  lemma NextAfterIsSuccessor(node: Node, output: Json)
    ensures NextAfter(node, output).Some? ==> NextAfter(node, output).value in SuccessorTargets(node)
  {
  }

  // A rank that every edge of the program lowers: the measure of every walk.
  ghost predicate Ranked(nodes: map<string, Node>, rank: map<string, nat>) {
    && (forall id :: id in nodes ==> nodes[id].id == id)
    && forall id, t :: id in nodes && t in SuccessorTargets(nodes[id]) ==> RankAt(rank, t) < RankAt(rank, id)
  }

  function RankAt(rank: map<string, nat>, id: string): nat {
    if id in rank then rank[id] else 0
  }

  function RankOf(rank: map<string, nat>, at: Option<string>): nat {
    if at.Some? then RankAt(rank, at.value) + 1 else 0
  }

  lemma NextLowersRank(nodes: map<string, Node>, rank: map<string, nat>, at: string, output: Json)
    requires Ranked(nodes, rank) && at in nodes
    ensures RankOf(rank, NextAfter(nodes[at], output)) < RankOf(rank, Some(at))
  {
    NextAfterIsSuccessor(nodes[at], output);
  }

  // The validator's topological order provides such a rank, bounded by the number of nodes.
  function OrderRank(order: seq<string>): map<string, nat> {
    map id | id in order :: |order| - IndexIn(order, id)
  }

  lemma OrderGivesRank(p: Program, order: seq<string>)
    requires Members(order) == NodeIds(p) && Topological(EdgesOf(p), order)
    ensures Ranked(NodeMap(p), OrderRank(order))
    ensures forall id :: RankAt(OrderRank(order), id) <= |p.pipeline|
  {
    forall id, t | id in NodeMap(p) && t in SuccessorTargets(NodeMap(p)[id])
      ensures RankAt(OrderRank(order), t) < RankAt(OrderRank(order), id)
    {
      TargetRanksLower(p, order, id, t);
    }
    RanksAreSmall(p, order);
  }

  lemma RanksAreSmall(p: Program, order: seq<string>)
    requires Members(order) == NodeIds(p) && Distinct(order)
    ensures forall id :: RankAt(OrderRank(order), id) <= |p.pipeline|
  {
    OrderIsShort(p, order);
  }

  lemma TargetRanksLower(p: Program, order: seq<string>, id: string, t: string)
    requires Members(order) == NodeIds(p) && Topological(EdgesOf(p), order)
    requires id in NodeIds(p) && t in SuccessorTargets(NodeAt(p, id))
    ensures RankAt(OrderRank(order), t) < RankAt(OrderRank(order), id)
  {
    InOrder(p, order);
    if t in order {
      assert t in EdgesOf(p)[id];
      EdgeRaisesIndex(EdgesOf(p), order, id, t);
    }
  }

  lemma EdgeRaisesIndex(e: Edges<string>, order: seq<string>, a: string, b: string)
    requires Topological(e, order) && a in order && b in order && Edge(e, a, b)
    ensures IndexIn(order, a) < IndexIn(order, b)
  {
    assert Edge(e, order[IndexIn(order, a)], order[IndexIn(order, b)]);
  }

  lemma OrderIsShort(p: Program, order: seq<string>)
    requires Members(order) == NodeIds(p) && Distinct(order)
    ensures |order| <= |p.pipeline|
  {
    DistinctCount(order);
    MembersAreFew(Ids(p));
  }

  lemma {:induction false} MembersAreFew<V>(s: seq<V>)
    ensures |Members(s)| <= |s|
  {
    if s != [] {
      MembersAreFew(s[..|s| - 1]);
      assert s == s[..|s| - 1] + [s[|s| - 1]];
      assert Members(s) == Members(s[..|s| - 1]) + {s[|s| - 1]};
    }
  }

  // --- leaves -----------------------------------------------------------------------------------

  function StateOutput(reply: CommitReply, proposal: string): Json
    requires !reply.Lost?
  {
    match reply
    case Status(p, state) => Obj(map["proposal" := p, "state" := state])
    case Parked(tier) => Obj(map["proposal" := Str(proposal), "parked" := Bool(true), "tier" := tier])
  }

  function DoAction(run: Run, st: St, node: Node, item: Json): (St, Outcome<Json>)
    requires node.Action?
  {
    match run.language.resolve(Obj(node.args), st.ctx, item)
    case None => (st, Raised(UnresolvedReference))
    case Some(args) =>
      var reply := run.world.propose(|st.calls|, node.verb, args);
      var st1 := Called(st, ProposeCall(node.verb, args));
      if reply.Lost? then (st1, Raised(ClientError))
      else if reply.isRefusal || reply.id == "" then
        var code := if reply.code.Some? then reply.code.value else "UNKNOWN";
        if run.onError == Compensate then (st1, Halted(node.id, code))
        else (st1, Done(Obj(map["refused" := Str(code)])))
      else
        var key := IdemKey(run.runId, node.id);
        var outcome := run.world.commit(|st1.calls|, reply.id, key);
        var st2 := Called(st1, CommitCall(reply.id, key));
        if outcome.Lost? then (st2, Raised(ClientError))
        else (Commit(st2, node.id), Done(StateOutput(outcome, reply.id)))
  }

  function DoQuery(run: Run, st: St, node: Node, item: Json): (St, Outcome<Json>)
    requires node.Query?
  {
    match run.language.resolve(Obj(node.args), st.ctx, item)
    case None => (st, Raised(UnresolvedReference))
    case Some(args) =>
      var sent := if Truthy(args) then args else Null;
      var reply := run.world.query(|st.calls|, node.verb, sent);
      var st1 := Called(st, QueryCall(node.verb, sent));
      if reply.Lost? then (st1, Raised(ClientError)) else (st1, Done(reply.data))
  }

  // Which branch a reported state takes; None means poll again.
  function ApprovalRoute(state: Option<string>): Option<string> {
    if state == Some("approved") || state == Some("executed") then Some("approved")
    else if state == Some("rejected") || state == Some("failed_terminal") ||
            state == Some("suspended") then Some("rejected")
    else if state == Some("expired") then Some("timeout")
    else None
  }

  function Poll(run: Run, st: St, proposal: Json, polls: nat): (St, Outcome<Json>)
    decreases polls
  {
    if polls == 0 then (st, Done(Str("timeout")))
    else
      var reply := run.world.status(|st.calls|, proposal);
      var st1 := Called(st, StatusCall(proposal));
      if reply.Lost? then (st1, Raised(ClientError))
      else if ApprovalRoute(reply.state).Some? then (st1, Done(Str(ApprovalRoute(reply.state).value)))
      else Poll(run, st1, proposal, polls - 1)
  }

  function DoAwaitApproval(run: Run, st: St, node: Node, item: Json): (St, Outcome<Json>)
    requires node.AwaitApproval?
  {
    match run.language.resolve(Str(node.proposal), st.ctx, item)
    case None => (st, Raised(UnresolvedReference))
    case Some(proposal) => Poll(run, st, proposal, run.maxPolls)
  }

  function DoCondition(run: Run, st: St, node: Node, item: Json): (St, Outcome<Json>)
    requires node.Condition?
  {
    match run.language.evaluate(node.guard, Env(st.ctx, item))
    case None => (st, Raised(BadGuard))
    case Some(b) => (st, Done(Bool(b)))
  }

  function DoNotify(run: Run, st: St, node: Node, item: Json): (St, Outcome<Json>)
    requires node.Notify?
  {
    match run.language.resolve(Obj(node.message), st.ctx, item)
    case None => (st, Raised(UnresolvedReference))
    case Some(message) => (st.(notices := st.notices + [message]), Done(Null))
  }

  // The elements a foreach visits: the resolved list, capped; nothing when it is not a list.
  function Elements(items: Json, maxItems: nat): seq<Json> {
    if items.Arr? then (if |items.items| <= maxItems then items.items else items.items[..maxItems]) else []
  }

  function BranchNames(branches: seq<string>): Json {
    Obj(map["branches" := Arr(seq(|branches|, i requires 0 <= i < |branches| => Str(branches[i])))])
  }

  // --- the walk ---------------------------------------------------------------------------------

  function Entered(st: St, id: string): St {
    st.(visits := st.visits + [Visit(id, st.ctx)])
  }

  function Recorded(st: St, id: string, output: Json): St {
    st.(ctx := st.ctx[id := Obj(map["output" := output])])
  }

  function Walk(run: Run, ghost rank: map<string, nat>, st: St, at: Option<string>, item: Json,
                steps: nat): (St, Outcome<()>)
    requires Ranked(run.nodes, rank)
    decreases RankOf(rank, at), 4
  {
    if at.None? then (st, Done(()))
    else if steps >= MAX_STEPS then (st, Raised(TooManySteps))
    else
      var (st1, out) := WalkStep(run, rank, st, at.value, item);
      match out
      case Halted(n, c) => (st1, Halted(n, c))
      case Raised(f) => (st1, Raised(f))
      case Done(next) => Walk(run, rank, st1, next, item, steps + 1)
  }

  // One round of the walk: look the node up, execute it, record its output, choose where to go.
  function WalkStep(run: Run, ghost rank: map<string, nat>, st: St, at: string,
                    item: Json): (r: (St, Outcome<Option<string>>))
    requires Ranked(run.nodes, rank)
    ensures r.1.Done? ==> RankOf(rank, r.1.value) < RankOf(rank, Some(at))
    decreases RankOf(rank, Some(at)), 3
  {
    if at !in run.nodes then (st, Raised(UnknownNode))
    else
      var node := run.nodes[at];
      var (st1, out) := ExecuteNode(run, rank, Entered(st, node.id), node, item);
      match out
      case Halted(n, c) => (st1, Halted(n, c))
      case Raised(f) => (st1, Raised(f))
      case Done(output) =>
        NextLowersRank(run.nodes, rank, at, output);
        (Recorded(st1, node.id, output), Done(NextAfter(node, output)))
  }

  function ExecuteNode(run: Run, ghost rank: map<string, nat>, st: St, node: Node, item: Json): (St, Outcome<Json>)
    requires Ranked(run.nodes, rank)
    requires node.id in run.nodes && node == run.nodes[node.id]
    decreases RankOf(rank, Some(node.id)), 2
  {
    match node
    case Action(_, _, _, _, _, _) => DoAction(run, st, node, item)
    case Query(_, _, _, _, _) => DoQuery(run, st, node, item)
    case Condition(_, _, _, _, _) => DoCondition(run, st, node, item)
    case Notify(_, _, _) => DoNotify(run, st, node, item)
    case Wait(_, _) => (st, Done(Null))
    case AwaitApproval(_, _, _, _, _) => DoAwaitApproval(run, st, node, item)
    case Parallel(_, branches, _) =>
      (RunBranches(run, rank, st, node, branches), Done(BranchNames(branches)))
    case Foreach(_, _, _, _, _, _) => DoForeach(run, rank, st, node, item)
  }

  function DoForeach(run: Run, ghost rank: map<string, nat>, st: St, node: Node, item: Json): (St, Outcome<Json>)
    requires Ranked(run.nodes, rank)
    requires node.Foreach? && node.id in run.nodes && node == run.nodes[node.id]
    decreases RankOf(rank, Some(node.id)), 1
  {
    match run.language.resolve(Str(node.items), st.ctx, item)
    case None => (st, Raised(UnresolvedReference))
    case Some(list) =>
      var elements := Elements(list, node.maxItems);
      var (st1, out) := RunBody(run, rank, st, node, elements);
      match out
      case Halted(n, c) => (st1, Halted(n, c))
      case Raised(f) => (st1, Raised(f))
      case Done(_) => (st1, Done(Obj(map["count" := Int(|elements|)])))
  }

  // The branches of a parallel node; whatever one of them raises is swallowed.
  function RunBranches(run: Run, ghost rank: map<string, nat>, st: St, node: Node, branches: seq<string>): St
    requires Ranked(run.nodes, rank)
    requires node.Parallel? && node.id in run.nodes && node == run.nodes[node.id]
    requires forall b :: b in branches ==> b in node.branches
    decreases RankOf(rank, Some(node.id)), 0, |branches|
  {
    if branches == [] then st
    else
      RunBranches(run, rank, Walk(run, rank, st, Some(branches[0]), Null, 0).0, node, branches[1..])
  }

  // One nested walk per element; the first that does not finish ends the loop.
  function RunBody(run: Run, ghost rank: map<string, nat>, st: St, node: Node, elements: seq<Json>): (St, Outcome<()>)
    requires Ranked(run.nodes, rank)
    requires node.Foreach? && node.id in run.nodes && node == run.nodes[node.id]
    decreases RankOf(rank, Some(node.id)), 0, |elements|
  {
    if elements == [] then (st, Done(()))
    else
      var (st1, out) := Walk(run, rank, st, Some(node.body), Obj(map[node.binder := elements[0]]), 0);
      if out.Done? then RunBody(run, rank, st1, node, elements[1..]) else (st1, out)
  }

  // --- compensation -----------------------------------------------------------------------------

  function RollbackId(nodeId: string): string {
    nodeId + ":rollback"
  }

  // One step of the unwinding: true when the node's compensation committed, false when the unwinding
  // has to stop there because the node declares none or its proposal is refused.
  function UndoOne(run: Run, st: St, id: string): (St, Outcome<bool>) {
    if id !in run.nodes then (st, Raised(UnknownNode))
    else
      var node := run.nodes[id];
      if !node.Action? || node.undo.None? then (st, Done(false))
      else
        var undo := node.undo.value;
        match run.language.resolve(Obj(undo.args), st.ctx, Null)
        case None => (st, Raised(UnresolvedReference))
        case Some(args) =>
          var reply := run.world.propose(|st.calls|, undo.verb, args);
          var st1 := Called(st, ProposeCall(undo.verb, args));
          if reply.Lost? then (st1, Raised(ClientError))
          else if reply.isRefusal || reply.id == "" then (st1, Done(false))
          else
            var key := IdemKey(run.runId, RollbackId(id));
            var outcome := run.world.commit(|st1.calls|, reply.id, key);
            var st2 := Called(st1, CommitCall(reply.id, key));
            if outcome.Lost? then (st2, Raised(ClientError)) else (st2, Done(true))
  }

  // Undoes the committed nodes in `left` from the last to the first.
  function Unwind(run: Run, st: St, left: seq<string>, undone: seq<string>): (St, Outcome<seq<string>>)
    decreases |left|
  {
    if left == [] then (st, Done(undone))
    else
      var id := left[|left| - 1];
      var (st1, out) := UndoOne(run, st, id);
      match out
      case Halted(n, c) => (st1, Halted(n, c))
      case Raised(f) => (st1, Raised(f))
      case Done(false) => (st1, Done(undone))
      case Done(true) => Unwind(run, st1, left[..|left| - 1], undone + [id])
  }

  // --- a whole run --------------------------------------------------------------------------------

  datatype RunResult = RunResult(
    completed: bool,
    compensated: seq<string>,
    partial: bool,
    blockedAt: Option<string>,
    refusal: Option<string>)

  function InitialSt(input: Option<Json>): St {
    St(if input.Some? then map["input" := input.value] else map[], [], [], [], [])
  }

  // Done carries the result; Raised is an exception that escapes the executor.
  function RunProgram(run: Run, ghost rank: map<string, nat>, input: Option<Json>): (St, Outcome<RunResult>)
    requires Ranked(run.nodes, rank)
  {
    var (st, out) := Walk(run, rank, InitialSt(input), Some(run.entry), Null, 0);
    Conclude(run, st, out)
  }

  // What a finished walk turns into: the unwinding happens only when the program elected it.
  function Conclude(run: Run, st: St, out: Outcome<()>): (St, Outcome<RunResult>) {
    match out
    case Done(_) => (st, Done(RunResult(true, [], false, None, None)))
    case Raised(f) => (st, Raised(f))
    case Halted(node, code) =>
      if run.onError == Compensate then
        var (st1, unwound) := Unwind(run, st, st.committed, []);
        match unwound
        case Done(undone) => (st1, Done(RunResult(false, undone, true, Some(node), Some(code))))
        case Raised(f) => (st1, Raised(f))
        case Halted(n, c) => (st1, Halted(n, c))
      else (st, Done(RunResult(false, [], false, Some(node), Some(code))))
  }

  // --- the object ---------------------------------------------------------------------------------

  class LocalExecutor {
    const run: Run
    ghost const rank: map<string, nat>
    var ctx: Context
    var notices: seq<Json>
    var committed: seq<string>
    var calls: seq<Call>
    var visits: seq<Visit>

    constructor (run: Run, ghost rank: map<string, nat>)
      ensures this.run == run && this.rank == rank
    {
      this.run := run;
      this.rank := rank;
      ctx, notices, committed, calls, visits := map[], [], [], [], [];
    }

    ghost function State(): St
      reads this
    {
      St(ctx, notices, committed, calls, visits)
    }

    method Execute(input: Option<Json>) returns (out: Outcome<RunResult>)
      requires Ranked(run.nodes, rank)
      modifies this
      ensures (State(), out) == RunProgram(run, rank, input)
    {
      ctx := if input.Some? then map["input" := input.value] else map[];
      notices, committed, calls, visits := [], [], [], [];
      var walked := WalkFrom(Some(run.entry), Null);
      out := Finish(walked);
    }

    method Finish(walked: Outcome<()>) returns (out: Outcome<RunResult>)
      modifies this
      ensures (State(), out) == Conclude(run, old(State()), walked)
    {
      match walked
      case Done(_) => out := Done(RunResult(true, [], false, None, None));
      case Raised(f) => out := Raised(f);
      case Halted(node, code) =>
        if run.onError == Compensate {
          var unwound := CompensateAll();
          match unwound
          case Done(undone) => out := Done(RunResult(false, undone, true, Some(node), Some(code)));
          case Raised(f) => out := Raised(f);
          case Halted(n, c) => out := Halted(n, c);
        } else {
          out := Done(RunResult(false, [], false, Some(node), Some(code)));
        }
    }

    method WalkFrom(start: Option<string>, item: Json) returns (out: Outcome<()>)
      requires Ranked(run.nodes, rank)
      modifies this
      ensures (State(), out) == Walk(run, rank, old(State()), start, item, 0)
      decreases RankOf(rank, start), 4
    {
      var steps := 0;
      var at := start;
      while at.Some?
        invariant Walk(run, rank, State(), at, item, steps) == Walk(run, rank, old(State()), start, item, 0)
        invariant RankOf(rank, at) <= RankOf(rank, start)
        decreases RankOf(rank, at), at.Some?
      {
        if steps >= MAX_STEPS {
          return Raised(TooManySteps);
        }
        steps := steps + 1;
        var stepped := StepAt(at.value, item);
        match stepped
        case Halted(n, c) => return Halted(n, c);
        case Raised(f) => return Raised(f);
        case Done(next) => at := next;
      }
      out := Done(());
    }

    method StepAt(at: string, item: Json) returns (out: Outcome<Option<string>>)
      requires Ranked(run.nodes, rank)
      modifies this
      ensures (State(), out) == WalkStep(run, rank, old(State()), at, item)
      decreases RankOf(rank, Some(at)), 3
    {
      if at !in run.nodes {
        return Raised(UnknownNode);
      }
      var node := run.nodes[at];
      visits := visits + [Visit(node.id, ctx)];
      var result := ExecuteAt(node, item);
      match result
      case Halted(n, c) => out := Halted(n, c);
      case Raised(f) => out := Raised(f);
      case Done(output) =>
        ctx := ctx[node.id := Obj(map["output" := output])];
        out := Done(NextAfter(node, output));
    }

    method ExecuteAt(node: Node, item: Json) returns (out: Outcome<Json>)
      requires Ranked(run.nodes, rank)
      requires node.id in run.nodes && node == run.nodes[node.id]
      modifies this
      ensures (State(), out) == ExecuteNode(run, rank, old(State()), node, item)
      decreases RankOf(rank, Some(node.id)), 2
    {
      match node
      case Action(_, _, _, _, _, _) => out := Act(node, item);
      case Query(_, _, _, _, _) => out := Ask(node, item);
      case Condition(_, _, _, _, _) =>
        var verdict := run.language.evaluate(node.guard, Env(ctx, item));
        out := if verdict.Some? then Done(Bool(verdict.value)) else Raised(BadGuard);
      case Notify(_, _, _) =>
        var message := run.language.resolve(Obj(node.message), ctx, item);
        if message.None? {
          return Raised(UnresolvedReference);
        }
        notices := notices + [message.value];
        out := Done(Null);
      case Wait(_, _) => out := Done(Null);
      case AwaitApproval(_, _, _, _, _) => out := AwaitVerdict(node, item);
      case Parallel(_, branches, _) =>
        for k := 0 to |branches|
          invariant RunBranches(run, rank, State(), node, branches[k..]) ==
                    RunBranches(run, rank, old(State()), node, branches)
        {
          assert branches[k..][0] == branches[k] && branches[k..][1..] == branches[k + 1..];
          var swallowed := WalkFrom(Some(branches[k]), Null);
        }
        out := Done(BranchNames(branches));
      case Foreach(_, _, _, _, _, _) => out := Repeat(node, item);
    }

    method Repeat(node: Node, item: Json) returns (out: Outcome<Json>)
      requires Ranked(run.nodes, rank)
      requires node.Foreach? && node.id in run.nodes && node == run.nodes[node.id]
      modifies this
      ensures (State(), out) == DoForeach(run, rank, old(State()), node, item)
      decreases RankOf(rank, Some(node.id)), 1
    {
      var list := run.language.resolve(Str(node.items), ctx, item);
      if list.None? {
        return Raised(UnresolvedReference);
      }
      var elements := Elements(list.value, node.maxItems);
      for k := 0 to |elements|
        invariant RunBody(run, rank, State(), node, elements[k..]) ==
                  RunBody(run, rank, old(State()), node, elements)
      {
        assert elements[k..][0] == elements[k] && elements[k..][1..] == elements[k + 1..];
        var inner := WalkFrom(Some(node.body), Obj(map[node.binder := elements[k]]));
        match inner
        case Done(_) =>
        case Halted(n, c) => return Halted(n, c);
        case Raised(f) => return Raised(f);
      }
      out := Done(Obj(map["count" := Int(|elements|)]));
    }

    method Act(node: Node, item: Json) returns (out: Outcome<Json>)
      requires node.Action?
      modifies this
      ensures (State(), out) == DoAction(run, old(State()), node, item)
    {
      var args := run.language.resolve(Obj(node.args), ctx, item);
      if args.None? {
        return Raised(UnresolvedReference);
      }
      var reply := run.world.propose(|calls|, node.verb, args.value);
      calls := calls + [ProposeCall(node.verb, args.value)];
      if reply.Lost? {
        return Raised(ClientError);
      }
      if reply.isRefusal || reply.id == "" {
        var code := if reply.code.Some? then reply.code.value else "UNKNOWN";
        if run.onError == Compensate {
          return Halted(node.id, code);
        }
        return Done(Obj(map["refused" := Str(code)]));
      }
      var key := IdemKey(run.runId, node.id);
      var outcome := run.world.commit(|calls|, reply.id, key);
      calls := calls + [CommitCall(reply.id, key)];
      if outcome.Lost? {
        return Raised(ClientError);
      }
      committed := committed + [node.id];
      out := Done(StateOutput(outcome, reply.id));
    }

    method Ask(node: Node, item: Json) returns (out: Outcome<Json>)
      requires node.Query?
      modifies this
      ensures (State(), out) == DoQuery(run, old(State()), node, item)
    {
      var args := run.language.resolve(Obj(node.args), ctx, item);
      if args.None? {
        return Raised(UnresolvedReference);
      }
      var sent := if Truthy(args.value) then args.value else Null;
      var reply := run.world.query(|calls|, node.verb, sent);
      calls := calls + [QueryCall(node.verb, sent)];
      out := if reply.Lost? then Raised(ClientError) else Done(reply.data);
    }

    method AwaitVerdict(node: Node, item: Json) returns (out: Outcome<Json>)
      requires node.AwaitApproval?
      modifies this
      ensures (State(), out) == DoAwaitApproval(run, old(State()), node, item)
    {
      var proposal := run.language.resolve(Str(node.proposal), ctx, item);
      if proposal.None? {
        return Raised(UnresolvedReference);
      }
      for k := 0 to run.maxPolls
        invariant Poll(run, State(), proposal.value, run.maxPolls - k) ==
                  Poll(run, old(State()), proposal.value, run.maxPolls)
      {
        var reply := run.world.status(|calls|, proposal.value);
        calls := calls + [StatusCall(proposal.value)];
        if reply.Lost? {
          return Raised(ClientError);
        }
        var route := ApprovalRoute(reply.state);
        if route.Some? {
          return Done(Str(route.value));
        }
      }
      out := Done(Str("timeout"));
    }

    method CompensateAll() returns (out: Outcome<seq<string>>)
      modifies this
      ensures (State(), out) == Unwind(run, old(State()), old(committed), [])
    {
      var undone := [];
      var k := |committed|;
      ghost var all := committed;
      assert all[..|all|] == all;
      while k > 0
        invariant 0 <= k <= |all| && committed == all
        invariant Unwind(run, State(), all[..k], undone) == Unwind(run, old(State()), all, [])
      {
        var id := committed[k - 1];
        assert all[..k][..k - 1] == all[..k - 1] && all[..k][k - 1] == id;
        var one := Undo(id);
        match one
        case Halted(n, c) => return Halted(n, c);
        case Raised(f) => return Raised(f);
        case Done(more) =>
          if !more {
            return Done(undone);
          }
          undone := undone + [id];
          k := k - 1;
      }
      out := Done(undone);
    }

    method Undo(id: string) returns (out: Outcome<bool>)
      modifies this
      ensures (State(), out) == UndoOne(run, old(State()), id)
      ensures committed == old(committed)
    {
      if id !in run.nodes {
        return Raised(UnknownNode);
      }
      var node := run.nodes[id];
      if !node.Action? || node.undo.None? {
        return Done(false);
      }
      var undo := node.undo.value;
      var args := run.language.resolve(Obj(undo.args), ctx, Null);
      if args.None? {
        return Raised(UnresolvedReference);
      }
      var reply := run.world.propose(|calls|, undo.verb, args.value);
      calls := calls + [ProposeCall(undo.verb, args.value)];
      if reply.Lost? {
        return Raised(ClientError);
      }
      if reply.isRefusal || reply.id == "" {
        return Done(false);
      }
      var key := IdemKey(run.runId, RollbackId(id));
      var outcome := run.world.commit(|calls|, reply.id, key);
      calls := calls + [CommitCall(reply.id, key)];
      out := if outcome.Lost? then Raised(ClientError) else Done(true);
    }
  }
}
