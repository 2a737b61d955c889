/** The executor under asyncio: branches of `parallel` nodes interleave at every await. A run is a
    tree of tasks; a schedule picks, move by move, which task goes on. */
module Interleaving {
  import opened Values
  import opened Dsl
  import opened Executor
  import opened DataFlow

  // What a suspended leaf node is waiting for. A reply is fixed when its call is sent.
  datatype Pending =
    | Proposing(reply: ProposeReply)
    | Committing(id: string, outcome: CommitReply)
    | Querying(data: QueryReply)
    | Polling(proposal: Json, answer: StatusReply, pollsLeft: nat)
    | Napping(proposal: Json, pollsLeft: nat)
    | Sleeping

  datatype Task =
    | At(id: Option<string>, item: Json, steps: nat)                                     // at the head of the walk loop
    | Suspended(node: Node, item: Json, steps: nat, pending: Pending)                     // inside a leaf
    | Looping(node: Node, item: Json, steps: nat, left: seq<Json>, count: nat, inner: Task) // inside a foreach
    | Forked(node: Node, item: Json, steps: nat, kids: seq<Task>)                         // inside a parallel
    | Stopped(why: Outcome<()>)                                                           // raised or halted

  // Which task moves: this one, or one further down.
  datatype Move = Go | Child(i: nat, move: Move)

  predicate Over(t: Task) {
    (t.At? && t.id.None?) || t.Stopped?
  }

  function Finish(st: St, node: Node, item: Json, steps: nat, output: Json): (St, Task) {
    (Recorded(st, node.id, output), At(NextAfter(node, output), item, steps + 1))
  }

  function AskStatus(run: Run, st: St, node: Node, item: Json, steps: nat, proposal: Json, polls: nat): (St, Task) {
    if polls == 0 then Finish(st, node, item, steps, Str("timeout"))
    else
      var answer := run.world.status(|st.calls|, proposal);
      (Called(st, StatusCall(proposal)), Suspended(node, item, steps, Polling(proposal, answer, polls - 1)))
  }

  // From the loop head to the node's first await, or to the next loop head when it has none.
  function Start(run: Run, before: St, id: string, item: Json, steps: nat): (St, Task) {
    if steps >= MAX_STEPS then (before, Stopped(Raised(TooManySteps)))
    else if id !in run.nodes then (before, Stopped(Raised(UnknownNode)))
    else Begin(run, Entered(before, id), run.nodes[id], item, steps)
  }

  function Begin(run: Run, st: St, node: Node, item: Json, steps: nat): (St, Task) {
    var failed := (st, Stopped(Raised(UnresolvedReference)));
    match node
    case Action(_, verb, args, _, _, _) =>
      (match run.language.resolve(Obj(args), st.ctx, item)
       case None => failed
       case Some(sent) =>
         var reply := run.world.propose(|st.calls|, verb, sent);
         (Called(st, ProposeCall(verb, sent)), Suspended(node, item, steps, Proposing(reply))))
    case Query(_, verb, args, _, _) =>
      (match run.language.resolve(Obj(args), st.ctx, item)
       case None => failed
       case Some(resolved) =>
         var sent := if Truthy(resolved) then resolved else Null;
         var reply := run.world.query(|st.calls|, verb, sent);
         (Called(st, QueryCall(verb, sent)), Suspended(node, item, steps, Querying(reply))))
    case Condition(_, guard, _, _, _) =>
      var (st1, out) := DoCondition(run, st, node, item);
      if out.Done? then Finish(st1, node, item, steps, out.value) else (st1, Stopped(Raised(BadGuard)))
    case Notify(_, message, _) =>
      var (st1, out) := DoNotify(run, st, node, item);
      if out.Done? then Finish(st1, node, item, steps, out.value) else failed
    case Wait(_, _) => (st, Suspended(node, item, steps, Sleeping))
    case AwaitApproval(_, proposal, _, _, _) =>
      (match run.language.resolve(Str(proposal), st.ctx, item)
       case None => failed
       case Some(asked) => AskStatus(run, st, node, item, steps, asked, run.maxPolls))
    case Parallel(_, branches, _) => (st, Forked(node, item, steps, Kids(branches)))
    case Foreach(_, items, _, _, maxItems, _) =>
      match run.language.resolve(Str(items), st.ctx, item)
      case None => failed
      case Some(list) =>
        var elements := Elements(list, maxItems);
        (st, Looping(node, item, steps, elements, |elements|, At(None, Null, 0)))
  }

  function Kids(branches: seq<string>): seq<Task> {
    seq(|branches|, i requires 0 <= i < |branches| => At(Some(branches[i]), Null, 0))
  }

  // A reply or a timer arrives.
  function Deliver(run: Run, st: St, node: Node, item: Json, steps: nat, pending: Pending): (St, Task) {
    var lost := (st, Stopped(Raised(ClientError)));
    match pending
    case Proposing(reply) =>
      if reply.Lost? then lost
      else if reply.isRefusal || reply.id == "" then
        var code := if reply.code.Some? then reply.code.value else "UNKNOWN";
        if run.onError == Compensate then (st, Stopped(Halted(node.id, code)))
        else Finish(st, node, item, steps, Obj(map["refused" := Str(code)]))
      else
        var key := IdemKey(run.runId, node.id);
        var outcome := run.world.commit(|st.calls|, reply.id, key);
        (Called(st, CommitCall(reply.id, key)), Suspended(node, item, steps, Committing(reply.id, outcome)))
    case Committing(id, outcome) =>
      if outcome.Lost? then lost else Finish(Commit(st, node.id), node, item, steps, StateOutput(outcome, id))
    case Querying(data) => if data.Lost? then lost else Finish(st, node, item, steps, data.data)
    case Polling(proposal, answer, pollsLeft) =>
      if answer.Lost? then lost
      else if ApprovalRoute(answer.state).Some? then
        Finish(st, node, item, steps, Str(ApprovalRoute(answer.state).value))
      else (st, Suspended(node, item, steps, Napping(proposal, pollsLeft)))
    case Napping(proposal, pollsLeft) => AskStatus(run, st, node, item, steps, proposal, pollsLeft)
    case Sleeping => Finish(st, node, item, steps, Null)
  }

  // One move of one task; None when that task cannot move now.
  function Advance(run: Run, st: St, t: Task, m: Move): Option<(St, Task)>
    decreases m
  {
    match t
    case Stopped(_) => None
    case At(id, item, steps) => if id.Some? && m.Go? then Some(Start(run, st, id.value, item, steps)) else None
    case Suspended(node, item, steps, pending) =>
      if m.Go? then Some(Deliver(run, st, node, item, steps, pending)) else None
    case Looping(node, item, steps, left, count, inner) =>
      if m.Go? then
        if !Over(inner) then None
        else if inner.Stopped? then Some((st, Stopped(inner.why)))
        else if left == [] || !node.Foreach? then
          Some(Finish(st, node, item, steps, Obj(map["count" := Int(count)])))
        else
          var body := At(Some(node.body), Obj(map[node.binder := left[0]]), 0);
          Some((st, Looping(node, item, steps, left[1..], count, body)))
      else
        (match Advance(run, st, inner, m.move)
         case None => None
         case Some((st1, inner1)) => Some((st1, Looping(node, item, steps, left, count, inner1))))
    case Forked(node, item, steps, kids) =>
      if m.Go? then
        if (forall i :: 0 <= i < |kids| ==> Over(kids[i])) && node.Parallel? then
          Some(Finish(st, node, item, steps, BranchNames(node.branches)))
        else None
      else if m.i < |kids| then
        match Advance(run, st, kids[m.i], m.move)
        case None => None
        case Some((st1, kid1)) => Some((st1, Forked(node, item, steps, kids[m.i := kid1])))
      else None
  }

  // A whole schedule; None when one of its moves is not possible.
  function Play(run: Run, st: St, t: Task, moves: seq<Move>): Option<(St, Task)>
    decreases |moves|
  {
    if moves == [] then Some((st, t))
    else
      match Advance(run, st, t, moves[0])
      case None => None
      case Some((st1, t1)) => Play(run, st1, t1, moves[1..])
  }

  // --- a bound on every schedule ------------------------------------------------------------------

  predicate Known(run: Run, node: Node) {
    node.id in run.nodes && node == run.nodes[node.id]
  }

  // The tasks of the tree belong to the program.
  predicate Proper(run: Run, t: Task) {
    match t
    case At(_, _, _) => true
    case Stopped(_) => true
    case Suspended(node, _, _, _) => Known(run, node)
    case Looping(node, _, _, _, _, inner) => Known(run, node) && node.Foreach? && Proper(run, inner)
    case Forked(node, _, _, kids) =>
      Known(run, node) && node.Parallel? && forall i :: 0 <= i < |kids| ==> Proper(run, kids[i])
  }

  predicate AllProper(run: Run, kids: seq<Task>) {
    forall i :: 0 <= i < |kids| ==> Proper(run, kids[i])
  }

  lemma TargetsRankLower(run: Run, rank: map<string, nat>, node: Node, t: string)
    requires Ranked(run.nodes, rank) && Known(run, node)
    requires t in WalkTargets(node) || t in EnterTargets(node)
    ensures RankOf(rank, Some(t)) < RankOf(rank, Some(node.id))
  {
    assert t in SuccessorTargets(node);
  }

  // How many moves a walk from here may take at most.
  function Weight(run: Run, rank: map<string, nat>, at: Option<string>): nat
    requires Ranked(run.nodes, rank)
    decreases RankOf(rank, at), 1
  {
    if at.None? then 0
    else if at.value !in run.nodes then 1
    else
      var node := run.nodes[at.value];
      1 + Inside(run, rank, node) + After(run, rank, node)
  }

  // The moves inside one execution of the node.
  function Inside(run: Run, rank: map<string, nat>, node: Node): nat
    requires Ranked(run.nodes, rank) && Known(run, node)
    decreases RankOf(rank, Some(node.id)), 0, 1
  {
    match node
    case Action(_, _, _, _, _, _) => 2
    case Query(_, _, _, _, _) => 1
    case Wait(_, _) => 1
    case AwaitApproval(_, _, _, _, _) => 2 * run.maxPolls
    case Condition(_, _, _, _, _) => 0
    case Notify(_, _, _) => 0
    case Parallel(_, branches, _) => 1 + WeightOfAll(run, rank, node, branches)
    case Foreach(_, _, _, body, maxItems, _) =>
      TargetsRankLower(run, rank, node, body);
      1 + maxItems * (1 + Weight(run, rank, Some(body)))
  }

  // The moves after it, whichever way the walk goes on.
  function After(run: Run, rank: map<string, nat>, node: Node): nat
    requires Ranked(run.nodes, rank) && Known(run, node)
    decreases RankOf(rank, Some(node.id)), 0, 1
  {
    WeightOfAll(run, rank, node, WalkTargets(node))
  }

  function WeightOfAll(run: Run, rank: map<string, nat>, node: Node, targets: seq<string>): nat
    requires Ranked(run.nodes, rank) && Known(run, node)
    requires forall t :: t in targets ==> t in WalkTargets(node) || t in EnterTargets(node)
    decreases RankOf(rank, Some(node.id)), 0, 0, |targets|
  {
    if targets == [] then 0
    else
      TargetsRankLower(run, rank, node, targets[0]);
      Weight(run, rank, Some(targets[0])) + WeightOfAll(run, rank, node, targets[1..])
  }

  function PendingMoves(pending: Pending): nat {
    match pending
    case Proposing(_) => 2
    case Committing(_, _) => 1
    case Querying(_) => 1
    case Polling(_, _, pollsLeft) => 2 * pollsLeft + 2
    case Napping(_, pollsLeft) => 2 * pollsLeft + 1
    case Sleeping => 1
  }

  function Measure(run: Run, rank: map<string, nat>, t: Task): nat
    requires Ranked(run.nodes, rank) && Proper(run, t)
    decreases t, 0
  {
    match t
    case Stopped(_) => 0
    case At(id, _, _) => Weight(run, rank, id)
    case Suspended(node, _, _, pending) => PendingMoves(pending) + After(run, rank, node)
    case Looping(node, _, _, left, _, inner) =>
      1 + |left| * (1 + Weight(run, rank, Some(node.body))) + Measure(run, rank, inner) + After(run, rank, node)
    case Forked(node, _, _, kids) => 1 + MeasureOfAll(run, rank, kids) + After(run, rank, node)
  }

  function MeasureOfAll(run: Run, rank: map<string, nat>, kids: seq<Task>): nat
    requires Ranked(run.nodes, rank) && AllProper(run, kids)
    decreases kids, 1
  {
    if kids == [] then 0 else Measure(run, rank, kids[0]) + MeasureOfAll(run, rank, kids[1..])
  }

  lemma {:induction false} OneOfAll(run: Run, rank: map<string, nat>, node: Node, targets: seq<string>, t: string)
    requires Ranked(run.nodes, rank) && Known(run, node) && t in targets
    requires forall t :: t in targets ==> t in WalkTargets(node) || t in EnterTargets(node)
    ensures Weight(run, rank, Some(t)) <= WeightOfAll(run, rank, node, targets)
    decreases |targets|
  {
    if targets[0] != t {
      OneOfAll(run, rank, node, targets[1..], t);
    }
  }

  lemma FinishIsCheap(run: Run, rank: map<string, nat>, st: St, node: Node, item: Json, steps: nat, output: Json)
    requires Ranked(run.nodes, rank) && Known(run, node)
    ensures Measure(run, rank, Finish(st, node, item, steps, output).1) <= After(run, rank, node)
  {
    NextIsWalkTarget(node, output);
    var next := NextAfter(node, output);
    if next.Some? {
      OneOfAll(run, rank, node, WalkTargets(node), next.value);
    }
  }

  lemma {:induction false} KidsMeasure(run: Run, rank: map<string, nat>, node: Node, branches: seq<string>)
    requires Ranked(run.nodes, rank) && Known(run, node) && node.Parallel?
    requires forall b :: b in branches ==> b in node.branches
    ensures MeasureOfAll(run, rank, Kids(branches)) == WeightOfAll(run, rank, node, branches)
    decreases |branches|
  {
    if branches != [] {
      KidsMeasure(run, rank, node, branches[1..]);
      assert Kids(branches)[1..] == Kids(branches[1..]);
    }
  }

  lemma {:induction false} ReplacedKid(run: Run, rank: map<string, nat>, kids: seq<Task>, i: nat, kid: Task)
    requires Ranked(run.nodes, rank) && i < |kids| && Proper(run, kid)
    requires AllProper(run, kids)
    ensures AllProper(run, kids[i := kid])
    ensures MeasureOfAll(run, rank, kids[i := kid]) + Measure(run, rank, kids[i])
            == MeasureOfAll(run, rank, kids) + Measure(run, rank, kid)
  {
    if i > 0 {
      ReplacedKid(run, rank, kids[1..], i - 1, kid);
      assert kids[i := kid][1..] == kids[1..][i - 1 := kid];
    } else {
      assert kids[i := kid][1..] == kids[1..];
    }
  }

  lemma FewerElements(a: nat, b: nat, w: nat)
    requires a <= b
    ensures a * w <= b * w
  {
  }

  lemma AskIsCheap(run: Run, rank: map<string, nat>, st: St, node: Node, item: Json, steps: nat, proposal: Json,
                   polls: nat)
    requires Ranked(run.nodes, rank) && Known(run, node)
    ensures var t' := AskStatus(run, st, node, item, steps, proposal, polls).1;
            Proper(run, t') && Measure(run, rank, t') <= 2 * polls + After(run, rank, node)
  {
    FinishIsCheap(run, rank, st, node, item, steps, Str("timeout"));
  }

  // What a node that starts, or goes on, may still cost.
  ghost predicate Within(run: Run, rank: map<string, nat>, t: Task, cost: nat)
    requires Ranked(run.nodes, rank)
  {
    Proper(run, t) && Measure(run, rank, t) <= cost
  }

  lemma BeginLowers(run: Run, rank: map<string, nat>, st: St, node: Node, item: Json, steps: nat)
    requires Ranked(run.nodes, rank) && Known(run, node)
    ensures Within(run, rank, Begin(run, st, node, item, steps).1, Inside(run, rank, node) + After(run, rank, node))
  {
    match node
    case Action(_, _, _, _, _, _) =>
    case Query(_, _, _, _, _) =>
    case Wait(_, _) =>
    case Condition(_, _, _, _, _) => QuietLowers(run, rank, st, node, item, steps);
    case Notify(_, _, _) => QuietLowers(run, rank, st, node, item, steps);
    case AwaitApproval(_, proposal, _, _, _) =>
      var asked := run.language.resolve(Str(proposal), st.ctx, item);
      if asked.Some? { AskIsCheap(run, rank, st, node, item, steps, asked.value, run.maxPolls); }
    case Parallel(_, branches, _) => KidsMeasure(run, rank, node, branches);
    case Foreach(_, _, _, _, _, _) => LoopLowers(run, rank, st, node, item, steps);
  }

  lemma QuietLowers(run: Run, rank: map<string, nat>, st: St, node: Node, item: Json, steps: nat)
    requires Ranked(run.nodes, rank) && Known(run, node) && (node.Condition? || node.Notify?)
    ensures Within(run, rank, Begin(run, st, node, item, steps).1, After(run, rank, node))
  {
    var (st1, out) := if node.Condition? then DoCondition(run, st, node, item) else DoNotify(run, st, node, item);
    if out.Done? {
      FinishIsCheap(run, rank, st1, node, item, steps, out.value);
    }
  }

  lemma LoopLowers(run: Run, rank: map<string, nat>, st: St, node: Node, item: Json, steps: nat)
    requires Ranked(run.nodes, rank) && Known(run, node) && node.Foreach?
    ensures Within(run, rank, Begin(run, st, node, item, steps).1, Inside(run, rank, node) + After(run, rank, node))
  {
    var list := run.language.resolve(Str(node.items), st.ctx, item);
    if list.Some? {
      FewerElements(|Elements(list.value, node.maxItems)|, node.maxItems, 1 + Weight(run, rank, Some(node.body)));
    }
  }

  lemma DeliverLowers(run: Run, rank: map<string, nat>, st: St, node: Node, item: Json, steps: nat, pending: Pending)
    requires Ranked(run.nodes, rank) && Known(run, node)
    ensures Within(run, rank, Deliver(run, st, node, item, steps, pending).1,
                   PendingMoves(pending) + After(run, rank, node) - 1)
  {
    match pending
    case Proposing(reply) =>
      if !reply.Lost? {
        var code := if reply.code.Some? then reply.code.value else "UNKNOWN";
        FinishIsCheap(run, rank, st, node, item, steps, Obj(map["refused" := Str(code)]));
      }
    case Committing(id, outcome) =>
      if !outcome.Lost? {
        FinishIsCheap(run, rank, Commit(st, node.id), node, item, steps, StateOutput(outcome, id));
      }
    case Querying(data) =>
      if !data.Lost? { FinishIsCheap(run, rank, st, node, item, steps, data.data); }
    case Polling(_, answer, _) =>
      if !answer.Lost? && ApprovalRoute(answer.state).Some? {
        FinishIsCheap(run, rank, st, node, item, steps, Str(ApprovalRoute(answer.state).value));
      }
    case Napping(proposal, pollsLeft) => AskIsCheap(run, rank, st, node, item, steps, proposal, pollsLeft);
    case Sleeping => FinishIsCheap(run, rank, st, node, item, steps, Null);
  }

  /** Every move of every task lowers the measure. */
  lemma {:induction false} MovesLowerTheMeasure(run: Run, rank: map<string, nat>, st: St, t: Task, m: Move)
    requires Ranked(run.nodes, rank) && Proper(run, t)
    ensures var r := Advance(run, st, t, m);
            r.Some? ==> Proper(run, r.value.1) && Measure(run, rank, r.value.1) < Measure(run, rank, t)
    decreases m
  {
    match t
    case Stopped(_) =>
    case At(id, item, steps) =>
      if id.Some? && m.Go? && steps < MAX_STEPS && id.value in run.nodes {
        BeginLowers(run, rank, Entered(st, id.value), run.nodes[id.value], item, steps);
      }
    case Suspended(node, item, steps, pending) => DeliverLowers(run, rank, st, node, item, steps, pending);
    case Looping(node, item, steps, left, count, inner) => LoopMoveLowers(run, rank, st, t, m);
    case Forked(node, item, steps, kids) => ForkMoveLowers(run, rank, st, t, m);
  }

  lemma {:induction false} LoopMoveLowers(run: Run, rank: map<string, nat>, st: St, t: Task, m: Move)
    requires Ranked(run.nodes, rank) && Proper(run, t) && t.Looping?
    ensures var r := Advance(run, st, t, m);
            r.Some? ==> Proper(run, r.value.1) && Measure(run, rank, r.value.1) < Measure(run, rank, t)
    decreases m, 0
  {
    var w := 1 + Weight(run, rank, Some(t.node.body));
    if m.Child? {
      MovesLowerTheMeasure(run, rank, st, t.inner, m.move);
    } else if t.left == [] {
      FinishIsCheap(run, rank, st, t.node, t.item, t.steps, Obj(map["count" := Int(t.count)]));
    } else {
      assert |t.left| * w == (|t.left| - 1) * w + w;
    }
  }

  lemma {:induction false} ForkMoveLowers(run: Run, rank: map<string, nat>, st: St, t: Task, m: Move)
    requires Ranked(run.nodes, rank) && Proper(run, t) && t.Forked?
    ensures var r := Advance(run, st, t, m);
            r.Some? ==> Proper(run, r.value.1) && Measure(run, rank, r.value.1) < Measure(run, rank, t)
    decreases m, 0
  {
    if m.Go? {
      FinishIsCheap(run, rank, st, t.node, t.item, t.steps, BranchNames(t.node.branches));
    } else if m.i < |t.kids| {
      MovesLowerTheMeasure(run, rank, st, t.kids[m.i], m.move);
      var r := Advance(run, st, t.kids[m.i], m.move);
      if r.Some? {
        ReplacedKid(run, rank, t.kids, m.i, r.value.1);
      }
    }
  }

  /** No schedule, however it interleaves the branches, makes more moves than the weight of the entry. */
  lemma {:induction false} SchedulesAreBounded(run: Run, rank: map<string, nat>, st: St, t: Task, moves: seq<Move>)
    requires Ranked(run.nodes, rank) && Proper(run, t) && Play(run, st, t, moves).Some?
    ensures Proper(run, Play(run, st, t, moves).value.1)
    ensures |moves| + Measure(run, rank, Play(run, st, t, moves).value.1) <= Measure(run, rank, t)
    decreases |moves|
  {
    if moves != [] {
      MovesLowerTheMeasure(run, rank, st, t, moves[0]);
      var (st1, t1) := Advance(run, st, t, moves[0]).value;
      SchedulesAreBounded(run, rank, st1, t1, moves[1..]);
    }
  }

  /** There is no deadlock: a run that is not over can always move. */
  lemma {:induction false} SomethingCanMove(run: Run, st: St, t: Task) returns (m: Move)
    requires Proper(run, t) && !Over(t)
    ensures Advance(run, st, t, m).Some?
    decreases t
  {
    m := Go;
    if t.Looping? && !Over(t.inner) {
      var inner := SomethingCanMove(run, st, t.inner);
      m := Child(0, inner);
    } else if t.Forked? && exists i :: 0 <= i < |t.kids| && !Over(t.kids[i]) {
      var i :| 0 <= i < |t.kids| && !Over(t.kids[i]);
      var inner := SomethingCanMove(run, st, t.kids[i]);
      m := Child(i, inner);
    }
  }
}
