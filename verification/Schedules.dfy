/** What every interleaving of an admitted program's branches keeps. */
module Schedules {
  import opened Values
  import opened References
  import opened Graph
  import opened Dsl
  import opened Executor
  import opened Runs
  import opened DataFlow
  import opened Interleaving

  ghost predicate Located(run: Run, id: string, ctx: Context) {
    exists path :: PathBetween(RunEdges(run.nodes), path, run.entry, id) && Settled(run.nodes, path, ctx)
  }

  ghost predicate InPlace(run: Run, rank: map<string, nat>, ctx: Context, id: string, steps: nat) {
    id in run.nodes && steps + RankOf(rank, Some(id)) <= MAX_STEPS && Located(run, id, ctx)
  }

  // Every task of the tree is at a node of the program, on a settled path, with steps to spare; no
  // task has stopped for a reason an admitted program cannot have.
  ghost predicate Safe(run: Run, rank: map<string, nat>, ctx: Context, t: Task) {
    match t
    case At(id, _, steps) => id.Some? ==> InPlace(run, rank, ctx, id.value, steps)
    case Stopped(why) => Regular(run, why) && !why.Done?
    case Suspended(node, _, steps, pending) =>
      Known(run, node) && InPlace(run, rank, ctx, node.id, steps) &&
      (pending.Proposing? || pending.Committing? ==> node.Action?)
    case Looping(node, _, steps, _, _, inner) =>
      Known(run, node) && node.Foreach? && InPlace(run, rank, ctx, node.id, steps) && Safe(run, rank, ctx, inner)
    case Forked(node, _, steps, kids) =>
      Known(run, node) && node.Parallel? && InPlace(run, rank, ctx, node.id, steps) &&
      forall i :: 0 <= i < |kids| ==> Safe(run, rank, ctx, kids[i])
  }

  ghost predicate Moved(run: Run, st: St, st': St) {
    Advances(run, st, st') && Traced(run, st, st')
  }

  lemma InPlaceStays(run: Run, rank: map<string, nat>, ctx: Context, ctx': Context, id: string, steps: nat)
    requires InPlace(run, rank, ctx, id, steps) && ctx.Keys <= ctx'.Keys
    ensures InPlace(run, rank, ctx', id, steps)
  {
    var path :| PathBetween(RunEdges(run.nodes), path, run.entry, id) && Settled(run.nodes, path, ctx);
    assert Settled(run.nodes, path, ctx');
  }

  // More recorded outputs never make a task unsafe: this is why the others' moves do no harm.
  lemma {:induction false} SafeStays(run: Run, rank: map<string, nat>, ctx: Context, ctx': Context, t: Task)
    requires Safe(run, rank, ctx, t) && ctx.Keys <= ctx'.Keys
    ensures Safe(run, rank, ctx', t)
    decreases t
  {
    match t
    case At(id, _, steps) => if id.Some? { InPlaceStays(run, rank, ctx, ctx', id.value, steps); }
    case Stopped(_) =>
    case Suspended(node, _, steps, _) => InPlaceStays(run, rank, ctx, ctx', node.id, steps);
    case Looping(node, _, steps, _, _, inner) =>
      InPlaceStays(run, rank, ctx, ctx', node.id, steps);
      SafeStays(run, rank, ctx, ctx', inner);
    case Forked(node, _, steps, kids) =>
      InPlaceStays(run, rank, ctx, ctx', node.id, steps);
      forall i | 0 <= i < |kids| ensures Safe(run, rank, ctx', kids[i]) {
        SafeStays(run, rank, ctx, ctx', kids[i]);
      }
  }

  lemma SafeIsProper(run: Run, rank: map<string, nat>, ctx: Context, t: Task)
    requires Safe(run, rank, ctx, t)
    ensures Proper(run, t)
    decreases t
  {
    match t
    case Looping(_, _, _, _, _, inner) => SafeIsProper(run, rank, ctx, inner);
    case Forked(_, _, _, kids) =>
      forall i | 0 <= i < |kids| ensures Proper(run, kids[i]) { SafeIsProper(run, rank, ctx, kids[i]); }
    case _ =>
  }

  // Stepping to a target of the node, with the node recorded or the target entered.
  lemma TargetInPlace(run: Run, rank: map<string, nat>, ctx: Context, node: Node, steps: nat, t: string, steps': nat)
    requires Admitted(run, rank) && Known(run, node) && InPlace(run, rank, ctx, node.id, steps)
    requires t in WalkTargets(node) + EnterTargets(node)
    requires node.id in ctx || t in EnterTargets(node)
    requires steps' <= steps + 1
    ensures InPlace(run, rank, ctx, t, steps')
  {
    assert t in SuccessorTargets(node);
    var path :| PathBetween(RunEdges(run.nodes), path, run.entry, node.id) && Settled(run.nodes, path, ctx);
    StepAlong(run, path, node.id, t, ctx);
  }

  lemma FinishIsSafe(run: Run, rank: map<string, nat>, st: St, node: Node, item: Json, steps: nat, output: Json)
    requires Admitted(run, rank) && Known(run, node) && InPlace(run, rank, st.ctx, node.id, steps)
    ensures var (st', t') := Finish(st, node, item, steps, output);
            Moved(run, st, st') && Safe(run, rank, st'.ctx, t')
  {
    var (st', t') := Finish(st, node, item, steps, output);
    InPlaceStays(run, rank, st.ctx, st'.ctx, node.id, steps);
    NextIsWalkTarget(node, output);
    if t'.id.Some? {
      TargetInPlace(run, rank, st'.ctx, node, steps, t'.id.value, steps + 1);
    }
  }

  lemma CallMoves(run: Run, st: St, call: Call)
    requires call.CommitCall? ==> ForwardKey(run, call.key)
    ensures Moved(run, st, Called(st, call))
  {
  }

  lemma MovedTransitive(run: Run, a: St, b: St, c: St)
    requires Moved(run, a, b) && Moved(run, b, c)
    ensures Moved(run, a, c)
  {
    AdvancesTransitive(run, a, b, c);
  }

  lemma AskIsSafe(run: Run, rank: map<string, nat>, st: St, node: Node, item: Json, steps: nat, proposal: Json,
                  polls: nat)
    requires Admitted(run, rank) && Known(run, node) && InPlace(run, rank, st.ctx, node.id, steps)
    ensures var (st', t') := AskStatus(run, st, node, item, steps, proposal, polls);
            Moved(run, st, st') && Safe(run, rank, st'.ctx, t')
  {
    FinishIsSafe(run, rank, st, node, item, steps, Str("timeout"));
    CallMoves(run, st, StatusCall(proposal));
  }

  lemma StartIsSafe(run: Run, rank: map<string, nat>, st: St, id: string, item: Json, steps: nat)
    requires Admitted(run, rank) && InPlace(run, rank, st.ctx, id, steps)
    ensures var (st', t') := Start(run, st, id, item, steps);
            Moved(run, st, st') && Safe(run, rank, st'.ctx, t')
  {
    var entered := Entered(st, id);
    assert OnSettledPath(run, Visit(id, st.ctx));
    assert Moved(run, st, entered);
    BeginIsSafe(run, rank, entered, run.nodes[id], item, steps);
    MovedTransitive(run, st, entered, Begin(run, entered, run.nodes[id], item, steps).0);
  }

  lemma BeginIsSafe(run: Run, rank: map<string, nat>, st: St, node: Node, item: Json, steps: nat)
    requires Admitted(run, rank) && Known(run, node) && InPlace(run, rank, st.ctx, node.id, steps)
    ensures var (st', t') := Begin(run, st, node, item, steps);
            Moved(run, st, st') && Safe(run, rank, st'.ctx, t')
  {
    match node
    case Action(_, _, _, _, _, _) => SendIsSafe(run, rank, st, node, item, steps);
    case Query(_, _, _, _, _) => SendIsSafe(run, rank, st, node, item, steps);
    case Wait(_, _) =>
    case Condition(_, _, _, _, _) => QuietIsSafe(run, rank, st, node, item, steps);
    case Notify(_, _, _) => QuietIsSafe(run, rank, st, node, item, steps);
    case AwaitApproval(_, proposal, _, _, _) =>
      var asked := run.language.resolve(Str(proposal), st.ctx, item);
      if asked.Some? { AskIsSafe(run, rank, st, node, item, steps, asked.value, run.maxPolls); }
    case Parallel(_, _, _) => ForkIsSafe(run, rank, st, node, item, steps);
    case Foreach(_, _, _, _, _, _) =>
  }

  lemma ForkIsSafe(run: Run, rank: map<string, nat>, st: St, node: Node, item: Json, steps: nat)
    requires Admitted(run, rank) && Known(run, node) && InPlace(run, rank, st.ctx, node.id, steps) && node.Parallel?
    ensures var (st', t') := Begin(run, st, node, item, steps);
            Moved(run, st, st') && Safe(run, rank, st'.ctx, t')
  {
    var branches := node.branches;
    forall i | 0 <= i < |branches| ensures Safe(run, rank, st.ctx, Kids(branches)[i]) {
      TargetInPlace(run, rank, st.ctx, node, steps, branches[i], 0);
    }
  }

  lemma SendIsSafe(run: Run, rank: map<string, nat>, st: St, node: Node, item: Json, steps: nat)
    requires Admitted(run, rank) && Known(run, node) && InPlace(run, rank, st.ctx, node.id, steps)
    requires node.Action? || node.Query?
    ensures var (st', t') := Begin(run, st, node, item, steps);
            Moved(run, st, st') && Safe(run, rank, st'.ctx, t')
  {
    var args := run.language.resolve(Obj(node.args), st.ctx, item);
    if args.Some? {
      CallMoves(run, st, ProposeCall(node.verb, args.value));
      CallMoves(run, st, QueryCall(node.verb, if Truthy(args.value) then args.value else Null));
    }
  }

  lemma QuietIsSafe(run: Run, rank: map<string, nat>, st: St, node: Node, item: Json, steps: nat)
    requires Admitted(run, rank) && Known(run, node) && InPlace(run, rank, st.ctx, node.id, steps)
    requires node.Condition? || node.Notify?
    ensures var (st', t') := Begin(run, st, node, item, steps);
            Moved(run, st, st') && Safe(run, rank, st'.ctx, t')
  {
    var (st1, out) := if node.Condition? then DoCondition(run, st, node, item) else DoNotify(run, st, node, item);
    assert Moved(run, st, st1);
    if out.Done? {
      FinishIsSafe(run, rank, st1, node, item, steps, out.value);
      MovedTransitive(run, st, st1, Finish(st1, node, item, steps, out.value).0);
    }
  }

  lemma DeliverIsSafe(run: Run, rank: map<string, nat>, st: St, node: Node, item: Json, steps: nat, pending: Pending)
    requires Admitted(run, rank) && Safe(run, rank, st.ctx, Suspended(node, item, steps, pending))
    ensures var (st', t') := Deliver(run, st, node, item, steps, pending);
            Moved(run, st, st') && Safe(run, rank, st'.ctx, t')
  {
    match pending
    case Proposing(reply) => ProposalIsSafe(run, rank, st, node, item, steps, reply);
    case Committing(id, outcome) =>
      if !outcome.Lost? {
        assert IsAction(run, node.id);
        FinishIsSafe(run, rank, Commit(st, node.id), node, item, steps, StateOutput(outcome, id));
        MovedTransitive(run, st, Commit(st, node.id),
                        Finish(Commit(st, node.id), node, item, steps, StateOutput(outcome, id)).0);
      }
    case Querying(data) =>
      if !data.Lost? { FinishIsSafe(run, rank, st, node, item, steps, data.data); }
    case Polling(_, answer, _) =>
      if !answer.Lost? && ApprovalRoute(answer.state).Some? {
        FinishIsSafe(run, rank, st, node, item, steps, Str(ApprovalRoute(answer.state).value));
      }
    case Napping(proposal, pollsLeft) => AskIsSafe(run, rank, st, node, item, steps, proposal, pollsLeft);
    case Sleeping => FinishIsSafe(run, rank, st, node, item, steps, Null);
  }

  lemma ProposalIsSafe(run: Run, rank: map<string, nat>, st: St, node: Node, item: Json, steps: nat,
                       reply: ProposeReply)
    requires Admitted(run, rank) && Safe(run, rank, st.ctx, Suspended(node, item, steps, Proposing(reply)))
    ensures var (st', t') := Deliver(run, st, node, item, steps, Proposing(reply));
            Moved(run, st, st') && Safe(run, rank, st'.ctx, t')
  {
    assert IsAction(run, node.id);
    if !reply.Lost? {
      if reply.isRefusal || reply.id == "" {
        var code := if reply.code.Some? then reply.code.value else "UNKNOWN";
        FinishIsSafe(run, rank, st, node, item, steps, Obj(map["refused" := Str(code)]));
      } else {
        var key := IdemKey(run.runId, node.id);
        assert ForwardKey(run, key);
        CallMoves(run, st, CommitCall(reply.id, key));
      }
    }
  }

  /** Every move of every task, in any order, keeps the tree safe. */
  lemma {:induction false} MovesKeepSafe(run: Run, rank: map<string, nat>, st: St, t: Task, m: Move)
    requires Admitted(run, rank) && Safe(run, rank, st.ctx, t)
    ensures var r := Advance(run, st, t, m);
            r.Some? ==> Moved(run, st, r.value.0) && Safe(run, rank, r.value.0.ctx, r.value.1)
    decreases m
  {
    match t
    case Stopped(_) =>
    case At(id, item, steps) => if id.Some? { StartIsSafe(run, rank, st, id.value, item, steps); }
    case Suspended(node, item, steps, pending) => DeliverIsSafe(run, rank, st, node, item, steps, pending);
    case Looping(_, _, _, _, _, _) => LoopMoveKeepsSafe(run, rank, st, t, m);
    case Forked(_, _, _, _) => ForkMoveKeepsSafe(run, rank, st, t, m);
  }

  lemma {:induction false} LoopMoveKeepsSafe(run: Run, rank: map<string, nat>, st: St, t: Task, m: Move)
    requires Admitted(run, rank) && Safe(run, rank, st.ctx, t) && t.Looping?
    ensures var r := Advance(run, st, t, m);
            r.Some? ==> Moved(run, st, r.value.0) && Safe(run, rank, r.value.0.ctx, r.value.1)
    decreases m, 0
  {
    if m.Child? {
      MovesKeepSafe(run, rank, st, t.inner, m.move);
      var r := Advance(run, st, t.inner, m.move);
      if r.Some? {
        InPlaceStays(run, rank, st.ctx, r.value.0.ctx, t.node.id, t.steps);
      }
    } else if t.left == [] {
      FinishIsSafe(run, rank, st, t.node, t.item, t.steps, Obj(map["count" := Int(t.count)]));
    } else {
      TargetInPlace(run, rank, st.ctx, t.node, t.steps, t.node.body, 0);
    }
  }

  lemma {:induction false} ForkMoveKeepsSafe(run: Run, rank: map<string, nat>, st: St, t: Task, m: Move)
    requires Admitted(run, rank) && Safe(run, rank, st.ctx, t) && t.Forked?
    ensures var r := Advance(run, st, t, m);
            r.Some? ==> Moved(run, st, r.value.0) && Safe(run, rank, r.value.0.ctx, r.value.1)
    decreases m, 0
  {
    if m.Go? {
      FinishIsSafe(run, rank, st, t.node, t.item, t.steps, BranchNames(t.node.branches));
    } else if m.i < |t.kids| {
      MovesKeepSafe(run, rank, st, t.kids[m.i], m.move);
      var r := Advance(run, st, t.kids[m.i], m.move);
      if r.Some? {
        var ctx' := r.value.0.ctx;
        InPlaceStays(run, rank, st.ctx, ctx', t.node.id, t.steps);
        var kids' := t.kids[m.i := r.value.1];
        forall k | 0 <= k < |kids'| ensures Safe(run, rank, ctx', kids'[k]) {
          if k != m.i {
            SafeStays(run, rank, st.ctx, ctx', t.kids[k]);
          }
        }
      }
    }
  }

  lemma {:induction false} PlaysKeepSafe(run: Run, rank: map<string, nat>, st: St, t: Task, moves: seq<Move>)
    requires Admitted(run, rank) && Safe(run, rank, st.ctx, t) && Play(run, st, t, moves).Some?
    ensures var (st', t') := Play(run, st, t, moves).value;
            Moved(run, st, st') && Safe(run, rank, st'.ctx, t')
    decreases |moves|
  {
    if moves != [] {
      MovesKeepSafe(run, rank, st, t, moves[0]);
      var (st1, t1) := Advance(run, st, t, moves[0]).value;
      PlaysKeepSafe(run, rank, st1, t1, moves[1..]);
      MovedTransitive(run, st, st1, Play(run, st1, t1, moves[1..]).value.0);
    }
  }

  function WholeRun(run: Run): Task {
    At(Some(run.entry), Null, 0)
  }

  lemma EntryIsSafe(run: Run, rank: map<string, nat>, st: St)
    requires Admitted(run, rank)
    ensures Safe(run, rank, st.ctx, WholeRun(run))
  {
    assert PathBetween(RunEdges(run.nodes), [run.entry], run.entry, run.entry);
    assert Located(run, run.entry, st.ctx);
  }

  /** An admitted program under every interleaving of its branches: any schedule is bounded, at every
      point of it either the run is over or some task can move, no task has met an undefined node or
      the step guard, and the commits made so far are the program's own actions under their own keys. */
  lemma AdmittedUnderEverySchedule(run: Run, rank: map<string, nat>, input: Option<Json>, moves: seq<Move>)
    requires Admitted(run, rank)
    requires Play(run, InitialSt(input), WholeRun(run), moves).Some?
    ensures |moves| <= Weight(run, rank, Some(run.entry))
    ensures var (st, t) := Play(run, InitialSt(input), WholeRun(run), moves).value;
            && Safe(run, rank, st.ctx, t)
            && Advances(run, InitialSt(input), st)
            && (Over(t) || exists m :: Advance(run, st, t, m).Some?)
            && (t.Stopped? ==> Regular(run, t.why))
  {
    var st0 := InitialSt(input);
    EntryIsSafe(run, rank, st0);
    PlaysKeepSafe(run, rank, st0, WholeRun(run), moves);
    SchedulesAreBounded(run, rank, st0, WholeRun(run), moves);
    var (st, t) := Play(run, st0, WholeRun(run), moves).value;
    SafeIsProper(run, rank, st.ctx, t);
    if !Over(t) {
      var m := SomethingCanMove(run, st, t);
    }
  }

  /** A step that lies settled on every way to its consumer is in the context whenever the consumer is
      started, under every interleaving. */
  lemma DominatingSourcesAreFound(run: Run, rank: map<string, nat>, input: Option<Json>, moves: seq<Move>,
                                  v: Visit, source: string)
    requires Admitted(run, rank)
    requires Play(run, InitialSt(input), WholeRun(run), moves).Some?
    requires v in Play(run, InitialSt(input), WholeRun(run), moves).value.0.visits
    requires AlwaysBefore(run.nodes, run.entry, source, v.node)
    ensures source in v.ctx
  {
    var st0 := InitialSt(input);
    EntryIsSafe(run, rank, st0);
    PlaysKeepSafe(run, rank, st0, WholeRun(run), moves);
    var st := Play(run, st0, WholeRun(run), moves).value.0;
    var i :| 0 <= i < |st.visits| && st.visits[i] == v;
    assert OnSettledPath(run, v);
    SettledSourceIsFound(run, v, source);
  }
}
