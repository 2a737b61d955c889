/** Admission soundness: what the validator's verdict buys for every run of the program. */
module Admission {
  import opened Values
  import opened References
  import opened Graph
  import opened Kahn
  import opened Dsl
  import opened Validator
  import opened Executor
  import opened Runs
  import opened DataFlow
  import opened Interleaving
  import opened Schedules
  import opened Sequential

  // What a whole run may come to: a result, or one of the faults its data and its surroundings can
  // cause. Not completed means partial, and only a refusal under `compensate` gives that: blocked at
  // an action, with a beginning of the reversed commits undone.
  ghost predicate EndsProperly(run: Run, st: St, out: Outcome<RunResult>) {
    && Regular(run, out) && !out.Halted?
    && (out.Done? ==>
          var r := out.value;
          && (r.completed <==> !r.partial) && (r.completed <==> r.blockedAt.None?)
          && (!r.completed ==> run.onError == Compensate && IsAction(run, r.blockedAt.value))
          && (r.completed ==> r.compensated == [] && run.entry in st.ctx)
          && r.compensated <= Reversed(st.committed))
  }

  // What the schedules keep, the executor's own order of doing things keeps.
  lemma WalkIsSafe(run: Run, rank: map<string, nat>, st: St, at: Option<string>, item: Json, steps: nat)
    requires Admitted(run, rank) && Safe(run, rank, st.ctx, At(at, item, steps))
    ensures var (st', out) := Walk(run, rank, st, at, item, steps);
            Moved(run, st, st') && Regular(run, out)
  {
    var last := WalkIsASchedule(run, rank, st, at, item, steps);
    var (st', out) := Walk(run, rank, st, at, item, steps);
    var moves :| Play(run, st, At(at, item, steps), moves) == Some((st', Ending(item, last, out)));
    PlaysKeepSafe(run, rank, st, At(at, item, steps), moves);
  }

  lemma EntryIsRecorded(run: Run, rank: map<string, nat>, st: St)
    requires Admitted(run, rank)
    requires Walk(run, rank, st, Some(run.entry), Null, 0).1.Done?
    ensures run.entry in Walk(run, rank, st, Some(run.entry), Null, 0).0.ctx
  {
    EntryIsSafe(run, rank, st);
    StepIsASchedule(run, rank, st, run.entry, Null, 0);
    var (st1, out) := WalkStep(run, rank, st, run.entry, Null);
    var moves :| Play(run, st, WholeRun(run), moves) == Some((st1, At(out.value, Null, 1)));
    PlaysKeepSafe(run, rank, st, WholeRun(run), moves);
    WalkIsSafe(run, rank, st1, out.value, Null, 1);
  }

  lemma RunsToAnEnd(run: Run, rank: map<string, nat>, input: Option<Json>)
    requires Admitted(run, rank)
    ensures var (st, out) := RunProgram(run, rank, input);
            EndsProperly(run, st, out)
  {
    var st0 := InitialSt(input);
    EntryIsSafe(run, rank, st0);
    WalkIsSafe(run, rank, st0, Some(run.entry), Null, 0);
    var (st, out) := Walk(run, rank, st0, Some(run.entry), Null, 0);
    if out.Done? {
      EntryIsRecorded(run, rank, st0);
    }
    ConcludesProperly(run, st, out);
  }

  lemma ConcludesProperly(run: Run, st: St, out: Outcome<()>)
    requires Regular(run, out) && (out.Done? ==> run.entry in st.ctx)
    requires forall i :: 0 <= i < |st.committed| ==> IsAction(run, st.committed[i])
    ensures var (st', r) := Conclude(run, st, out);
            EndsProperly(run, st', r)
  {
    if out.Halted? {
      UnwindEndsProperly(run, st);
      var (st1, unwound) := Unwind(run, st, st.committed, []);
      assert Regular(run, unwound);
    }
  }

  lemma UnwindEndsProperly(run: Run, st: St)
    requires forall i :: 0 <= i < |st.committed| ==> IsAction(run, st.committed[i])
    ensures var (st', out) := Unwind(run, st, st.committed, []);
            && Regular(run, out) && !out.Halted?
            && (out.Done? ==> out.value <= Reversed(st'.committed))
  {
    var k := UnwindGoesBackwards(run, st, st.committed, []);
    UnwindIsRegular(run, st, st.committed, []);
    ReversedSuffix(st.committed, |st.committed| - k);
    var (st', out) := Unwind(run, st, st.committed, []);
    if out.Done? {
      assert out.value == [] + Reversed(st.committed[|st.committed| - k..]);
    }
  }

  // --- after any schedule -------------------------------------------------------------------------------

  // What a run that is over has come to.
  function EndOf(t: Task): Outcome<()>
    requires Over(t)
  {
    if t.At? then Done(()) else t.why
  }

  // The whole run is at its entry, or past it and the entry is recorded.
  predicate PastEntry(run: Run, ctx: Context, t: Task) {
    match t
    case At(id, _, _) => id == Some(run.entry) || run.entry in ctx
    case Stopped(_) => true
    case Suspended(node, _, _, _) => node.id == run.entry || run.entry in ctx
    case Looping(node, _, _, _, _, _) => node.id == run.entry || run.entry in ctx
    case Forked(node, _, _, _) => node.id == run.entry || run.entry in ctx
  }

  lemma BeginIsPastEntry(run: Run, st: St, node: Node, item: Json, steps: nat)
    requires node.id == run.entry || run.entry in st.ctx
    ensures var (st', t') := Begin(run, st, node, item, steps); PastEntry(run, st'.ctx, t')
  {
  }

  lemma DeliveryIsPastEntry(run: Run, st: St, node: Node, item: Json, steps: nat, pending: Pending)
    requires node.id == run.entry || run.entry in st.ctx
    ensures var (st', t') := Deliver(run, st, node, item, steps, pending); PastEntry(run, st'.ctx, t')
  {
    match pending
    case Proposing(reply) => ProposalIsPastEntry(run, st, node, item, steps, reply);
    case Committing(id, outcome) =>
      if !outcome.Lost? {
        FinishIsPastEntry(run, Commit(st, node.id), node, item, steps, StateOutput(outcome, id));
      }
    case Querying(data) => if !data.Lost? { FinishIsPastEntry(run, st, node, item, steps, data.data); }
    case Polling(_, answer, _) =>
      if !answer.Lost? && ApprovalRoute(answer.state).Some? {
        FinishIsPastEntry(run, st, node, item, steps, Str(ApprovalRoute(answer.state).value));
      }
    case Napping(proposal, pollsLeft) => AskIsPastEntry(run, st, node, item, steps, proposal, pollsLeft);
    case Sleeping => FinishIsPastEntry(run, st, node, item, steps, Null);
  }

  lemma AskIsPastEntry(run: Run, st: St, node: Node, item: Json, steps: nat, proposal: Json, polls: nat)
    requires node.id == run.entry || run.entry in st.ctx
    ensures var (st', t') := AskStatus(run, st, node, item, steps, proposal, polls); PastEntry(run, st'.ctx, t')
  {
    FinishIsPastEntry(run, st, node, item, steps, Str("timeout"));
  }

  lemma ProposalIsPastEntry(run: Run, st: St, node: Node, item: Json, steps: nat, reply: ProposeReply)
    requires node.id == run.entry || run.entry in st.ctx
    ensures var (st', t') := Deliver(run, st, node, item, steps, Proposing(reply)); PastEntry(run, st'.ctx, t')
  {
    if !reply.Lost? && (reply.isRefusal || reply.id == "") {
      var code := if reply.code.Some? then reply.code.value else "UNKNOWN";
      FinishIsPastEntry(run, st, node, item, steps, Obj(map["refused" := Str(code)]));
    }
  }

  lemma FinishIsPastEntry(run: Run, st: St, node: Node, item: Json, steps: nat, output: Json)
    requires node.id == run.entry || run.entry in st.ctx
    ensures var (st', t') := Interleaving.Finish(st, node, item, steps, output); PastEntry(run, st'.ctx, t')
  {
  }

  lemma MovesKeepPastEntry(run: Run, rank: map<string, nat>, st: St, t: Task, m: Move)
    requires Admitted(run, rank) && Safe(run, rank, st.ctx, t) && PastEntry(run, st.ctx, t)
    ensures var r := Interleaving.Advance(run, st, t, m); r.Some? ==> PastEntry(run, r.value.0.ctx, r.value.1)
  {
    MovesKeepSafe(run, rank, st, t, m);
    match t
    case At(id, item, steps) =>
      if id.Some? && id.value in run.nodes {
        BeginIsPastEntry(run, Entered(st, id.value), run.nodes[id.value], item, steps);
      }
    case Suspended(node, item, steps, pending) => DeliveryIsPastEntry(run, st, node, item, steps, pending);
    case _ =>
  }

  lemma {:induction false} PlaysKeepPastEntry(run: Run, rank: map<string, nat>, st: St, t: Task, moves: seq<Move>)
    requires Admitted(run, rank) && Safe(run, rank, st.ctx, t) && PastEntry(run, st.ctx, t)
    requires Play(run, st, t, moves).Some?
    ensures var (st', t') := Play(run, st, t, moves).value; PastEntry(run, st'.ctx, t')
    decreases |moves|
  {
    if moves != [] {
      MovesKeepSafe(run, rank, st, t, moves[0]);
      MovesKeepPastEntry(run, rank, st, t, moves[0]);
      var (st1, t1) := Interleaving.Advance(run, st, t, moves[0]).value;
      PlaysKeepPastEntry(run, rank, st1, t1, moves[1..]);
    }
  }

  /** However the branches interleaved: once a run of an admitted program is over, it ends properly, its
      unwinding included. */
  lemma SchedulesEndProperly(run: Run, rank: map<string, nat>, input: Option<Json>, moves: seq<Move>)
    requires Admitted(run, rank) && Play(run, InitialSt(input), WholeRun(run), moves).Some?
    requires Over(Play(run, InitialSt(input), WholeRun(run), moves).value.1)
    ensures var (st, t) := Play(run, InitialSt(input), WholeRun(run), moves).value;
            var (st', out) := Conclude(run, st, EndOf(t));
            EndsProperly(run, st', out)
  {
    var st0 := InitialSt(input);
    EntryIsSafe(run, rank, st0);
    PlaysKeepSafe(run, rank, st0, WholeRun(run), moves);
    PlaysKeepPastEntry(run, rank, st0, WholeRun(run), moves);
    var (st, t) := Play(run, st0, WholeRun(run), moves).value;
    ConcludesProperly(run, st, EndOf(t));
  }

  lemma AdmissionGivesRank(p: Program, run: Run, rank: map<string, nat>)
    requires SchemaOk(p) && NoDangling(p)
    requires run.nodes == NodeMap(p) && run.entry == p.entry
    requires Ranked(NodeMap(p), rank)
    requires forall id :: RankAt(rank, id) <= |p.pipeline|
    ensures Admitted(run, rank)
  {
    forall id, t | id in run.nodes && t in SuccessorTargets(run.nodes[id]) ensures t in run.nodes {
      TargetIsDefined(p, id, t);
    }
  }

  lemma TargetIsDefined(p: Program, id: string, t: string)
    requires NoDangling(p) && id in NodeIds(p) && t in SuccessorTargets(NodeAt(p, id))
    ensures t in NodeIds(p)
  {
    assert p.pipeline[Position(p, id)] == NodeAt(p, id);
  }

  /** Whatever the adapter answers, a program the validator admits runs to a proper end: its walks
      never look up an undefined node and never meet the step guard. */
  lemma AdmittedProgramsRunToAnEnd(p: Program, order: seq<string>, runId: string, world: World, maxPolls: nat,
                                   input: Option<Json>)
    requires SchemaOk(p) && NoDangling(p)
    requires Members(order) == NodeIds(p) && Topological(EdgesOf(p), order)
    ensures var run, rank := RunOf(p, runId, world, maxPolls), OrderRank(order);
            && Admitted(run, rank)
            && var (st, out) := RunProgram(run, rank, input);
               EndsProperly(run, st, out)
  {
    var run, rank := RunOf(p, runId, world, maxPolls), OrderRank(order);
    OrderGivesRank(p, order);
    AdmissionGivesRank(p, run, rank);
    RunsToAnEnd(run, rank, input);
  }

  /** In an admitted straight-line program, under every schedule, each reference to a defined step
      finds that step in the context whenever the executor starts the consumer. */
  lemma AdmittedReferencesAreFound(p: Program, order: seq<string>, run: Run, input: Option<Json>, moves: seq<Move>,
                                   v: Visit, source: string)
    requires SchemaOk(p) && NoDangling(p) && AllReachable(p) && NoneMisplaced(p, order) && StraightLine(p)
    requires Members(order) == NodeIds(p) && Topological(EdgesOf(p), order)
    requires run.nodes == NodeMap(p) && run.entry == p.entry
    requires Play(run, InitialSt(input), WholeRun(run), moves).Some?
    requires v in Play(run, InitialSt(input), WholeRun(run), moves).value.0.visits
    requires v.node in NodeIds(p) && source in ReferenceSources(NodeAt(p, v.node)) && source in NodeIds(p)
    ensures source in v.ctx
  {
    OrderGivesRank(p, order);
    AdmissionGivesRank(p, run, OrderRank(order));
    SourceLiesBefore(p, order, source, v.node);
    DominatingSourcesAreFound(run, OrderRank(order), input, moves, v, source);
  }
}
