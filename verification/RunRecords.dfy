/** What the dispatcher writes down about a kernel run. */
module RunRecords {
  import opened Values
  import opened References
  import opened Graph
  import opened Kahn
  import opened Dsl
  import opened Validator
  import opened Executor
  import opened Runs
  import opened Interleaving
  import opened Schedules
  import opened Admission
  import Dispatch

  // A result as a terminal run state.
  function Classify(r: RunResult): Dispatch.Terminal {
    if r.completed then Dispatch.Completed
    else if r.compensated != [] then Dispatch.Compensated
    else if r.blockedAt.Some? && r.blockedAt.value != "" then Dispatch.Blocked
    else Dispatch.Partial
  }

  // What becomes of a run row when the runner comes back, an exception included.
  function Recorded(out: Outcome<RunResult>): Dispatch.Terminal {
    match out
    case Done(r) => Classify(r)
    case Halted(_, _) => Dispatch.Failed
    case Raised(_) => Dispatch.Failed
  }

  // The record says what happened: completed exactly when it did, failed exactly when it raised, compensated exactly
  // when something was undone, a beginning of the commits in reverse; and otherwise blocked. The last two only for a
  // program that elected compensation.
  ghost predicate RecordedWell(run: Run, st: St, out: Outcome<RunResult>) {
    && Recorded(out) != Dispatch.Partial
    && (Recorded(out) == Dispatch.Completed <==> out.Done? && out.value.completed)
    && (Recorded(out) == Dispatch.Failed <==> !out.Done?)
    && (Recorded(out) == Dispatch.Compensated <==> out.Done? && !out.value.completed && out.value.compensated != [])
    && (Recorded(out) == Dispatch.Blocked || Recorded(out) == Dispatch.Compensated ==> run.onError == Compensate)
    && (Recorded(out) == Dispatch.Compensated ==> out.value.compensated <= Reversed(st.committed))
  }

  lemma ProperEndsAreRecordedWell(run: Run, st: St, out: Outcome<RunResult>)
    requires EndsProperly(run, st, out) && "" !in run.nodes
    ensures RecordedWell(run, st, out)
  {
  }

  /** A run of an admitted program is never recorded as `partial`; and what is recorded is what happened. */
  lemma AdmittedRunsAreRecordedWell(p: Program, order: seq<string>, runId: string, world: World, maxPolls: nat,
                                    input: Option<Json>)
    requires SchemaOk(p) && NoDangling(p)
    requires Members(order) == NodeIds(p) && Topological(EdgesOf(p), order)
    ensures var run := RunOf(p, runId, world, maxPolls);
            Ranked(run.nodes, OrderRank(order)) &&
            var (st, out) := RunProgram(run, OrderRank(order), input); RecordedWell(run, st, out)
  {
    AdmittedProgramsRunToAnEnd(p, order, runId, world, maxPolls, input);
    var run := RunOf(p, runId, world, maxPolls);
    var (st, out) := RunProgram(run, OrderRank(order), input);
    if "" in run.nodes {
      StepIdsAreNotEmpty(p, "");
    }
    ProperEndsAreRecordedWell(run, st, out);
  }

  /** And so is one whose branches interleaved in any other order. */
  lemma ScheduledRunsAreRecordedWell(run: Run, rank: map<string, nat>, input: Option<Json>, moves: seq<Move>)
    requires Admitted(run, rank) && "" !in run.nodes
    requires Play(run, InitialSt(input), WholeRun(run), moves).Some?
    requires Over(Play(run, InitialSt(input), WholeRun(run), moves).value.1)
    ensures var (st, t) := Play(run, InitialSt(input), WholeRun(run), moves).value;
            var (st', out) := Conclude(run, st, EndOf(t));
            RecordedWell(run, st', out)
  {
    SchedulesEndProperly(run, rank, input, moves);
    var (st, t) := Play(run, InitialSt(input), WholeRun(run), moves).value;
    var (st', out) := Conclude(run, st, EndOf(t));
    ProperEndsAreRecordedWell(run, st', out);
  }

  lemma StepIdsAreNotEmpty(p: Program, id: string)
    requires SchemaOk(p) && id in NodeIds(p)
    ensures id != ""
  {
    assert IsStepId(NodeAt(p, id).id);
  }
}
