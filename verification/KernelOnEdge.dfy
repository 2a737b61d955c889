/** A kernel run against the edge: its idempotency keys bound what it can write, however often a node
    is visited and however often the run is repeated. */
module KernelOnEdge {
  import opened Values
  import opened Executor
  import opened Runs
  import opened Interleaving
  import opened Schedules
  import Admission
  import Edge
  import EdgeRuns
  import Store

  function ActionIds(run: Run): set<string> {
    set id | id in run.nodes && run.nodes[id].Action?
  }

  // The keys a run can commit under: one forward and one rollback key per action.
  function RunKeys(runId: string, ids: set<string>): set<string> {
    (set id | id in ids :: IdemKey(runId, id)) + (set id | id in ids :: IdemKey(runId, RollbackId(id)))
  }

  ghost predicate CommitsUnder(calls: seq<Call>, keys: set<string>) {
    forall i :: 0 <= i < |calls| && calls[i].CommitCall? ==> calls[i].key in keys
  }

  // --- the kernel's side ------------------------------------------------------------------------------

  lemma {:induction false} UnwindCommitsUnderRollbackKeys(run: Run, st: St, left: seq<string>, undone: seq<string>)
    requires forall i :: 0 <= i < |left| ==> IsAction(run, left[i])
    requires CommitsUnder(st.calls, RunKeys(run.runId, ActionIds(run)))
    ensures CommitsUnder(Unwind(run, st, left, undone).0.calls, RunKeys(run.runId, ActionIds(run)))
    decreases |left|
  {
    if left != [] {
      var id := left[|left| - 1];
      assert IsAction(run, id);
      assert IdemKey(run.runId, RollbackId(id)) in RunKeys(run.runId, ActionIds(run));
      UnwindCommitsUnderRollbackKeys(run, UndoOne(run, st, id).0, left[..|left| - 1], undone + [id]);
    }
  }

  lemma AdvancesCommitUnderKeys(run: Run, input: Option<Json>, st: St)
    requires Advances(run, InitialSt(input), st)
    ensures CommitsUnder(st.calls, RunKeys(run.runId, ActionIds(run)))
    ensures forall i :: 0 <= i < |st.committed| ==> IsAction(run, st.committed[i])
  {
    forall i | 0 <= i < |st.calls| && st.calls[i].CommitCall?
      ensures st.calls[i].key in RunKeys(run.runId, ActionIds(run))
    {
      assert ForwardKey(run, st.calls[i].key);
      var id :| IsAction(run, id) && st.calls[i].key == IdemKey(run.runId, id);
      assert id in ActionIds(run);
    }
  }

  lemma ConcludingCommitsUnderKeys(run: Run, input: Option<Json>, st: St, out: Outcome<()>)
    requires Advances(run, InitialSt(input), st)
    ensures CommitsUnder(Conclude(run, st, out).0.calls, RunKeys(run.runId, ActionIds(run)))
  {
    AdvancesCommitUnderKeys(run, input, st);
    if out.Halted? {
      UnwindCommitsUnderRollbackKeys(run, st, st.committed, []);
    }
  }

  /** However its branches interleave, every commit a run of an admitted program has made at any point, and
      every one that its unwinding makes, goes under one of the two keys of one of its actions. */
  lemma SchedulesCommitUnderTheirKeys(run: Run, rank: map<string, nat>, input: Option<Json>, moves: seq<Move>)
    requires Admitted(run, rank) && Play(run, InitialSt(input), WholeRun(run), moves).Some?
    ensures var (st, t) := Play(run, InitialSt(input), WholeRun(run), moves).value;
            && CommitsUnder(st.calls, RunKeys(run.runId, ActionIds(run)))
            && (Over(t) ==> CommitsUnder(Conclude(run, st, Admission.EndOf(t)).0.calls,
                                         RunKeys(run.runId, ActionIds(run))))
  {
    EntryIsSafe(run, rank, InitialSt(input));
    PlaysKeepSafe(run, rank, InitialSt(input), WholeRun(run), moves);
    var (st, t) := Play(run, InitialSt(input), WholeRun(run), moves).value;
    AdvancesCommitUnderKeys(run, input, st);
    if Over(t) {
      ConcludingCommitsUnderKeys(run, input, st, Admission.EndOf(t));
    }
  }

  lemma RunsCommitUnderTheirKeys(run: Run, rank: map<string, nat>, input: Option<Json>)
    requires Admitted(run, rank)
    ensures CommitsUnder(RunProgram(run, rank, input).0.calls, RunKeys(run.runId, ActionIds(run)))
  {
    EntryIsSafe(run, rank, InitialSt(input));
    Admission.WalkIsSafe(run, rank, InitialSt(input), Some(run.entry), Null, 0);
    var (st, out) := Walk(run, rank, InitialSt(input), Some(run.entry), Null, 0);
    ConcludingCommitsUnderKeys(run, input, st, out);
  }

  lemma {:induction false} TwoKeysPerAction(runId: string, ids: set<string>)
    ensures |RunKeys(runId, ids)| <= 2 * |ids|
  {
    if ids == {} {
      assert RunKeys(runId, ids) == {};
    } else {
      var id :| id in ids;
      TwoKeysPerAction(runId, ids - {id});
      var fewer := RunKeys(runId, ids - {id});
      assert RunKeys(runId, ids) == fewer + {IdemKey(runId, id)} + {IdemKey(runId, RollbackId(id))};
    }
  }

  // --- the edge's side --------------------------------------------------------------------------------

  // How many of the writes were made under one of the keys.
  function WritesUnder(writes: seq<Edge.Write>, keys: set<string>): nat {
    if writes == [] then 0
    else
      WritesUnder(writes[..|writes| - 1], keys) + if writes[|writes| - 1].key in keys then 1 else 0
  }

  lemma {:induction false} UnusedKeyIsNotMissed(writes: seq<Edge.Write>, keys: set<string>, key: string)
    requires forall i :: 0 <= i < |writes| ==> writes[i].key != key
    ensures WritesUnder(writes, keys) == WritesUnder(writes, keys - {key})
  {
    if writes != [] {
      UnusedKeyIsNotMissed(writes[..|writes| - 1], keys, key);
    }
  }

  lemma {:induction false} AtMostOneEach(writes: seq<Edge.Write>, keys: set<string>)
    requires forall i, j :: 0 <= i < j < |writes| ==> writes[i].key != writes[j].key
    ensures WritesUnder(writes, keys) <= |keys|
    decreases |writes|
  {
    if writes != [] {
      var last := writes[|writes| - 1];
      if last.key in keys {
        UnusedKeyIsNotMissed(writes[..|writes| - 1], keys, last.key);
        AtMostOneEach(writes[..|writes| - 1], keys - {last.key});
      } else {
        AtMostOneEach(writes[..|writes| - 1], keys);
      }
    }
  }

  /** Whatever else the edge serves and however often the kernel repeats the run: each action writes at
      most once forward and at most once in compensation, and all commits of the run together write at
      most twice per action. */
  lemma AtMostTwoWritesPerAction(run: Run, rank: map<string, nat>, input: Option<Json>,
                                 a: Edge.Adapter, docs: Store.Docs, script: seq<EdgeRuns.Moment>,
                                 states: seq<Edge.State>, i: nat)
    requires Admitted(run, rank)
    requires EdgeRuns.IsRun(a, docs, script, states) && i <= |script|
    ensures forall id :: id in ActionIds(run) ==>
              && WritesUnder(states[i].writes, {IdemKey(run.runId, id)}) <= 1
              && WritesUnder(states[i].writes, {IdemKey(run.runId, RollbackId(id))}) <= 1
    ensures CommitsUnder(RunProgram(run, rank, input).0.calls, RunKeys(run.runId, ActionIds(run)))
    ensures WritesUnder(states[i].writes, RunKeys(run.runId, ActionIds(run))) <= 2 * |ActionIds(run)|
  {
    RunsCommitUnderTheirKeys(run, rank, input);
    EdgeRuns.RunsKeepInv(a, docs, script, states, i);
    var writes := states[i].writes;
    forall id | id in ActionIds(run)
      ensures WritesUnder(writes, {IdemKey(run.runId, id)}) <= 1
      ensures WritesUnder(writes, {IdemKey(run.runId, RollbackId(id))}) <= 1
    {
      AtMostOneEach(writes, {IdemKey(run.runId, id)});
      AtMostOneEach(writes, {IdemKey(run.runId, RollbackId(id))});
    }
    AtMostOneEach(writes, RunKeys(run.runId, ActionIds(run)));
    TwoKeysPerAction(run.runId, ActionIds(run));
  }
}
