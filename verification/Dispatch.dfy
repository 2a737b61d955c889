/** Firing automations: any number of firers, registrations and state changes, interleaved one atomic
    store operation at a time. */
module Dispatch {
  import opened Values
  import opened Registry
  import opened References

  // Every state but Running is terminal.
  datatype RunState = Running | Completed | Compensated | Blocked | Partial | Failed

  type Terminal = s: RunState | s != Running witness Completed

  datatype Source = ByHand(who: string) | BySchedule | ByEvent

  datatype RunRow = RunRow(name: Name, version: nat, hash: string, firedBy: Source, state: RunState, startedAt: nat)

  type Runs = map<string, RunRow>

  function RunId(id: string, version: nat, key: string): string {
    id + ":v" + Decimal(version) + ":" + key
  }

  datatype Answer = NoSuchAutomation | NotComposed | NotActive | Replayed | Finished

  // How far one call of fire_manual or fire_composed has come.
  datatype Phase =
    | Asked
    | Loaded(row: Row, run: string)
    | Opened(row: Row, run: string)
    | Ran(row: Row, run: string, outcome: Terminal)
    | Answered(answer: Answer)

  datatype Firer = Firer(name: Name, key: string, firedBy: Source, composed: bool, phase: Phase) {
    predicate Holds() {
      phase.Loaded? || phase.Opened? || phase.Ran?
    }

    // Between opening its run and closing it.
    predicate Busy() {
      phase.Opened? || phase.Ran?
    }
  }

  datatype RunnerCall = RunnerCall(run: string, plan: Json)

  datatype Sys = Sys(automations: Automations, runs: Runs, firers: seq<Firer>, calls: seq<RunnerCall>)

  const EMPTY := Sys(map[], map[], [], [])

  // --- store operations -------------------------------------------------------------------------------

  function StartRun(runs: Runs, id: string, row: RunRow): Option<Runs> {
    if id in runs then None else Some(runs[id := row])
  }

  function FinishRun(runs: Runs, id: string, state: Terminal): Runs {
    if id in runs then runs[id := runs[id].(state := state)] else runs
  }

  // --- steps ------------------------------------------------------------------------------------------

  datatype Step =
    | Launch(name: Name, key: string, firedBy: Source, composed: bool)
    | Advance(i: nat, now: nat, parses: bool, outcome: Terminal)
    | Define(name: Name, definition: Definition)
    | SetState(name: Name, version: nat, state: Lifecycle)

  // The governance gate, on the latest version at the moment it is read.
  function Gate(automations: Automations, f: Firer): Phase {
    match Latest(RowsOf(automations, f.name))
    case None => Answered(NoSuchAutomation)
    case Some(row) =>
      if f.composed && !row.composed then Answered(NotComposed)
      else if row.state != Active then Answered(NotActive)
      else Loaded(row, RunId(f.name.id, row.version, f.key))
  }

  function Opening(f: Firer, now: nat): RunRow
    requires f.phase.Loaded?
  {
    RunRow(f.name, f.phase.row.version, f.phase.row.hash, f.firedBy, Running, now)
  }

  function To(sys: Sys, i: nat, phase: Phase): Sys
    requires i < |sys.firers|
  {
    sys.(firers := sys.firers[i := sys.firers[i].(phase := phase)])
  }

  // The next atomic thing a firer does; the runner's outcome is arbitrary, an exception among them,
  // and so is whether a composed plan parses.
  function Advanced(sys: Sys, i: nat, now: nat, parses: bool, outcome: Terminal): Sys
    requires i < |sys.firers|
  {
    var f := sys.firers[i];
    match f.phase
    case Asked => To(sys, i, Gate(sys.automations, f))
    case Loaded(row, run) =>
      (match StartRun(sys.runs, run, Opening(f, now))
       case None => To(sys, i, Answered(Replayed))
       case Some(runs) => To(sys.(runs := runs), i, Opened(row, run)))
    case Opened(row, run) =>
      if f.composed && !parses then To(sys, i, Ran(row, run, Failed))
      else To(sys.(calls := sys.calls + [RunnerCall(run, row.plan)]), i, Ran(row, run, outcome))
    case Ran(row, run, state) => To(sys.(runs := FinishRun(sys.runs, run, state)), i, Answered(Finished))
    case Answered(_) => sys
  }

  function Next(sys: Sys, step: Step): Sys {
    match step
    case Launch(name, key, firedBy, composed) =>
      sys.(firers := sys.firers + [Firer(name, key, firedBy, composed, Asked)])
    case Advance(i, now, parses, outcome) =>
      if i < |sys.firers| then Advanced(sys, i, now, parses, outcome) else sys
    case Define(name, d) =>
      sys.(automations := sys.automations[name := Register(RowsOf(sys.automations, name), d)])
    case SetState(name, version, state) =>
      if name in sys.automations then
        sys.(automations := sys.automations[name := WithState(sys.automations[name], version, state)])
      else sys
  }

  // --- the invariant ------------------------------------------------------------------------------------

  ghost predicate Chains(automations: Automations) {
    forall name :: name in automations ==> Chain(automations[name])
  }

  // The row, as it was when read, is still the one on record under its version.
  ghost predicate OnRecord(automations: Automations, name: Name, row: Row) {
    var rows := RowsOf(automations, name);
    1 <= row.version <= |rows| && SameVersion(rows[row.version - 1], row)
  }

  // The run's version exists, with the hash the run carries.
  ghost predicate Pinned(automations: Automations, run: RunRow) {
    var rows := RowsOf(automations, run.name);
    1 <= run.version <= |rows| && rows[run.version - 1].hash == run.hash
  }

  // The runner was given the plan of the version its run pins.
  ghost predicate Faithful(automations: Automations, runs: Runs, call: RunnerCall) {
    call.run in runs &&
    var run := runs[call.run];
    var rows := RowsOf(automations, run.name);
    1 <= run.version <= |rows| && rows[run.version - 1].plan == call.plan
  }

  ghost predicate NotCalled(calls: seq<RunnerCall>, run: string) {
    forall k :: 0 <= k < |calls| ==> calls[k].run != run
  }

  ghost predicate CalledOnceEach(calls: seq<RunnerCall>) {
    forall i, j :: 0 <= i < j < |calls| ==> calls[i].run != calls[j].run
  }

  // The run a firer opened is its own, still open.
  ghost predicate Holding(runs: Runs, f: Firer)
    requires f.Busy()
  {
    && f.phase.run in runs
    && var run := runs[f.phase.run];
       run.state == Running && run.name == f.name && run.version == f.phase.row.version && run.hash == f.phase.row.hash
  }

  ghost predicate AllHolding(runs: Runs, firers: seq<Firer>) {
    forall i :: 0 <= i < |firers| && firers[i].Busy() ==> Holding(runs, firers[i])
  }

  // What a firer loaded is on record.
  ghost predicate AllOnRecord(automations: Automations, firers: seq<Firer>) {
    forall i :: 0 <= i < |firers| && firers[i].Holds() ==> OnRecord(automations, firers[i].name, firers[i].phase.row)
  }

  // The runner has not been called yet for the runs just opened.
  ghost predicate AllUncalled(calls: seq<RunnerCall>, firers: seq<Firer>) {
    forall i :: 0 <= i < |firers| && firers[i].phase.Opened? ==> NotCalled(calls, firers[i].phase.run)
  }

  // No two firers are busy with one run.
  ghost predicate OwnRuns(firers: seq<Firer>) {
    forall i, j :: 0 <= i < j < |firers| && firers[i].Busy() && firers[j].Busy() ==>
      firers[i].phase.run != firers[j].phase.run
  }

  ghost predicate AllFaithful(automations: Automations, runs: Runs, calls: seq<RunnerCall>) {
    forall k :: 0 <= k < |calls| ==> Faithful(automations, runs, calls[k])
  }

  ghost predicate AllPinned(automations: Automations, runs: Runs) {
    forall id :: id in runs ==> Pinned(automations, runs[id])
  }

  ghost predicate Inv(sys: Sys) {
    && Chains(sys.automations)
    && AllPinned(sys.automations, sys.runs)
    && AllFaithful(sys.automations, sys.runs, sys.calls)
    && CalledOnceEach(sys.calls)
    && AllOnRecord(sys.automations, sys.firers)
    && AllHolding(sys.runs, sys.firers)
    && AllUncalled(sys.calls, sys.firers)
    && OwnRuns(sys.firers)
  }

  // Runs only go from Running to a terminal state, keep what they pin, and are never dropped.
  ghost predicate Forward(runs: Runs, runs': Runs) {
    forall id :: id in runs ==> id in runs' && Moved(runs[id], runs'[id])
  }

  predicate Moved(run: RunRow, run': RunRow) {
    && run'.name == run.name && run'.version == run.version && run'.hash == run.hash
    && run'.firedBy == run.firedBy && run'.startedAt == run.startedAt
    && (run.state != Running ==> run'.state == run.state)
  }

  ghost predicate KeepsRows(automations: Automations, automations': Automations) {
    forall name :: Preserves(RowsOf(automations, name), RowsOf(automations', name))
  }

  lemma SameTables(automations: Automations, runs: Runs)
    ensures KeepsRows(automations, automations) && Forward(runs, runs)
  {
  }

  // What each of a firer's steps is shown to do.
  ghost predicate StepsWell(sys: Sys, sys': Sys) {
    Inv(sys') && Forward(sys.runs, sys'.runs) && KeepsRows(sys.automations, sys'.automations)
  }

  lemma RecordsStay(automations: Automations, automations': Automations, firers: seq<Firer>)
    requires AllOnRecord(automations, firers) && KeepsRows(automations, automations')
    ensures AllOnRecord(automations', firers)
  {
    forall i | 0 <= i < |firers| && firers[i].Holds()
      ensures OnRecord(automations', firers[i].name, firers[i].phase.row)
    {
      assert OnRecord(automations, firers[i].name, firers[i].phase.row);
      assert Preserves(RowsOf(automations, firers[i].name), RowsOf(automations', firers[i].name));
    }
  }

  lemma PinsStay(automations: Automations, automations': Automations, runs: Runs)
    requires AllPinned(automations, runs) && KeepsRows(automations, automations')
    ensures AllPinned(automations', runs)
  {
    forall id | id in runs ensures Pinned(automations', runs[id]) {
      assert Pinned(automations, runs[id]);
      assert Preserves(RowsOf(automations, runs[id].name), RowsOf(automations', runs[id].name));
    }
  }

  lemma CallsStayFaithful(automations: Automations, automations': Automations, runs: Runs, runs': Runs,
                          calls: seq<RunnerCall>)
    requires AllFaithful(automations, runs, calls) && KeepsRows(automations, automations') && Forward(runs, runs')
    ensures AllFaithful(automations', runs', calls)
  {
    forall k | 0 <= k < |calls| ensures Faithful(automations', runs', calls[k]) {
      assert Faithful(automations, runs, calls[k]);
      var name := runs[calls[k].run].name;
      assert Preserves(RowsOf(automations, name), RowsOf(automations', name));
    }
  }

  lemma TablesMove(sys: Sys, automations': Automations)
    requires Inv(sys) && Chains(automations') && KeepsRows(sys.automations, automations')
    ensures Inv(sys.(automations := automations'))
  {
    RecordsStay(sys.automations, automations', sys.firers);
    PinsStay(sys.automations, automations', sys.runs);
    CallsStayFaithful(sys.automations, automations', sys.runs, sys.runs, sys.calls);
  }

  lemma DefineKeepsInv(sys: Sys, name: Name, d: Definition)
    requires Inv(sys)
    ensures StepsWell(sys, Next(sys, Define(name, d)))
  {
    SameTables(sys.automations, sys.runs);
    assert Chain(RowsOf(sys.automations, name));
    RegisterKeepsChain(RowsOf(sys.automations, name), d);
    TablesMove(sys, Next(sys, Define(name, d)).automations);
  }

  lemma SetStateKeepsInv(sys: Sys, name: Name, version: nat, state: Lifecycle)
    requires Inv(sys)
    ensures StepsWell(sys, Next(sys, SetState(name, version, state)))
  {
    SameTables(sys.automations, sys.runs);
    if name in sys.automations {
      WithStateKeepsChain(sys.automations[name], version, state);
      TablesMove(sys, Next(sys, SetState(name, version, state)).automations);
    }
  }

  // --- a firer's own steps ------------------------------------------------------------------------------

  // Moving one firer on keeps the firers' part of the invariant if the firer itself fits.
  lemma OneFirerMoves(sys: Sys, i: nat, f: Firer)
    requires i < |sys.firers| && AllOnRecord(sys.automations, sys.firers) && OwnRuns(sys.firers)
    requires f.Holds() ==> OnRecord(sys.automations, f.name, f.phase.row)
    requires f.Busy() ==> forall j :: 0 <= j < |sys.firers| && j != i && sys.firers[j].Busy() ==>
                            sys.firers[j].phase.run != f.phase.run
    ensures AllOnRecord(sys.automations, sys.firers[i := f]) && OwnRuns(sys.firers[i := f])
  {
  }

  lemma LatestIsOnRecord(automations: Automations, name: Name)
    requires Chains(automations) && Latest(RowsOf(automations, name)).Some?
    ensures OnRecord(automations, name, Latest(RowsOf(automations, name)).value)
  {
    LatestIsLast(RowsOf(automations, name));
  }

  lemma AskingKeepsInv(sys: Sys, i: nat, now: nat, parses: bool, outcome: Terminal)
    requires Inv(sys) && i < |sys.firers| && sys.firers[i].phase.Asked?
    ensures StepsWell(sys, Advanced(sys, i, now, parses, outcome))
  {
    var f := sys.firers[i];
    if Latest(RowsOf(sys.automations, f.name)).Some? {
      LatestIsOnRecord(sys.automations, f.name);
    }
    OneFirerMoves(sys, i, f.(phase := Gate(sys.automations, f)));
    SameTables(sys.automations, sys.runs);
  }

  lemma ReplayingKeepsInv(sys: Sys, i: nat, now: nat, parses: bool, outcome: Terminal)
    requires Inv(sys) && i < |sys.firers| && sys.firers[i].phase.Loaded?
    requires sys.firers[i].phase.run in sys.runs
    ensures StepsWell(sys, Advanced(sys, i, now, parses, outcome))
  {
    OneFirerMoves(sys, i, sys.firers[i].(phase := Answered(Replayed)));
    SameTables(sys.automations, sys.runs);
  }

  lemma UnopenedIsUncalled(automations: Automations, runs: Runs, calls: seq<RunnerCall>, run: string)
    requires AllFaithful(automations, runs, calls) && run !in runs
    ensures NotCalled(calls, run)
  {
    forall k | 0 <= k < |calls| ensures calls[k].run != run {
      assert Faithful(automations, runs, calls[k]);
    }
  }

  lemma OpeningKeepsInv(sys: Sys, i: nat, now: nat, parses: bool, outcome: Terminal)
    requires Inv(sys) && i < |sys.firers| && sys.firers[i].phase.Loaded?
    requires sys.firers[i].phase.run !in sys.runs
    ensures StepsWell(sys, Advanced(sys, i, now, parses, outcome))
  {
    var f := sys.firers[i];
    var row, run := f.phase.row, f.phase.run;
    var runs' := sys.runs[run := Opening(f, now)];
    var f' := f.(phase := Opened(row, run));
    assert OnRecord(sys.automations, f.name, row);
    forall j | 0 <= j < |sys.firers| && sys.firers[j].Busy() ensures sys.firers[j].phase.run != run {
      assert Holding(sys.runs, sys.firers[j]);
    }
    OneFirerMoves(sys, i, f');
    SameTables(sys.automations, sys.runs);
    CallsStayFaithful(sys.automations, sys.automations, sys.runs, runs', sys.calls);
    UnopenedIsUncalled(sys.automations, sys.runs, sys.calls, run);
    assert AllHolding(runs', sys.firers[i := f']) by {
      forall j | 0 <= j < |sys.firers| && j != i && sys.firers[j].Busy() ensures Holding(runs', sys.firers[j]) {
        assert Holding(sys.runs, sys.firers[j]);
      }
    }
  }

  lemma RunningKeepsInv(sys: Sys, i: nat, now: nat, parses: bool, outcome: Terminal)
    requires Inv(sys) && i < |sys.firers| && sys.firers[i].phase.Opened?
    ensures StepsWell(sys, Advanced(sys, i, now, parses, outcome))
  {
    var f := sys.firers[i];
    var row, run := f.phase.row, f.phase.run;
    var sys' := Advanced(sys, i, now, parses, outcome);
    assert Holding(sys.runs, f) && NotCalled(sys.calls, run) && OnRecord(sys.automations, f.name, row);
    OneFirerMoves(sys, i, sys'.firers[i]);
    assert AllHolding(sys.runs, sys'.firers);
    OneMoreCall(sys, i, row, run);
    SameTables(sys.automations, sys.runs);
  }

  // The call just made is the first for its run, faithful, and for no run that another firer opened.
  lemma OneMoreCall(sys: Sys, i: nat, row: Row, run: string)
    requires Inv(sys) && i < |sys.firers| && sys.firers[i].phase == Opened(row, run)
    ensures var calls := sys.calls + [RunnerCall(run, row.plan)];
            && CalledOnceEach(calls) && AllFaithful(sys.automations, sys.runs, calls)
            && forall j :: 0 <= j < |sys.firers| && j != i && sys.firers[j].phase.Opened? ==>
                 NotCalled(calls, sys.firers[j].phase.run)
  {
    var calls := sys.calls + [RunnerCall(run, row.plan)];
    assert Holding(sys.runs, sys.firers[i]) && NotCalled(sys.calls, run);
    assert OnRecord(sys.automations, sys.firers[i].name, row);
    assert Faithful(sys.automations, sys.runs, calls[|sys.calls|]);
    forall k | 0 <= k < |sys.calls| ensures Faithful(sys.automations, sys.runs, calls[k]) {
      assert Faithful(sys.automations, sys.runs, sys.calls[k]);
    }
  }

  lemma ClosingGoesForward(runs: Runs, run: string, state: Terminal)
    requires run in runs && runs[run].state == Running
    ensures Forward(runs, FinishRun(runs, run, state))
  {
  }

  lemma FinishingKeepsInv(sys: Sys, i: nat, now: nat, parses: bool, outcome: Terminal)
    requires Inv(sys) && i < |sys.firers| && sys.firers[i].phase.Ran?
    ensures StepsWell(sys, Advanced(sys, i, now, parses, outcome))
  {
    var f := sys.firers[i];
    var run, state := f.phase.run, f.phase.outcome;
    var runs' := FinishRun(sys.runs, run, state);
    var f' := f.(phase := Answered(Finished));
    assert Holding(sys.runs, f);
    ClosingGoesForward(sys.runs, run, state);
    OneFirerMoves(sys, i, f');
    SameTables(sys.automations, sys.runs);
    CallsStayFaithful(sys.automations, sys.automations, sys.runs, runs', sys.calls);
    assert AllHolding(runs', sys.firers[i := f']) by {
      forall j | 0 <= j < |sys.firers| && j != i && sys.firers[j].Busy() ensures Holding(runs', sys.firers[j]) {
        assert Holding(sys.runs, sys.firers[j]);
      }
    }
    assert AllPinned(sys.automations, runs') by {
      assert Pinned(sys.automations, sys.runs[run]);
    }
  }

  lemma AdvanceKeepsInv(sys: Sys, i: nat, now: nat, parses: bool, outcome: Terminal)
    requires Inv(sys) && i < |sys.firers|
    ensures StepsWell(sys, Advanced(sys, i, now, parses, outcome))
  {
    match sys.firers[i].phase
    case Asked => AskingKeepsInv(sys, i, now, parses, outcome);
    case Loaded(_, run) =>
      if run in sys.runs { ReplayingKeepsInv(sys, i, now, parses, outcome); }
      else { OpeningKeepsInv(sys, i, now, parses, outcome); }
    case Opened(_, _) => RunningKeepsInv(sys, i, now, parses, outcome);
    case Ran(_, _, _) => FinishingKeepsInv(sys, i, now, parses, outcome);
    case Answered(_) => SameTables(sys.automations, sys.runs);
  }

  lemma LaunchKeepsInv(sys: Sys, step: Step)
    requires Inv(sys) && step.Launch?
    ensures StepsWell(sys, Next(sys, step))
  {
    SameTables(sys.automations, sys.runs);
  }

  /** Every step keeps the invariant, moves runs only forward, and rewrites no version. */
  lemma StepsKeepInv(sys: Sys, step: Step)
    requires Inv(sys)
    ensures StepsWell(sys, Next(sys, step))
  {
    match step
    case Launch(_, _, _, _) => LaunchKeepsInv(sys, step);
    case Define(name, d) => DefineKeepsInv(sys, name, d);
    case SetState(name, version, state) => SetStateKeepsInv(sys, name, version, state);
    case Advance(i, now, parses, outcome) =>
      if i < |sys.firers| {
        AdvanceKeepsInv(sys, i, now, parses, outcome);
      } else {
        SameTables(sys.automations, sys.runs);
      }
  }
}
