/** Whole histories of the dispatcher, under every interleaving. */
module Firings {
  import opened Values
  import opened Registry
  import opened References
  import opened Dispatch

  // The state after a history of steps from an empty store.
  function After(steps: seq<Step>): Sys {
    if steps == [] then EMPTY else Next(After(steps[..|steps| - 1]), steps[|steps| - 1])
  }

  /** Under any interleaving: versions run 1, 2, 3, ... with each but the newest superseded by the next and
      differing from it, the runner is called at most once per run id and with the plan of the version
      that run pins, and every run pins a version on record by its hash. */
  lemma {:induction false} HistoriesKeepInv(steps: seq<Step>)
    ensures Inv(After(steps))
  {
    if steps != [] {
      HistoriesKeepInv(steps[..|steps| - 1]);
      StepsKeepInv(After(steps[..|steps| - 1]), steps[|steps| - 1]);
    }
  }

  lemma ForwardTransitive(a: Runs, b: Runs, c: Runs)
    requires Forward(a, b) && Forward(b, c)
    ensures Forward(a, c)
  {
  }

  lemma KeepsRowsTransitive(a: Automations, b: Automations, c: Automations)
    requires KeepsRows(a, b) && KeepsRows(b, c)
    ensures KeepsRows(a, c)
  {
    forall name ensures Preserves(RowsOf(a, name), RowsOf(c, name)) {
      PreservesTransitive(RowsOf(a, name), RowsOf(b, name), RowsOf(c, name));
    }
  }

  /** A run, once open, keeps its pin for ever and leaves `running` at most once; and the version it pins
      keeps its plan, hash and trigger for ever. */
  lemma {:induction false} HistoriesGoForward(steps: seq<Step>, i: nat)
    requires i <= |steps|
    ensures Forward(After(steps[..i]).runs, After(steps).runs)
    ensures KeepsRows(After(steps[..i]).automations, After(steps).automations)
    decreases |steps|
  {
    HistoriesKeepInv(steps[..i]);
    SameTables(After(steps[..i]).automations, After(steps[..i]).runs);
    if i == |steps| {
      assert steps[..i] == steps;
    } else {
      var before := steps[..|steps| - 1];
      assert before[..i] == steps[..i];
      HistoriesGoForward(before, i);
      HistoriesKeepInv(before);
      StepsKeepInv(After(before), steps[|steps| - 1]);
      ForwardTransitive(After(steps[..i]).runs, After(before).runs, After(steps).runs);
      KeepsRowsTransitive(After(steps[..i]).automations, After(before).automations, After(steps).automations);
    }
  }

  // --- what a run pins was the armed latest version --------------------------------------------------

  ghost predicate ArmedLatest(sys: Sys, name: Name, version: nat, hash: string) {
    var latest := Latest(RowsOf(sys.automations, name));
    latest.Some? && latest.value.version == version && latest.value.hash == hash && latest.value.state == Active
  }

  // At some earlier moment the version was the latest, and active.
  ghost predicate WasArmedLatest(steps: seq<Step>, name: Name, version: nat, hash: string) {
    exists m :: 0 <= m < |steps| && ArmedLatest(After(steps[..m]), name, version, hash)
  }

  lemma StillWas(steps: seq<Step>, step: Step, name: Name, version: nat, hash: string)
    requires WasArmedLatest(steps, name, version, hash)
    ensures WasArmedLatest(steps + [step], name, version, hash)
  {
    var m :| 0 <= m < |steps| && ArmedLatest(After(steps[..m]), name, version, hash);
    assert (steps + [step])[..m] == steps[..m];
  }

  lemma NowWas(steps: seq<Step>, step: Step, name: Name, version: nat, hash: string)
    requires ArmedLatest(After(steps), name, version, hash)
    ensures WasArmedLatest(steps + [step], name, version, hash)
  {
    assert (steps + [step])[..|steps|] == steps;
  }

  ghost predicate RunsWereArmed(steps: seq<Step>) {
    var runs := After(steps).runs;
    forall id :: id in runs ==> WasArmedLatest(steps, runs[id].name, runs[id].version, runs[id].hash)
  }

  ghost predicate LoadedWereArmed(steps: seq<Step>) {
    var firers := After(steps).firers;
    forall i :: 0 <= i < |firers| && firers[i].Holds() ==>
      WasArmedLatest(steps, firers[i].name, firers[i].phase.row.version, firers[i].phase.row.hash)
  }

  // A firer holds a row because it held it before or has just read it.
  lemma HoldsBecause(sys: Sys, step: Step, i: nat)
    requires i < |Next(sys, step).firers| && Next(sys, step).firers[i].Holds()
    ensures var f := Next(sys, step).firers[i];
            || (i < |sys.firers| && sys.firers[i].Holds() && sys.firers[i].name == f.name &&
                sys.firers[i].phase.row == f.phase.row)
            || ArmedLatest(sys, f.name, f.phase.row.version, f.phase.row.hash)
  {
  }

  // A firer on record holds the row that this run pins.
  ghost predicate HeldBySome(sys: Sys, run: RunRow) {
    exists i :: 0 <= i < |sys.firers| && sys.firers[i].Holds() && sys.firers[i].name == run.name &&
                sys.firers[i].phase.row.version == run.version && sys.firers[i].phase.row.hash == run.hash
  }

  // Only a firer that has loaded its row opens a run, and then for that row.
  lemma OpenedByAHolder(sys: Sys, step: Step, id: string)
    requires id !in sys.runs && id in Next(sys, step).runs
    ensures HeldBySome(sys, Next(sys, step).runs[id])
  {
    assert step.Advance? && step.i < |sys.firers|;
    assert sys.firers[step.i].phase.Loaded?;
    assert sys.firers[step.i].Holds();
  }

  // A run is on record because it was before or a firer holding its pin has just opened it.
  lemma RunBecause(sys: Sys, step: Step, id: string)
    requires Inv(sys) && id in Next(sys, step).runs
    ensures (id in sys.runs && Moved(sys.runs[id], Next(sys, step).runs[id])) ||
            HeldBySome(sys, Next(sys, step).runs[id])
  {
    if id in sys.runs {
      StepsKeepInv(sys, step);
    } else {
      OpenedByAHolder(sys, step, id);
    }
  }

  /** Every run pins a version that was the latest and active at the moment its firer read it. */
  lemma {:induction false} RunsPinArmedVersions(steps: seq<Step>)
    ensures RunsWereArmed(steps) && LoadedWereArmed(steps)
  {
    if steps != [] {
      var before, step := steps[..|steps| - 1], steps[|steps| - 1];
      assert steps == before + [step];
      var sys, sys' := After(before), After(steps);
      RunsPinArmedVersions(before);
      HistoriesKeepInv(before);
      forall i | 0 <= i < |sys'.firers| && sys'.firers[i].Holds()
        ensures WasArmedLatest(steps, sys'.firers[i].name, sys'.firers[i].phase.row.version,
                               sys'.firers[i].phase.row.hash)
      {
        FirerWasArmed(before, step, i);
      }
      forall id | id in sys'.runs
        ensures WasArmedLatest(steps, sys'.runs[id].name, sys'.runs[id].version, sys'.runs[id].hash)
      {
        RunWasArmed(before, step, id);
      }
    }
  }

  lemma FirerWasArmed(before: seq<Step>, step: Step, i: nat)
    requires LoadedWereArmed(before)
    requires var firers := Next(After(before), step).firers; i < |firers| && firers[i].Holds()
    ensures var f := Next(After(before), step).firers[i];
            WasArmedLatest(before + [step], f.name, f.phase.row.version, f.phase.row.hash)
  {
    var f := Next(After(before), step).firers[i];
    HoldsBecause(After(before), step, i);
    if ArmedLatest(After(before), f.name, f.phase.row.version, f.phase.row.hash) {
      NowWas(before, step, f.name, f.phase.row.version, f.phase.row.hash);
    } else {
      StillWas(before, step, f.name, f.phase.row.version, f.phase.row.hash);
    }
  }

  lemma RunWasArmed(before: seq<Step>, step: Step, id: string)
    requires RunsWereArmed(before) && LoadedWereArmed(before) && Inv(After(before))
    requires id in Next(After(before), step).runs
    ensures var run := Next(After(before), step).runs[id];
            WasArmedLatest(before + [step], run.name, run.version, run.hash)
  {
    var run := Next(After(before), step).runs[id];
    RunBecause(After(before), step, id);
    assert WasArmedLatest(before, run.name, run.version, run.hash);
    StillWas(before, step, run.name, run.version, run.hash);
  }

  // --- run ids ------------------------------------------------------------------------------------------

  // Automation ids are slugs; a colon is not among their characters.
  predicate NoColon(s: string) {
    forall k :: 0 <= k < |s| ==> s[k] != ':'
  }

  lemma DigitsHaveNoColon(n: nat)
    ensures NoColon(Decimal(n))
  {
  }

  // What precedes the first colon is determined.
  lemma {:induction false} FirstColon(a: string, x: string, b: string, y: string)
    requires NoColon(a) && NoColon(b) && a + ":" + x == b + ":" + y
    ensures a == b && x == y
  {
    var s := a + ":" + x;
    assert s[|a|] == ':' && s[|b|] == ':' by { assert s == b + ":" + y; }
    assert forall k :: 0 <= k < |a| ==> s[k] == a[k];
    assert forall k :: 0 <= k < |b| ==> s[k] == b[k] by { assert s == b + ":" + y; }
    assert |a| == |b|;
    assert a == s[..|a|] && b == s[..|b|];
    assert x == s[|a| + 1..] && y == (b + ":" + y)[|b| + 1..];
  }

  /** A run id tells its automation, version and fire key apart from all others, and nothing else: it
      does not say which workspace the automation is in. */
  lemma RunIdDetermines(id: string, version: nat, key: string, id': string, version': nat, key': string)
    requires NoColon(id) && NoColon(id')
    ensures RunId(id, version, key) == RunId(id', version', key') <==> id == id' && version == version' && key == key'
  {
    if RunId(id, version, key) == RunId(id', version', key') {
      var digits, digits' := Decimal(version), Decimal(version');
      assert RunId(id, version, key) == id + ":" + ("v" + digits + ":" + key);
      assert RunId(id', version', key') == id' + ":" + ("v" + digits' + ":" + key');
      FirstColon(id, "v" + digits + ":" + key, id', "v" + digits' + ":" + key');
      DigitsHaveNoColon(version);
      DigitsHaveNoColon(version');
      assert ("v" + digits) + ":" + key == ("v" + digits') + ":" + key';
      FirstColon("v" + digits, key, "v" + digits', key');
      assert digits == ("v" + digits)[1..] == digits';
      DecimalRoundTrip(version);
      DecimalRoundTrip(version');
    }
  }

  // Two workspaces arm an automation of the same id; each fires it once, under the same key.
  function TwoWorkspaces(one: Name, two: Name, d: Definition, key: string): seq<Step> {
    [Define(one, d), Define(two, d),
     Launch(one, key, ByEvent, false), Launch(two, key, ByEvent, false),
     Advance(0, 0, true, Completed), Advance(0, 0, true, Completed),
     Advance(1, 0, true, Completed), Advance(1, 0, true, Completed)]
  }

  lemma Unfold(steps: seq<Step>, n: nat, before: Sys, after: Sys)
    requires 1 <= n <= |steps| && After(steps[..n - 1]) == before && Next(before, steps[n - 1]) == after
    ensures After(steps[..n]) == after
  {
    assert steps[..n][..n - 1] == steps[..n - 1];
  }

  lemma UnfoldTwice(steps: seq<Step>, n: nat, before: Sys, step: Step)
    requires n + 2 <= |steps| && steps[n] == step == steps[n + 1] && After(steps[..n]) == before
    ensures After(steps[..n + 2]) == Next(Next(before, step), step)
  {
    Unfold(steps, n + 1, before, Next(before, step));
    Unfold(steps, n + 2, Next(before, step), Next(Next(before, step), step));
  }

  lemma FirstVersion(d: Definition)
    ensures Register([], d) == [Row(1, d.hash, d.composed, d.plan, d.trigger, d.state, None)]
    ensures Latest(Register([], d)) == Some(Register([], d)[0])
  {
    assert Register([], d)[..0] == [];
  }

  // The two automations armed, and both fires asked for.
  lemma BothLaunched(one: Name, two: Name, d: Definition, key: string)
    requires one != two
    ensures After(TwoWorkspaces(one, two, d, key)[..4]) ==
            Sys(map[one := Register([], d), two := Register([], d)], map[],
                [Firer(one, key, ByEvent, false, Asked), Firer(two, key, ByEvent, false, Asked)], [])
  {
    var steps, rows := TwoWorkspaces(one, two, d, key), Register([], d);
    var f, g := Firer(one, key, ByEvent, false, Asked), Firer(two, key, ByEvent, false, Asked);
    assert After(steps[..0]) == EMPTY;
    Unfold(steps, 1, EMPTY, Sys(map[one := rows], map[], [], []));
    Unfold(steps, 2, Sys(map[one := rows], map[], [], []), Sys(map[one := rows, two := rows], map[], [], []));
    Unfold(steps, 3, Sys(map[one := rows, two := rows], map[], [], []),
           Sys(map[one := rows, two := rows], map[], [f], []));
    Unfold(steps, 4, Sys(map[one := rows, two := rows], map[], [f], []),
           Sys(map[one := rows, two := rows], map[], [f, g], []));
  }

  // Reading and then opening: what two steps of one firer do when its automation is armed.
  lemma ReadsThenOpens(sys: Sys, i: nat, row: Row)
    requires i < |sys.firers| && sys.firers[i].phase.Asked? && !sys.firers[i].composed
    requires Latest(RowsOf(sys.automations, sys.firers[i].name)) == Some(row) && row.state == Active
    ensures var f := sys.firers[i];
            var run := RunId(f.name.id, row.version, f.key);
            Next(Next(sys, Advance(i, 0, true, Completed)), Advance(i, 0, true, Completed)) ==
            if run in sys.runs then To(sys, i, Answered(Replayed))
            else To(sys.(runs := sys.runs[run := RunRow(f.name, row.version, row.hash, f.firedBy, Running, 0)]), i,
                    Opened(row, run))
  {
  }

  /** So a fire in one workspace is taken for a replay of another's: the second firer is answered with
      the first one's run, and its own automation does not run. */
  lemma OtherWorkspaceIsTakenForAReplay(one: Name, two: Name, d: Definition, key: string)
    requires one != two && one.id == two.id && d.state == Active
    ensures var sys := After(TwoWorkspaces(one, two, d, key));
            && |sys.firers| == 2 && sys.firers[1].name == two && sys.firers[1].phase == Answered(Replayed)
            && sys.runs.Keys == {RunId(one.id, 1, key)} && sys.runs[RunId(one.id, 1, key)].name == one
  {
    var steps := TwoWorkspaces(one, two, d, key);
    FirstVersion(d);
    BothLaunched(one, two, d, key);
    var s4, row := After(steps[..4]), Register([], d)[0];
    var step0, step1 := Advance(0, 0, true, Completed), Advance(1, 0, true, Completed);
    ReadsThenOpens(s4, 0, row);
    var s6 := Next(Next(s4, step0), step0);
    ReadsThenOpens(s6, 1, row);
    UnfoldTwice(steps, 4, s4, step0);
    UnfoldTwice(steps, 6, s6, step1);
    assert steps[..8] == steps;
  }

  // --- what one firer does -----------------------------------------------------------------------------

  // Its automation's latest version, if there is one.
  ghost predicate IsLatestOf(sys: Sys, name: Name, row: Row) {
    name in sys.automations && sys.automations[name] != [] &&
    row == sys.automations[name][|sys.automations[name]| - 1]
  }

  /** A firer that reads its automation goes on with the latest version exactly when that is active, and composed
      if it is fired as composed; otherwise it answers why not, and nothing else has changed. */
  lemma FirersGoByTheLatest(sys: Sys, i: nat, now: nat, parses: bool, outcome: Terminal)
    requires Chains(sys.automations) && i < |sys.firers| && sys.firers[i].phase.Asked?
    ensures var f := sys.firers[i];
            var sys' := Next(sys, Advance(i, now, parses, outcome));
            && |sys'.firers| == |sys.firers|
            && sys' == sys.(firers := sys.firers[i := sys'.firers[i]])
            && sys'.firers[i] == f.(phase := sys'.firers[i].phase)
            && match sys'.firers[i].phase
               case Loaded(row, run) =>
                 && IsLatestOf(sys, f.name, row) && row.state == Active && (f.composed ==> row.composed)
                 && run == f.name.id + ":v" + Decimal(row.version) + ":" + f.key
               case Answered(NotActive) =>
                 exists row :: IsLatestOf(sys, f.name, row) && row.state != Active && (f.composed ==> row.composed)
               case Answered(NotComposed) => exists row :: IsLatestOf(sys, f.name, row) && f.composed && !row.composed
               case Answered(NoSuchAutomation) => f.name !in sys.automations || sys.automations[f.name] == []
               case _ => false
  {
    var rows := RowsOf(sys.automations, sys.firers[i].name);
    if rows != [] {
      assert Chain(rows);
      LatestIsLast(rows);
      assert IsLatestOf(sys, sys.firers[i].name, rows[|rows| - 1]);
    }
  }

  // The firer has moved on, and otherwise only the runs and the calls may be others.
  ghost predicate MovedOn(sys: Sys, i: nat, sys': Sys, phase: Phase, runs: Runs, calls: seq<RunnerCall>)
    requires i < |sys.firers|
  {
    sys' == Sys(sys.automations, runs, sys.firers[i := sys.firers[i].(phase := phase)], calls)
  }

  /** One that has read it opens a run, running, under the version it read, unless there is one already, which it then
      answers; it calls the runner with the plan of that version, or, when a composed plan does not parse, fails; and
      closes the run as that came out. */
  lemma FirersRunThePlan(sys: Sys, i: nat, now: nat, parses: bool, outcome: Terminal)
    requires i < |sys.firers|
    ensures var f := sys.firers[i];
            var sys' := Next(sys, Advance(i, now, parses, outcome));
            match f.phase
            case Loaded(row, run) =>
              if run in sys.runs then MovedOn(sys, i, sys', Answered(Replayed), sys.runs, sys.calls)
              else MovedOn(sys, i, sys', Opened(row, run),
                           sys.runs[run := RunRow(f.name, row.version, row.hash, f.firedBy, Running, now)], sys.calls)
            case Opened(row, run) =>
              if f.composed && !parses then MovedOn(sys, i, sys', Ran(row, run, Failed), sys.runs, sys.calls)
              else MovedOn(sys, i, sys', Ran(row, run, outcome), sys.runs, sys.calls + [RunnerCall(run, row.plan)])
            case Ran(row, run, state) =>
              run in sys.runs ==>
                MovedOn(sys, i, sys', Answered(Finished), sys.runs[run := sys.runs[run].(state := state)], sys.calls)
            case Answered(_) => sys' == sys
            case Asked => true
  {
  }
}
