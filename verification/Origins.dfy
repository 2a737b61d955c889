/** Where runs come from: each is the run of a firer's automation, version and key; and what follows for a
    firer that finds its run already there. */
module Origins {
  import opened Registry
  import opened Dispatch
  import opened Firings

  // The run of this firer's automation, under its key, that the store has under this id.
  ghost predicate OpenedFor(sys: Sys, id: string, f: Firer) {
    && id in sys.runs && sys.runs[id].name == f.name && sys.runs[id].firedBy == f.firedBy
    && id == RunId(f.name.id, sys.runs[id].version, f.key)
  }

  // A firer on its way holds the id of its own run; and every run was opened for some firer.
  ghost predicate Originates(sys: Sys) {
    && (forall i :: 0 <= i < |sys.firers| && sys.firers[i].Holds() ==> HoldsOwnId(sys.firers[i]))
    && forall id :: id in sys.runs ==> exists i :: 0 <= i < |sys.firers| && OpenedFor(sys, id, sys.firers[i])
  }

  predicate HoldsOwnId(f: Firer)
    requires f.Holds()
  {
    f.phase.run == RunId(f.name.id, f.phase.row.version, f.key)
  }

  // A firer is who it is for ever.
  ghost predicate SameFirers(sys: Sys, sys': Sys) {
    |sys.firers| <= |sys'.firers| && forall i :: 0 <= i < |sys.firers| ==>
      var (f, f') := (sys.firers[i], sys'.firers[i]);
      f'.name == f.name && f'.key == f.key && f'.firedBy == f.firedBy
  }

  lemma StepsKeepFirers(sys: Sys, step: Step)
    ensures SameFirers(sys, Next(sys, step))
  {
  }

  // A firer that holds a row has just read it, or holds what it held before.
  lemma HeldIsKept(sys: Sys, step: Step, i: nat)
    requires i < |Next(sys, step).firers| && Next(sys, step).firers[i].Holds()
    ensures i < |sys.firers|
    ensures var (f, f') := (sys.firers[i], Next(sys, step).firers[i]);
            && f'.name == f.name && f'.key == f.key
            && (if f.Holds() then f'.phase.run == f.phase.run && f'.phase.row == f.phase.row
                else f'.phase == Gate(sys.automations, f))
  {
    if step.Advance? && step.i == i {
      MovedOnKeeps(sys, i, step.now, step.parses, step.outcome);
    }
  }

  lemma MovedOnKeeps(sys: Sys, i: nat, now: nat, parses: bool, outcome: Terminal)
    requires i < |sys.firers| && Advanced(sys, i, now, parses, outcome).firers[i].Holds()
    ensures var (f, f') := (sys.firers[i], Advanced(sys, i, now, parses, outcome).firers[i]);
            && f'.name == f.name && f'.key == f.key
            && (if f.Holds() then f'.phase.run == f.phase.run && f'.phase.row == f.phase.row
                else f'.phase == Gate(sys.automations, f))
  {
  }

  lemma HoldersKeepIds(sys: Sys, step: Step, i: nat)
    requires Originates(sys) && i < |Next(sys, step).firers| && Next(sys, step).firers[i].Holds()
    ensures HoldsOwnId(Next(sys, step).firers[i])
  {
    HeldIsKept(sys, step, i);
    if sys.firers[i].Holds() {
      assert HoldsOwnId(sys.firers[i]);
    }
  }

  lemma RunsHaveOrigins(sys: Sys, step: Step, id: string)
    requires Inv(sys) && Originates(sys) && id in Next(sys, step).runs
    ensures var sys' := Next(sys, step); exists i :: 0 <= i < |sys'.firers| && OpenedFor(sys', id, sys'.firers[i])
  {
    var sys' := Next(sys, step);
    StepsKeepFirers(sys, step);
    if id in sys.runs {
      StepsKeepInv(sys, step);
      assert Moved(sys.runs[id], sys'.runs[id]);
      var i :| 0 <= i < |sys.firers| && OpenedFor(sys, id, sys.firers[i]);
      StillOpenedFor(sys, sys', id, sys.firers[i], sys'.firers[i]);
    } else {
      NewRunIsTheFirers(sys, step, id);
      assert HoldsOwnId(sys.firers[step.i]);
      StillOpenedFor(sys', sys', id, sys.firers[step.i], sys'.firers[step.i]);
    }
  }

  lemma StillOpenedFor(sys: Sys, sys': Sys, id: string, f: Firer, f': Firer)
    requires OpenedFor(sys, id, f) && id in sys'.runs && Moved(sys.runs[id], sys'.runs[id])
    requires f'.name == f.name && f'.key == f.key && f'.firedBy == f.firedBy
    ensures OpenedFor(sys', id, f')
  {
  }

  lemma NewRunIsTheFirers(sys: Sys, step: Step, id: string)
    requires id !in sys.runs && id in Next(sys, step).runs
    ensures step.Advance? && step.i < |sys.firers| && sys.firers[step.i].phase.Loaded?
    ensures var (f, run) := (sys.firers[step.i], Next(sys, step).runs[id]);
            id == f.phase.run && run.name == f.name && run.firedBy == f.firedBy && run.version == f.phase.row.version
  {
  }

  /** In any history, every run the store has was opened for a firer that was launched, and its id is made of
      that firer's automation id, the version the run pins, and the firer's key. */
  lemma {:induction false} RunsComeFromFirers(steps: seq<Step>)
    ensures Originates(After(steps))
  {
    if steps != [] {
      var before, step := steps[..|steps| - 1], steps[|steps| - 1];
      RunsComeFromFirers(before);
      HistoriesKeepInv(before);
      forall i | 0 <= i < |After(steps).firers| && After(steps).firers[i].Holds()
        ensures HoldsOwnId(After(steps).firers[i])
      {
        HoldersKeepIds(After(before), step, i);
      }
      forall id | id in After(steps).runs
        ensures exists i :: 0 <= i < |After(steps).firers| && OpenedFor(After(steps), id, After(steps).firers[i])
      {
        RunsHaveOrigins(After(before), step, id);
      }
    }
  }

  // --- replays across workspaces ------------------------------------------------------------------------

  // The m-th step opened the run, for this automation.
  ghost predicate OpenedAt(steps: seq<Step>, m: nat, id: string, name: Name)
    requires m < |steps|
  {
    id !in After(steps[..m]).runs && id in After(steps[..m + 1]).runs && After(steps[..m + 1]).runs[id].name == name
  }

  lemma {:induction false} RunsWereOpened(steps: seq<Step>, id: string) returns (m: nat)
    requires id in After(steps).runs
    ensures m < |steps| && OpenedAt(steps, m, id, After(steps).runs[id].name)
    decreases |steps|
  {
    var before := steps[..|steps| - 1];
    if id in After(before).runs {
      m := RunsWereOpened(before, id);
      assert steps[..m] == before[..m] && steps[..m + 1] == before[..m + 1] && steps[..|steps| - 1] == before;
      HistoriesGoForward(steps, |steps| - 1);
    } else {
      m := |steps| - 1;
      assert steps[..m] == before && steps[..m + 1] == steps;
    }
  }

  lemma OnlyOneOpened(steps: seq<Step>, m: nat, id: string, name: Name)
    requires m < |steps| && OpenedAt(steps, m, id, name)
    ensures id in After(steps).runs && After(steps).runs[id].name == name
  {
    HistoriesGoForward(steps, m + 1);
  }

  // Some automation of another workspace opened the run first.
  ghost predicate ForestalledElsewhere(steps: seq<Step>, id: string, name: Name) {
    exists m, other: Name :: 0 <= m < |steps| && OpenedAt(steps, m, id, other) && other.workspace != name.workspace
  }

  /** In any history, a firer about to open a run that is there already is answered as a replay of a run of an
      automation with its own id and of the very version it read; and that is a run of its own automation
      exactly when no other workspace's automation opened that id first. */
  lemma ReplaysAreOwnRunsExactly(steps: seq<Step>, i: nat, now: nat, parses: bool, outcome: Terminal)
    requires i < |After(steps).firers| && After(steps).firers[i].phase.Loaded?
    requires After(steps).firers[i].phase.run in After(steps).runs
    requires forall f :: f in After(steps).firers ==> NoColon(f.name.id)
    ensures var (sys, f) := (After(steps), After(steps).firers[i]);
            var owner := sys.runs[f.phase.run];
            && Next(sys, Advance(i, now, parses, outcome)).firers[i].phase == Answered(Replayed)
            && owner.name.id == f.name.id && owner.version == f.phase.row.version
            && (owner.name == f.name <==> !ForestalledElsewhere(steps, f.phase.run, f.name))
  {
    var sys, f := After(steps), After(steps).firers[i];
    var id := f.phase.run;
    RunsComeFromFirers(steps);
    assert f.Holds() && HoldsOwnId(f);
    var j :| 0 <= j < |sys.firers| && OpenedFor(sys, id, sys.firers[j]);
    RunIdDetermines(f.name.id, f.phase.row.version, f.key, sys.firers[j].name.id, sys.runs[id].version,
                    sys.firers[j].key);
    var m := RunsWereOpened(steps, id);
    if ForestalledElsewhere(steps, id, f.name) {
      var n, other: Name :| 0 <= n < |steps| && OpenedAt(steps, n, id, other) && other.workspace != f.name.workspace;
      OnlyOneOpened(steps, n, id, other);
    }
  }

  // --- one key, one run -----------------------------------------------------------------------------------

  lemma {:induction false} FirersStay(steps: seq<Step>, m: nat)
    requires m <= |steps|
    ensures SameFirers(After(steps[..m]), After(steps))
    decreases |steps|
  {
    if m == |steps| {
      assert steps[..m] == steps;
    } else {
      var before := steps[..|steps| - 1];
      assert before[..m] == steps[..m];
      FirersStay(before, m);
      StepsKeepFirers(After(before), steps[|steps| - 1]);
    }
  }

  // At the m-th step this firer opened this run.
  ghost predicate OpenedBy(steps: seq<Step>, m: nat, i: nat, id: string) {
    && m < |steps| && steps[m].Advance? && steps[m].i == i
    && id !in After(steps[..m]).runs && id in After(steps[..m + 1]).runs
  }

  lemma OpenedIsOwn(steps: seq<Step>, m: nat, i: nat, id: string)
    requires OpenedBy(steps, m, i, id)
    ensures i < |After(steps).firers| && OpenedFor(After(steps), id, After(steps).firers[i])
  {
    var before, step := steps[..m], steps[m];
    assert steps[..m + 1][..m] == before && steps[..m + 1][m] == step;
    RunsComeFromFirers(before);
    NewRunIsTheFirers(After(before), step, id);
    assert HoldsOwnId(After(before).firers[i]);
    FirersStay(steps, m);
    HistoriesGoForward(steps, m + 1);
  }

  /** However the firers of one automation under one key interleave with each other and with anything else: at
      most one of them, once, opens a run of any one version, and the runner is called for it at most once. */
  lemma OneRunPerKey(steps: seq<Step>, m: nat, n: nat, i: nat, j: nat, id: string, id': string)
    requires OpenedBy(steps, m, i, id) && OpenedBy(steps, n, j, id')
    requires i < |After(steps).firers| && j < |After(steps).firers|
    requires After(steps).firers[i].name.id == After(steps).firers[j].name.id
    requires After(steps).firers[i].key == After(steps).firers[j].key
    requires id in After(steps).runs && id' in After(steps).runs
    requires After(steps).runs[id].version == After(steps).runs[id'].version
    ensures m == n && i == j && id == id' && CalledAtMostOnce(After(steps).calls, id)
  {
    OpenedIsOwn(steps, m, i, id);
    OpenedIsOwn(steps, n, j, id');
    OpenedOnce(steps, m, n, i, j, id);
    HistoriesKeepInv(steps);
  }

  lemma OpenedOnce(steps: seq<Step>, m: nat, n: nat, i: nat, j: nat, id: string)
    requires OpenedBy(steps, m, i, id) && OpenedBy(steps, n, j, id)
    ensures m == n && i == j
  {
    if m < n {
      StillThere(steps, m + 1, n, id);
    } else if n < m {
      StillThere(steps, n + 1, m, id);
    }
  }

  lemma StillThere(steps: seq<Step>, m: nat, n: nat, id: string)
    requires m <= n <= |steps| && id in After(steps[..m]).runs
    ensures id in After(steps[..n]).runs
  {
    assert steps[..n][..m] == steps[..m];
    HistoriesGoForward(steps[..n], m);
  }

  ghost predicate CalledAtMostOnce(calls: seq<RunnerCall>, id: string) {
    forall k, l :: 0 <= k < |calls| && 0 <= l < |calls| && calls[k].run == id && calls[l].run == id ==> k == l
  }
}
