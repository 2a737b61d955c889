/** The control plane's automation tables as an object, and the dispatcher and the ticker that drive it:
    each method proved to do what Registry, Dispatch and Scheduler say of its step. */
module AutomationService {
  import opened Values
  import opened Registry
  import opened Dispatch
  import opened Scheduler
  import opened Events

  class ControlStore {
    var automations: Automations
    var runs: Runs
    var order: seq<string>

    constructor ()
      ensures Contents() == Book(map[], map[], [])
    {
      automations, runs, order := map[], map[], [];
    }

    function Contents(): Book
      reads this
    {
      Book(automations, runs, order)
    }

    // The version column is scanned for its maximum.
    method GetLatest(name: Name) returns (latest: Option<Row>)
      ensures latest == Latest(RowsOf(automations, name))
    {
      var rows := RowsOf(automations, name);
      latest := None;
      for k := 0 to |rows|
        invariant latest == Latest(rows[..k])
      {
        assert rows[..k + 1][..k] == rows[..k];
        if latest.None? || latest.value.version <= rows[k].version {
          latest := Some(rows[k]);
        }
      }
      assert rows[..|rows|] == rows;
    }

    method RegisterAutomation(name: Name, d: Definition) returns (row: Row)
      modifies this`automations
      ensures automations == old(automations)[name := Register(RowsOf(old(automations), name), d)]
      ensures row.hash == d.hash && row in automations[name]
      ensures Chain(RowsOf(old(automations), name)) ==> row == automations[name][|automations[name]| - 1]
    {
      var rows := RowsOf(automations, name);
      var latest := GetLatest(name);
      LatestIsOneOf(rows);
      if Chain(rows) {
        LatestIsLast(rows);
      }
      if latest.Some? && latest.value.hash == d.hash {
        automations := automations[name := rows];
        return latest.value;
      }
      var version := 1;
      if latest.Some? {
        version := latest.value.version + 1;
        rows := Superseded(rows, latest.value.version, version);
      }
      row := Row(version, d.hash, d.composed, d.plan, d.trigger, d.state, None);
      automations := automations[name := rows + [row]];
    }

    // False when there is no such version.
    method SetAutomationState(name: Name, version: nat, state: Lifecycle) returns (found: bool)
      modifies this`automations
      ensures var rows := RowsOf(old(automations), name);
              found <==> exists i :: 0 <= i < |rows| && rows[i].version == version
      ensures automations == if name in old(automations)
                             then old(automations)[name := WithState(old(automations)[name], version, state)]
                             else old(automations)
    {
      var rows := RowsOf(automations, name);
      found := exists i :: 0 <= i < |rows| && rows[i].version == version;
      if name in automations {
        automations := automations[name := WithState(automations[name], version, state)];
      }
    }

    // Every armed version, whichever it is.
    method ActiveAutomations() returns (armed: Armed)
      ensures Scans(automations, armed)
    {
      armed := [];
      var names := automations.Keys;
      while names != {}
        invariant names <= automations.Keys
        invariant ListsArmed(automations, armed)
        invariant forall name, row ::
                    name in automations && name !in names && row in automations[name] && row.state == Active ==>
                      (name, row) in armed
        decreases |names|
      {
        var name :| name in names;
        names := names - {name};
        var here := ActiveRows(name, automations[name]);
        armed := armed + here;
      }
    }

    method NewestStart(name: Name) returns (last: Option<nat>)
      requires forall id :: id in order ==> id in runs
      ensures last == LastStart(runs, order, name)
    {
      last := None;
      for k := 0 to |order|
        invariant last == LastStart(runs, order[..k], name)
      {
        assert order[..k + 1][..k] == order[..k];
        var run := runs[order[k]];
        if run.name == name && (last.None? || last.value <= run.startedAt) {
          last := Some(run.startedAt);
        }
      }
      assert order[..|order|] == order;
    }

    // False when the id is taken: the caller must treat its fire as a replay.
    method StartRun(id: string, run: RunRow) returns (started: bool)
      modifies this`runs, this`order
      ensures started <==> id !in old(runs)
      ensures started ==> Dispatch.StartRun(old(runs), id, run) == Some(runs) && order == old(order) + [id]
      ensures !started ==> runs == old(runs) && order == old(order)
    {
      if id in runs {
        return false;
      }
      runs := runs[id := run];
      order := order + [id];
      started := true;
    }

    method FinishRun(id: string, state: Terminal) returns (known: bool)
      modifies this`runs
      ensures known <==> id in old(runs)
      ensures runs == Dispatch.FinishRun(old(runs), id, state)
    {
      known := id in runs;
      if known {
        runs := runs[id := runs[id].(state := state)];
      }
    }
  }

  lemma {:induction false} LatestIsOneOf(rows: seq<Row>)
    ensures Latest(rows).Some? ==> Latest(rows).value in rows
  {
    if rows != [] {
      LatestIsOneOf(rows[..|rows| - 1]);
    }
  }

  method ActiveRows(name: Name, rows: seq<Row>) returns (armed: Armed)
    ensures forall e :: e in armed ==> e.0 == name && e.1 in rows && e.1.state == Active
    ensures forall row :: row in rows && row.state == Active ==> (name, row) in armed
  {
    armed := [];
    for k := 0 to |rows|
      invariant forall e :: e in armed ==> e.0 == name && e.1 in rows && e.1.state == Active
      invariant forall j :: 0 <= j < k && rows[j].state == Active ==> (name, rows[j]) in armed
    {
      if rows[k].state == Active {
        armed := armed + [(name, rows[k])];
      }
    }
  }

  // One call of fire_manual on a single-plan automation; the runner's outcome, an exception included,
  // is arbitrary.
  method FireManual(store: ControlStore, name: Name, key: string, firedBy: Source, at: nat, outcome: Terminal)
    returns (answer: Answer)
    modifies store
    ensures (store.Contents(), answer) == FireAlone(old(store.Contents()), name, key, firedBy, at, outcome)
  {
    var latest := store.GetLatest(name);
    if latest.None? {
      return NoSuchAutomation;
    }
    var row := latest.value;
    if row.state != Active {
      return NotActive;
    }
    var id := RunId(name.id, row.version, key);
    var started := store.StartRun(id, RunRow(name, row.version, row.hash, firedBy, Running, at));
    if !started {
      return Replayed;
    }
    var _ := store.FinishRun(id, outcome);
    answer := Finished;
  }

  // One event against the armed automations; the answers of its fires are returned in order.
  method DispatchEvent(store: ControlStore, e: Event, clock: nat -> nat, outcomes: nat -> Terminal)
    returns (fired: seq<Answer>, ghost armed: Armed)
    modifies store
    ensures Scans(old(store.automations), armed)
    ensures store.Contents() == Deliver(old(store.Contents()), armed, e, clock, outcomes)
    ensures |fired| == if e.grant == CP_GRANT then 0 else |Wanting(armed, e)|
  {
    fired := [];
    var scan := store.ActiveAutomations();
    armed := scan;
    if e.grant == CP_GRANT {
      return;
    }
    for k := 0 to |scan|
      invariant |fired| == |Wanting(scan[..k], e)|
      invariant DeliverFrom(store.Contents(), scan, k, e, clock, outcomes) ==
                DeliverFrom(old(store.Contents()), scan, 0, e, clock, outcomes)
    {
      assert scan[..k + 1][..k] == scan[..k];
      var (name, row) := scan[k];
      if Wants(e, name, row) {
        var answer := FireManual(store, name, EventFireKey(e), ByEvent, clock(k), outcomes(k));
        fired := fired + [answer];
      }
    }
    assert scan[..|scan|] == scan;
  }

  // The listed automations that the event fires.
  function Wanting(armed: Armed, e: Event): Armed {
    if armed == [] then []
    else
      var last := armed[|armed| - 1];
      Wanting(armed[..|armed| - 1], e) + if Wants(e, last.0, last.1) then [last] else []
  }

  // One tick over the armed automations; the k-th fire reads the clock as clock(k).
  method RunDueSchedules(store: ControlStore, now: nat, clock: nat -> nat, outcomes: nat -> Terminal)
    returns (fired: seq<Answer>, ghost armed: Armed)
    requires forall id :: id in store.order ==> id in store.runs
    modifies store
    ensures Scans(old(store.automations), armed)
    ensures store.Contents() == TickFrom(old(store.Contents()), armed, 0, now, clock, outcomes)
  {
    fired := [];
    var scan := store.ActiveAutomations();
    armed := scan;
    for k := 0 to |scan|
      invariant forall id :: id in store.order ==> id in store.runs
      invariant TickFrom(store.Contents(), scan, k, now, clock, outcomes) ==
                TickFrom(old(store.Contents()), scan, 0, now, clock, outcomes)
    {
      var (name, row) := scan[k];
      var last := store.NewestStart(name);
      if Due(row.trigger, last, now) {
        var answer := FireManual(store, name, FireKey(row.trigger, now), BySchedule, clock(k), outcomes(k));
        fired := fired + [answer];
      }
    }
  }
}
