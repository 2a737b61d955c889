/** The clock's side of the registry: which schedules are due at a tick, and how far apart their runs
    start over any sequence of ticks, fires and edits. */
module Scheduler {
  import opened Values
  import opened Registry
  import opened References
  import opened Graph
  import opened Dispatch
  import opened Firings
  import opened Origins

  // Times are counted in microseconds.
  const SECOND := 1_000_000
  const MINUTE := 60 * SECOND

  predicate Due(trigger: Trigger, last: Option<nat>, now: nat) {
    match trigger
    case Cron(matches) => matches(now / MINUTE) && (last.Some? ==> last.value / MINUTE < now / MINUTE)
    case Interval(seconds) => last.Some? ==> now - last.value >= seconds * SECOND
    case Manual => false
    case OnEvent(_) => false
  }

  // The time of the fire, cut to the minute for cron and to the second otherwise.
  function FireKey(trigger: Trigger, now: nat): string {
    "schedule:" + Decimal(if trigger.Cron? then now / MINUTE * 60 else now / SECOND)
  }

  // The registry's two tables; `order` lists the run ids as they were inserted.
  datatype Book = Book(automations: Automations, runs: Runs, order: seq<string>)

  // When the newest run of the automation started.
  function LastStart(runs: Runs, order: seq<string>, name: Name): Option<nat> {
    if order == [] then None
    else
      var rest := LastStart(runs, order[..|order| - 1], name);
      var id := order[|order| - 1];
      if id !in runs || runs[id].name != name then rest
      else if rest.Some? && rest.value > runs[id].startedAt then rest
      else Some(runs[id].startedAt)
  }

  // One call of fire_manual that nothing else comes in between of.
  function FireAlone(book: Book, name: Name, key: string, firedBy: Source, at: nat, outcome: Terminal): (Book, Answer) {
    match Latest(RowsOf(book.automations, name))
    case None => (book, NoSuchAutomation)
    case Some(row) =>
      if row.state != Active then (book, NotActive)
      else
        var id := RunId(name.id, row.version, key);
        if id in book.runs then (book, Replayed)
        else
          var running := book.runs[id := RunRow(name, row.version, row.hash, firedBy, Running, at)];
          (book.(runs := FinishRun(running, id, outcome), order := book.order + [id]), Finished)
  }

  /** A lone fire is what one firer's steps come to in the interleaved machine. */
  lemma LoneFireIsASchedule(book: Book, calls: seq<RunnerCall>, name: Name, key: string, firedBy: Source, at: nat,
                            outcome: Terminal)
    ensures var step := Advance(0, at, true, outcome);
            var start := Next(Sys(book.automations, book.runs, [], calls), Launch(name, key, firedBy, false));
            var end := Next(Next(Next(Next(start, step), step), step), step);
            var (book', answer) := FireAlone(book, name, key, firedBy, at, outcome);
            && end.automations == book'.automations && end.runs == book'.runs
            && |end.firers| == 1 && end.firers[0].phase == Answered(answer)
  {
    var step := Advance(0, at, true, outcome);
    var start := Next(Sys(book.automations, book.runs, [], calls), Launch(name, key, firedBy, false));
    var one := Next(start, step);
    if one.firers[0].phase.Loaded? {
      var two := Next(one, step);
      if two.firers[0].phase.Opened? {
        var three := Next(two, step);
        assert three.firers[0].phase.Ran?;
      }
    }
  }

  // A tick's visit to one armed automation.
  function Visit(book: Book, name: Name, row: Row, now: nat, at: nat, outcome: Terminal): Book {
    if Due(row.trigger, LastStart(book.runs, book.order, name), now) then
      FireAlone(book, name, FireKey(row.trigger, now), BySchedule, at, outcome).0
    else book
  }

  type Armed = seq<(Name, Row)>

  // A tick from its k-th armed automation on; the k-th fire starts at clock(k).
  function TickFrom(book: Book, armed: Armed, k: nat, now: nat, clock: nat -> nat, outcomes: nat -> Terminal): Book
    requires k <= |armed|
    decreases |armed| - k
  {
    if k == |armed| then book
    else
      TickFrom(Visit(book, armed[k].0, armed[k].1, now, clock(k), outcomes(k)), armed, k + 1, now, clock, outcomes)
  }

  // --- spacing ------------------------------------------------------------------------------------------

  function IntervalOf(automations: Automations, run: RunRow): Option<nat> {
    var rows := RowsOf(automations, run.name);
    if 1 <= run.version <= |rows| && rows[run.version - 1].trigger.Interval?
    then Some(rows[run.version - 1].trigger.seconds) else None
  }

  // The later run, if an interval schedule fired it, waited for the interval since the earlier one.
  ghost predicate Apart(automations: Automations, a: RunRow, b: RunRow) {
    a.name == b.name && b.firedBy == BySchedule && IntervalOf(automations, b).Some? ==>
      a.startedAt + IntervalOf(automations, b).value * SECOND <= b.startedAt
  }

  ghost predicate Spaced(book: Book) {
    forall i, j :: 0 <= i < j < |book.order| && book.order[i] in book.runs && book.order[j] in book.runs ==>
      Apart(book.automations, book.runs[book.order[i]], book.runs[book.order[j]])
  }

  // The order lists each run once, all pinned, none started later than now.
  ghost predicate Listed(book: Book, now: nat) {
    && Distinct(book.order)
    && (forall id :: id in book.order <==> id in book.runs)
    && AllPinned(book.automations, book.runs)
    && (forall id :: id in book.runs ==> book.runs[id].startedAt <= now)
  }

  ghost predicate ArmedOnce(automations: Automations) {
    forall name :: name in automations ==> OnlyLatestActive(automations[name])
  }

  ghost predicate BookInv(book: Book, now: nat) {
    Chains(book.automations) && ArmedOnce(book.automations) && Listed(book, now) && Spaced(book)
  }

  lemma {:induction false} LastStartIsLast(runs: Runs, order: seq<string>, name: Name)
    requires forall id :: id in order ==> id in runs
    ensures var last := LastStart(runs, order, name);
            forall k :: 0 <= k < |order| && runs[order[k]].name == name ==>
              last.Some? && runs[order[k]].startedAt <= last.value
  {
    if order != [] {
      LastStartIsLast(runs, order[..|order| - 1], name);
    }
  }

  // The new run keeps its distance from all before it.
  ghost predicate KeepsDistance(book: Book, run: RunRow) {
    forall k :: 0 <= k < |book.order| && book.order[k] in book.runs ==>
      Apart(book.automations, book.runs[book.order[k]], run)
  }

  lemma OneMoreListed(book: Book, now: nat, id: string, run: RunRow)
    requires Listed(book, now) && id !in book.runs && run.startedAt == now && Pinned(book.automations, run)
    ensures Listed(book.(runs := book.runs[id := run], order := book.order + [id]), now)
  {
    var order := book.order + [id];
    forall x ensures x in order <==> x in book.runs[id := run] {
      assert x in book.order <==> x in book.runs;
    }
  }

  lemma OneMoreSpaced(book: Book, id: string, run: RunRow)
    requires Spaced(book) && id !in book.runs && (forall x :: x in book.order ==> x in book.runs)
    requires KeepsDistance(book, run)
    ensures Spaced(book.(runs := book.runs[id := run], order := book.order + [id]))
  {
    var book' := book.(runs := book.runs[id := run], order := book.order + [id]);
    forall i, j | 0 <= i < j < |book'.order|
      ensures Apart(book'.automations, book'.runs[book'.order[i]], book'.runs[book'.order[j]])
    {
      assert book.order[i] in book.order;
      if j < |book.order| {
        assert book.order[j] in book.order;
      }
    }
  }

  // A fire by the scheduler is of an armed automation that was due when the tick looked.
  ghost predicate WasDue(book: Book, name: Name, now: nat) {
    var latest := Latest(RowsOf(book.automations, name));
    latest.Some? && latest.value.state == Active ==>
      Due(latest.value.trigger, LastStart(book.runs, book.order, name), now)
  }

  lemma FireKeepsInv(book: Book, name: Name, key: string, firedBy: Source, now: nat, before: nat, at: nat,
                     outcome: Terminal)
    requires BookInv(book, before) && before <= at && now <= at
    requires firedBy == BySchedule ==> WasDue(book, name, now)
    ensures BookInv(FireAlone(book, name, key, firedBy, at, outcome).0, at)
    ensures FireAlone(book, name, key, firedBy, at, outcome).0.automations == book.automations
  {
    ListedEarlier(book, before, at);
    var latest := Latest(RowsOf(book.automations, name));
    if latest.Some? && latest.value.state == Active {
      var row := latest.value;
      var id := RunId(name.id, row.version, key);
      if id !in book.runs {
        OpenedThenFinished(book.runs, id, RunRow(name, row.version, row.hash, firedBy, Running, at), outcome);
        OpenedRunKeepsInv(book, name, row, id, firedBy, now, at, outcome);
      }
    }
  }

  lemma OpenedThenFinished(runs: Runs, id: string, run: RunRow, outcome: Terminal)
    ensures FinishRun(runs[id := run], id, outcome) == runs[id := run.(state := outcome)]
  {
  }

  lemma OpenedRunKeepsInv(book: Book, name: Name, row: Row, id: string, firedBy: Source, now: nat, at: nat,
                          outcome: Terminal)
    requires BookInv(book, at) && now <= at && id !in book.runs
    requires Latest(RowsOf(book.automations, name)) == Some(row) && row.state == Active
    requires firedBy == BySchedule ==> WasDue(book, name, now)
    ensures var run := RunRow(name, row.version, row.hash, firedBy, outcome, at);
            BookInv(book.(runs := book.runs[id := run], order := book.order + [id]), at)
  {
    var run := RunRow(name, row.version, row.hash, firedBy, outcome, at);
    LatestIsOnRecord(book.automations, name);
    if firedBy == BySchedule {
      DueRunsKeepDistance(book, name, row, now, run);
    }
    OneMoreListed(book, at, id, run);
    OneMoreSpaced(book, id, run);
  }

  lemma DueRunsKeepDistance(book: Book, name: Name, row: Row, now: nat, run: RunRow)
    requires (forall id :: id in book.order <==> id in book.runs) && now <= run.startedAt
    requires OnRecord(book.automations, name, row) && run.name == name && run.version == row.version
    requires Due(row.trigger, LastStart(book.runs, book.order, name), now)
    ensures KeepsDistance(book, run)
  {
    LastStartIsLast(book.runs, book.order, name);
    forall k | 0 <= k < |book.order| && book.order[k] in book.runs
      ensures Apart(book.automations, book.runs[book.order[k]], run)
    {
    }
  }

  // Each listed automation is armed.
  ghost predicate ListsArmed(automations: Automations, armed: Armed) {
    forall e :: e in armed ==> e.1 in RowsOf(automations, e.0) && e.1.state == Active
  }

  lemma ArmedIsLatest(automations: Automations, armed: Armed, k: nat)
    requires Chains(automations) && ArmedOnce(automations) && ListsArmed(automations, armed) && k < |armed|
    ensures Latest(RowsOf(automations, armed[k].0)) == Some(armed[k].1)
  {
    var name, row := armed[k].0, armed[k].1;
    assert armed[k] in armed;
    var i :| 0 <= i < |RowsOf(automations, name)| && RowsOf(automations, name)[i] == row;
    assert Chain(automations[name]) && OnlyLatestActive(automations[name]);
    LatestIsLast(RowsOf(automations, name));
  }

  // A clock that never goes back, read first by the tick and then by each fire in turn.
  ghost predicate Onward(now: nat, clock: nat -> nat) {
    now <= clock(0) && forall j, k :: j <= k ==> clock(j) <= clock(k)
  }

  lemma ListedEarlier(book: Book, now: nat, later: nat)
    requires BookInv(book, now) && now <= later
    ensures BookInv(book, later)
  {
  }

  lemma VisitKeepsInv(book: Book, armed: Armed, k: nat, now: nat, before: nat, at: nat, outcome: Terminal)
    requires BookInv(book, before) && ListsArmed(book.automations, armed) && k < |armed|
    requires now <= at && before <= at
    ensures var book' := Visit(book, armed[k].0, armed[k].1, now, at, outcome);
            BookInv(book', at) && book'.automations == book.automations
  {
    ArmedIsLatest(book.automations, armed, k);
    var name, row := armed[k].0, armed[k].1;
    if Due(row.trigger, LastStart(book.runs, book.order, name), now) {
      FireKeepsInv(book, name, FireKey(row.trigger, now), BySchedule, now, before, at, outcome);
    } else {
      ListedEarlier(book, before, at);
    }
  }

  lemma {:induction false} TickKeepsInv(book: Book, armed: Armed, k: nat, now: nat, before: nat, clock: nat -> nat,
                                        outcomes: nat -> Terminal)
    requires BookInv(book, before) && ListsArmed(book.automations, armed) && k <= |armed|
    requires Onward(now, clock) && before <= clock(k)
    ensures var book' := TickFrom(book, armed, k, now, clock, outcomes);
            BookInv(book', clock(|armed|)) && book'.automations == book.automations
    decreases |armed| - k
  {
    if k == |armed| {
      ListedEarlier(book, before, clock(k));
    } else {
      assert now <= clock(0) <= clock(k);
      VisitKeepsInv(book, armed, k, now, before, clock(k), outcomes(k));
      TickKeepsInv(Visit(book, armed[k].0, armed[k].1, now, clock(k), outcomes(k)), armed, k + 1, now, clock(k), clock,
                   outcomes);
    }
  }

  // --- histories ------------------------------------------------------------------------------------------

  datatype Happening =
    | Tick(armed: Armed, now: nat, clock: nat -> nat, outcomes: nat -> Terminal)
    | Fire(name: Name, key: string, firedBy: Source, at: nat, outcome: Terminal)
    | Edit(name: Name, definition: Definition)
    | Switch(name: Name, version: nat, state: Lifecycle)

  function Happened(book: Book, h: Happening): Book {
    match h
    case Tick(armed, now, clock, outcomes) => TickFrom(book, armed, 0, now, clock, outcomes)
    case Fire(name, key, firedBy, at, outcome) => FireAlone(book, name, key, firedBy, at, outcome).0
    case Edit(name, d) => book.(automations := book.automations[name := Register(RowsOf(book.automations, name), d)])
    case Switch(name, version, state) =>
      if name in book.automations then
        book.(automations := book.automations[name := WithState(book.automations[name], version, state)])
      else book
  }

  function TimeAfter(time: nat, h: Happening): nat {
    match h
    case Tick(armed, _, clock, _) => clock(|armed|)
    case Fire(_, _, _, at, _) => at
    case _ => time
  }

  // Ticks do not overlap and the clock does not go back; other fires are not the scheduler's; and no
  // version older than the latest is armed.
  ghost predicate Orderly(book: Book, time: nat, h: Happening) {
    match h
    case Tick(armed, now, clock, _) => time <= now && Onward(now, clock) && ListsArmed(book.automations, armed)
    case Fire(_, _, firedBy, at, _) => time <= at && firedBy != BySchedule
    case Edit(_, _) => true
    case Switch(name, version, state) => state != Active || version == 0 || version >= |RowsOf(book.automations, name)|
  }

  lemma EditsKeepInv(book: Book, time: nat, name: Name, rows: seq<Row>)
    requires BookInv(book, time)
    requires Chain(rows) && OnlyLatestActive(rows) && Preserves(RowsOf(book.automations, name), rows)
    ensures BookInv(book.(automations := book.automations[name := rows]), time)
  {
    var tables := book.automations[name := rows];
    assert KeepsRows(book.automations, tables);
    PinsStay(book.automations, tables, book.runs);
    SpacingStays(book, tables);
  }

  lemma IntervalStays(automations: Automations, automations': Automations, run: RunRow)
    requires Pinned(automations, run) && KeepsRows(automations, automations')
    ensures IntervalOf(automations', run) == IntervalOf(automations, run)
  {
    assert Preserves(RowsOf(automations, run.name), RowsOf(automations', run.name));
    assert SameVersion(RowsOf(automations, run.name)[run.version - 1], RowsOf(automations', run.name)[run.version - 1]);
  }

  lemma SpacingStays(book: Book, tables: Automations)
    requires Spaced(book) && AllPinned(book.automations, book.runs) && KeepsRows(book.automations, tables)
    ensures Spaced(book.(automations := tables))
  {
    forall i, j | 0 <= i < j < |book.order| && book.order[i] in book.runs && book.order[j] in book.runs
      ensures Apart(tables, book.runs[book.order[i]], book.runs[book.order[j]])
    {
      assert Apart(book.automations, book.runs[book.order[i]], book.runs[book.order[j]]);
      IntervalStays(book.automations, tables, book.runs[book.order[j]]);
    }
  }

  lemma HappeningsKeepInv(book: Book, time: nat, h: Happening)
    requires BookInv(book, time) && Orderly(book, time, h)
    ensures BookInv(Happened(book, h), TimeAfter(time, h))
  {
    match h
    case Tick(armed, now, clock, outcomes) => TickKeepsInv(book, armed, 0, now, time, clock, outcomes);
    case Fire(name, key, firedBy, at, outcome) => FireKeepsInv(book, name, key, firedBy, 0, time, at, outcome);
    case Edit(name, d) =>
      var rows := RowsOf(book.automations, name);
      assert Chain(rows) && OnlyLatestActive(rows);
      RegisterKeepsChain(rows, d);
      RegisterKeepsOnlyLatestActive(rows, d);
      EditsKeepInv(book, time, name, Register(rows, d));
    case Switch(name, version, state) =>
      if name in book.automations {
        var rows := book.automations[name];
        assert Chain(rows) && OnlyLatestActive(rows);
        WithStateKeepsChain(rows, version, state);
        ArmingOldVersions(rows, version, state);
        EditsKeepInv(book, time, name, WithState(rows, version, state));
      }
  }

  function BookAfter(hs: seq<Happening>): Book {
    if hs == [] then Book(map[], map[], []) else Happened(BookAfter(hs[..|hs| - 1]), hs[|hs| - 1])
  }

  function Clock(hs: seq<Happening>): nat {
    if hs == [] then 0 else TimeAfter(Clock(hs[..|hs| - 1]), hs[|hs| - 1])
  }

  ghost predicate AllOrderly(hs: seq<Happening>) {
    hs != [] ==>
      && AllOrderly(hs[..|hs| - 1])
      && Orderly(BookAfter(hs[..|hs| - 1]), Clock(hs[..|hs| - 1]), hs[|hs| - 1])
  }

  /** Over any history of ticks, fires, edits and state changes in which ticks do not overlap, the clock
      does not go back and no old version is armed: a run fired by an interval schedule starts at least
      the interval after every earlier run of its automation, whoever fired that. */
  lemma {:induction false} ScheduledRunsAreSpaced(hs: seq<Happening>)
    requires AllOrderly(hs)
    ensures BookInv(BookAfter(hs), Clock(hs))
  {
    if hs != [] {
      ScheduledRunsAreSpaced(hs[..|hs| - 1]);
      HappeningsKeepInv(BookAfter(hs[..|hs| - 1]), Clock(hs[..|hs| - 1]), hs[|hs| - 1]);
    }
  }

  /** However ticks overlap: of the firers they launch within a minute of a cron schedule, at most one opens a
      run of any one version of an automation, and the runner is called for it at most once. */
  lemma OneCronRunPerMinute(steps: seq<Step>, m: nat, n: nat, i: nat, j: nat, trigger: Trigger, now: nat, now': nat,
                            id: string, id': string)
    requires trigger.Cron? && now / MINUTE == now' / MINUTE
    requires OpenedBy(steps, m, i, id) && OpenedBy(steps, n, j, id')
    requires i < |After(steps).firers| && j < |After(steps).firers|
    requires After(steps).firers[i].name.id == After(steps).firers[j].name.id
    requires After(steps).firers[i].key == FireKey(trigger, now) && After(steps).firers[j].key == FireKey(trigger, now')
    requires id in After(steps).runs && id' in After(steps).runs
    requires After(steps).runs[id].version == After(steps).runs[id'].version
    ensures m == n && i == j && id == id' && CalledAtMostOnce(After(steps).calls, id)
  {
    OneRunPerKey(steps, m, n, i, j, id, id');
  }
}
