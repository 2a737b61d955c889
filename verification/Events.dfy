/** An event lands in the ledger: which automations it fires, and what a second delivery of it does. */
module Events {
  import opened Values
  import opened Registry
  import opened Dispatch
  import opened Firings
  import opened Origins
  import opened Scheduler

  // An envelope; a member it lacks is the empty text.
  datatype Event = Event(id: string, workspace: string, grant: string, body: Json)

  // What a control-plane-fired run's own events carry.
  const CP_GRANT := "control-plane"

  // What tells one event from another; all those without an id go by the same one.
  function Identity(e: Event): string {
    if e.id == "" then "noid" else e.id
  }

  function EventFireKey(e: Event): string {
    "event:" + Identity(e)
  }

  predicate Wants(e: Event, name: Name, row: Row) {
    name.workspace == e.workspace && row.trigger.OnEvent? && row.trigger.matchesEvent(e.body)
  }

  // One listed automation's part in a delivery.
  function DeliverTo(book: Book, entry: (Name, Row), e: Event, at: nat, outcome: Terminal): Book {
    if Wants(e, entry.0, entry.1) then FireAlone(book, entry.0, EventFireKey(e), ByEvent, at, outcome).0 else book
  }

  // A delivery from its k-th armed automation on; the k-th fire starts at clock(k).
  function DeliverFrom(book: Book, armed: Armed, k: nat, e: Event, clock: nat -> nat, outcomes: nat -> Terminal): Book
    requires k <= |armed|
    decreases |armed| - k
  {
    if k == |armed| then book
    else
      DeliverFrom(DeliverTo(book, armed[k], e, clock(k), outcomes(k)), armed, k + 1, e, clock, outcomes)
  }

  function Deliver(book: Book, armed: Armed, e: Event, clock: nat -> nat, outcomes: nat -> Terminal): Book {
    if e.grant == CP_GRANT then book else DeliverFrom(book, armed, 0, e, clock, outcomes)
  }

  // The run that firing this automation under this key goes to: one of its latest version, if that is armed.
  function RunUnder(automations: Automations, name: Name, key: string): Option<string> {
    var latest := Latest(RowsOf(automations, name));
    if latest.Some? && latest.value.state == Active then Some(RunId(name.id, latest.value.version, key)) else None
  }

  function RunFor(automations: Automations, e: Event, entry: (Name, Row)): Option<string> {
    RunUnder(automations, entry.0, EventFireKey(e))
  }

  // The run is one the event calls for among the listed automations.
  ghost predicate CalledFor(automations: Automations, e: Event, armed: Armed, id: string) {
    exists entry :: entry in armed && Wants(e, entry.0, entry.1) && RunFor(automations, e, entry) == Some(id)
  }

  function RunSet(id: Option<string>): set<string> {
    if id.Some? then {id.value} else {}
  }

  lemma FireOpensItsRun(book: Book, name: Name, key: string, firedBy: Source, at: nat, outcome: Terminal)
    ensures var (book', answer) := FireAlone(book, name, key, firedBy, at, outcome);
            var id := RunUnder(book.automations, name, key);
            && book'.automations == book.automations
            && book'.runs.Keys == book.runs.Keys + RunSet(id)
            && (forall id :: id in book.runs ==> book'.runs[id] == book.runs[id])
            && (id.None? || id.value in book.runs ==> book' == book && answer != Finished)
  {
  }

  // What is new among the runs is what was called for, and nothing old has changed.
  ghost predicate Delivered(book: Book, book': Book, e: Event, armed: Armed) {
    && book'.automations == book.automations
    && (forall id :: id in book.runs ==> id in book'.runs && book'.runs[id] == book.runs[id])
    && forall id :: id in book'.runs <==> id in book.runs || CalledFor(book.automations, e, armed, id)
  }

  lemma DeliveredToOne(book: Book, entry: (Name, Row), e: Event, at: nat, outcome: Terminal)
    ensures Delivered(book, DeliverTo(book, entry, e, at, outcome), e, [entry])
  {
    FireOpensItsRun(book, entry.0, EventFireKey(e), ByEvent, at, outcome);
    CalledForByHeadOrRest(book.automations, e, [entry]);
    assert [entry][1..] == [];
  }

  lemma DeliveredOn(book: Book, book1: Book, book2: Book, e: Event, armed: Armed)
    requires armed != [] && Delivered(book, book1, e, [armed[0]]) && Delivered(book1, book2, e, armed[1..])
    ensures Delivered(book, book2, e, armed)
  {
    CalledForByHeadOrRest(book.automations, e, armed);
    CalledForByHeadOrRest(book.automations, e, [armed[0]]);
    assert [armed[0]][1..] == [];
  }

  lemma {:induction false} DeliveryAdds(book: Book, armed: Armed, k: nat, e: Event, clock: nat -> nat,
                                        outcomes: nat -> Terminal)
    requires k <= |armed|
    ensures Delivered(book, DeliverFrom(book, armed, k, e, clock, outcomes), e, armed[k..])
    decreases |armed| - k
  {
    if k < |armed| {
      var book1 := DeliverTo(book, armed[k], e, clock(k), outcomes(k));
      DeliveredToOne(book, armed[k], e, clock(k), outcomes(k));
      DeliveryAdds(book1, armed, k + 1, e, clock, outcomes);
      assert armed[k..][1..] == armed[k + 1..];
      DeliveredOn(book, book1, DeliverFrom(book, armed, k, e, clock, outcomes), e, armed[k..]);
    }
  }

  lemma CalledForByHeadOrRest(automations: Automations, e: Event, armed: Armed)
    requires armed != []
    ensures forall id :: CalledFor(automations, e, armed, id) <==>
              (Wants(e, armed[0].0, armed[0].1) && RunFor(automations, e, armed[0]) == Some(id)) ||
              CalledFor(automations, e, armed[1..], id)
  {
    assert forall entry :: entry in armed <==> entry == armed[0] || entry in armed[1..];
  }

  /** A delivery, whatever the registry: for each listed automation of the event's workspace that asks for the
      event it opens the run of the automation's latest version, if that is armed and the run is not there
      already; it opens no other and touches no other. An event of a run that the control plane fired itself
      opens none. */
  lemma DeliveryIsExact(book: Book, armed: Armed, e: Event, clock: nat -> nat, outcomes: nat -> Terminal)
    ensures var book' := Deliver(book, armed, e, clock, outcomes);
            && (e.grant == CP_GRANT ==> book' == book)
            && (e.grant != CP_GRANT ==> Delivered(book, book', e, armed))
  {
    DeliveryAdds(book, armed, 0, e, clock, outcomes);
    assert armed[0..] == armed;
  }

  // Every run the event calls for is there.
  ghost predicate AllRan(book: Book, armed: Armed, e: Event) {
    forall id :: CalledFor(book.automations, e, armed, id) ==> id in book.runs
  }

  lemma {:induction false} NothingLeftToDeliver(book: Book, armed: Armed, k: nat, e: Event, clock: nat -> nat,
                                                outcomes: nat -> Terminal)
    requires AllRan(book, armed, e) && k <= |armed|
    ensures DeliverFrom(book, armed, k, e, clock, outcomes) == book
    decreases |armed| - k
  {
    if k < |armed| {
      var (name, row) := armed[k];
      FireOpensItsRun(book, name, EventFireKey(e), ByEvent, clock(k), outcomes(k));
      var id := RunFor(book.automations, e, armed[k]);
      if Wants(e, name, row) && id.Some? {
        assert CalledFor(book.automations, e, armed, id.value);
      }
      NothingLeftToDeliver(book, armed, k + 1, e, clock, outcomes);
    }
  }

  /** An event delivered again, against any registry and whatever came in between, changes nothing exactly
      when every run it now calls for is there already. */
  lemma RedeliveryChangesNothing(book: Book, armed: Armed, e: Event, clock: nat -> nat, outcomes: nat -> Terminal)
    requires e.grant != CP_GRANT
    ensures Deliver(book, armed, e, clock, outcomes) == book <==> AllRan(book, armed, e)
  {
    DeliveryIsExact(book, armed, e, clock, outcomes);
    if AllRan(book, armed, e) {
      NothingLeftToDeliver(book, armed, 0, e, clock, outcomes);
    }
  }

  /** So delivering it twice with nothing in between is delivering it once, in whatever order and however
      often the two scans list the automations. */
  lemma DeliveredTwiceIsOnce(book: Book, armed: Armed, again: Armed, e: Event, e': Event,
                             clock: nat -> nat, outcomes: nat -> Terminal, clock': nat -> nat,
                             outcomes': nat -> Terminal)
    requires forall entry :: entry in again <==> entry in armed
    requires e'.grant != CP_GRANT && e.grant != CP_GRANT
    requires EventFireKey(e') == EventFireKey(e) && e'.workspace == e.workspace && e'.body == e.body
    ensures var once := Deliver(book, armed, e, clock, outcomes);
            Deliver(once, again, e', clock', outcomes') == once
  {
    var once := Deliver(book, armed, e, clock, outcomes);
    DeliveryIsExact(book, armed, e, clock, outcomes);
    forall id | CalledFor(once.automations, e', again, id) ensures id in once.runs {
      assert CalledFor(book.automations, e, armed, id);
    }
    RedeliveryChangesNothing(once, again, e', clock', outcomes');
  }

  // --- which version runs -------------------------------------------------------------------------------

  // A scan of the armed versions.
  ghost predicate Scans(automations: Automations, armed: Armed) {
    && ListsArmed(automations, armed)
    && forall name, row :: name in automations && row in automations[name] && row.state == Active ==>
       (name, row) in armed
  }

  // The version that is run is the one that was listed, and asked.
  ghost predicate RunsWhatAsked(automations: Automations, entry: (Name, Row)) {
    Latest(RowsOf(automations, entry.0)) == Some(entry.1)
  }

  /** Every armed version that asks is the one that is run exactly when no version older than the latest is
      armed. */
  lemma AskersAreRun(automations: Automations, armed: Armed)
    requires Chains(automations) && Scans(automations, armed)
    ensures (forall entry :: entry in armed ==> RunsWhatAsked(automations, entry)) <==> ArmedOnce(automations)
  {
    if ArmedOnce(automations) {
      forall entry | entry in armed ensures RunsWhatAsked(automations, entry) {
        var k :| 0 <= k < |armed| && armed[k] == entry;
        ArmedIsLatest(automations, armed, k);
      }
    } else {
      var name :| name in automations && !OnlyLatestActive(automations[name]);
      var rows := automations[name];
      var i :| 0 <= i < |rows| && rows[i].state == Active && i != |rows| - 1;
      assert Chain(rows);
      LatestIsLast(rows);
      assert rows[i] in rows && (name, rows[i]) in armed;
      assert !RunsWhatAsked(automations, (name, rows[i]));
    }
  }

  /** An older version that was armed again asks in vain: what is run for it is the latest version, and that
      only if it is armed too. */
  lemma OlderVersionIsNotRun(automations: Automations, entry: (Name, Row), key: string)
    requires Chains(automations) && entry.1 in RowsOf(automations, entry.0) && !RunsWhatAsked(automations, entry)
    requires NoColon(entry.0.id)
    ensures RunUnder(automations, entry.0, key) != Some(RunId(entry.0.id, entry.1.version, key))
  {
    var rows := RowsOf(automations, entry.0);
    assert Chain(rows);
    LatestIsLast(rows);
    var latest := Latest(rows).value;
    RunIdDetermines(entry.0.id, entry.1.version, key, entry.0.id, latest.version, key);
  }

  // --- ticks --------------------------------------------------------------------------------------------

  // The run is one that some listed automation's schedule may have opened at this tick.
  ghost predicate TickedFor(automations: Automations, armed: Armed, now: nat, id: string) {
    exists entry :: entry in armed && RunUnder(automations, entry.0, FireKey(entry.1.trigger, now)) == Some(id)
  }

  /** A tick's visit opens the run of the automation's latest version under the listed version's key, if that
      version was due and the latest is armed and has not run under it; nothing else is opened or touched. */
  lemma VisitIsExact(book: Book, name: Name, row: Row, now: nat, at: nat, outcome: Terminal)
    ensures var book' := Visit(book, name, row, now, at, outcome);
            var due := Due(row.trigger, LastStart(book.runs, book.order, name), now);
            var id := RunUnder(book.automations, name, FireKey(row.trigger, now));
            && book'.automations == book.automations
            && (forall id :: id in book.runs ==> id in book'.runs && book'.runs[id] == book.runs[id])
            && book'.runs.Keys == book.runs.Keys + (if due then RunSet(id) else {})
  {
    FireOpensItsRun(book, name, FireKey(row.trigger, now), BySchedule, at, outcome);
  }

  /** Over a whole tick no run changes, and what is opened are such runs of listed automations. */
  lemma {:induction false} TickOnlyAdds(book: Book, armed: Armed, k: nat, now: nat, clock: nat -> nat,
                                        outcomes: nat -> Terminal)
    requires k <= |armed|
    ensures var book' := TickFrom(book, armed, k, now, clock, outcomes);
            && book'.automations == book.automations
            && (forall id :: id in book.runs ==> id in book'.runs && book'.runs[id] == book.runs[id])
            && forall id :: id in book'.runs && id !in book.runs ==> TickedFor(book.automations, armed, now, id)
    decreases |armed| - k
  {
    if k < |armed| {
      var entry := armed[k];
      VisitIsExact(book, entry.0, entry.1, now, clock(k), outcomes(k));
      var book1 := Visit(book, entry.0, entry.1, now, clock(k), outcomes(k));
      forall id | id in book1.runs && id !in book.runs ensures TickedFor(book.automations, armed, now, id) {
        assert entry in armed;
      }
      TickOnlyAdds(book1, armed, k + 1, now, clock, outcomes);
    }
  }

  // --- telling events apart -------------------------------------------------------------------------------

  /** Two events fire one automation separately exactly when their identities differ: of several events
      without an id only the first is ever acted on. */
  lemma EventsAreToldApart(e: Event, e': Event, name: Name, version: nat)
    requires NoColon(name.id)
    ensures RunId(name.id, version, EventFireKey(e)) == RunId(name.id, version, EventFireKey(e')) <==>
            Identity(e) == Identity(e')
  {
    RunIdDetermines(name.id, version, EventFireKey(e), name.id, version, EventFireKey(e'));
    assert EventFireKey(e)[6..] == Identity(e) && EventFireKey(e')[6..] == Identity(e');
  }

  /** However deliveries interleave with each other and with anything else: of the firers they launch for an
      event, at most one opens a run of any one version of an automation, and the runner is called for it at most
      once. */
  lemma OneRunPerEvent(steps: seq<Step>, m: nat, n: nat, i: nat, j: nat, e: Event, e': Event, id: string, id': string)
    requires OpenedBy(steps, m, i, id) && OpenedBy(steps, n, j, id')
    requires i < |After(steps).firers| && j < |After(steps).firers|
    requires After(steps).firers[i].name.id == After(steps).firers[j].name.id
    requires After(steps).firers[i].key == EventFireKey(e) && After(steps).firers[j].key == EventFireKey(e')
    requires Identity(e) == Identity(e') && id in After(steps).runs && id' in After(steps).runs
    requires After(steps).runs[id].version == After(steps).runs[id'].version
    ensures m == n && i == j && id == id' && CalledAtMostOnce(After(steps).calls, id)
  {
    OneRunPerKey(steps, m, n, i, j, id, id');
  }
}
