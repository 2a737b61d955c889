/** Real triggers at work: when a cron expression has a tick fire, and when an event filter has a delivery fire. */
module TriggerFires {
  import opened Values
  import opened Registry
  import opened Dispatch
  import opened Scheduler
  import opened Events
  import opened Triggers
  import opened References
  import opened GuardEval
  import opened GuardTruths

  // An automation armed with the expression written from these fields.
  ghost predicate CronArmed(row: Row, fields: seq<seq<Item>>, calendar: nat -> Moment) {
    && |fields| == 5 && (forall i :: 0 <= i < 5 ==> fields[i] != [])
    && row.trigger == CronTrigger(PrintFields(fields), calendar)
  }

  /** A tick fires an automation armed with a cron expression exactly when each field of the expression names
      its part of the minute and no run of the automation started in that minute or after; it then opens the
      run of the automation's latest version for that minute, and otherwise nothing. */
  lemma CronFiresInItsMinutes(book: Book, name: Name, row: Row, fields: seq<seq<Item>>, calendar: nat -> Moment,
                              now: nat, at: nat, outcome: Terminal)
    requires CronArmed(row, fields, calendar)
    ensures var last := LastStart(book.runs, book.order, name);
            var due := NamesMinute(fields, calendar(now / MINUTE)) &&
                       (last.Some? ==> last.value / MINUTE < now / MINUTE);
            var id := RunUnder(book.automations, name, FireKey(row.trigger, now));
            Visit(book, name, row, now, at, outcome).runs.Keys == book.runs.Keys + (if due then RunSet(id) else {})
  {
    CronMeansItsFields(fields, calendar(now / MINUTE));
    VisitIsExact(book, name, row, now, at, outcome);
  }

  /** A delivery fires an automation armed with an event filter exactly when the event is of its workspace, of
      the kind and verb asked for, and has the value of each field asked for; it then opens the run of the
      automation's latest version for that event, and otherwise nothing. */
  lemma FilterFiresOnItsEvents(book: Book, name: Name, row: Row, kind: string, verb: string, asked: map<string, Json>,
                               e: Event, at: nat, outcome: Terminal)
    requires row.trigger == EventTrigger(kind, verb, asked) && e.body.Obj?
    ensures var id := RunFor(book.automations, e, (name, row));
            DeliverTo(book, (name, row), e, at, outcome).runs.Keys ==
            book.runs.Keys +
            (if name.workspace == e.workspace && EventMatches(kind, verb, asked, e.body.fields) then RunSet(id) else {})
  {
    FireOpensItsRun(book, name, EventFireKey(e), ByEvent, at, outcome);
  }

  // --- schedules, by the runs on record -----------------------------------------------------------------

  // The order lists every run on record and no other.
  ghost predicate Complete(book: Book) {
    forall id :: id in book.order <==> id in book.runs
  }

  // Each run of the automation on record started early enough.
  ghost predicate AllBefore(book: Book, name: Name, early: nat -> bool) {
    forall id :: id in book.runs && book.runs[id].name == name ==> early(book.runs[id].startedAt)
  }

  lemma {:induction false} LastStartIsOne(runs: Runs, order: seq<string>, name: Name)
    requires forall id :: id in order ==> id in runs
    ensures var last := LastStart(runs, order, name);
            last.Some? ==> exists id :: id in order && runs[id].name == name && runs[id].startedAt == last.value
  {
    if order != [] {
      LastStartIsOne(runs, order[..|order| - 1], name);
      assert order[|order| - 1] in order;
    }
  }

  // What is so of the newest start is so of all, if it is of all that lie before one of which it is.
  lemma NewestDecides(book: Book, name: Name, early: nat -> bool)
    requires Complete(book) && forall s: nat, t: nat :: s <= t && early(t) ==> early(s)
    ensures var last := LastStart(book.runs, book.order, name);
            (last.Some? ==> early(last.value)) <==> AllBefore(book, name, early)
  {
    LastStartIsLast(book.runs, book.order, name);
    LastStartIsOne(book.runs, book.order, name);
    forall id | id in book.runs && book.runs[id].name == name
      ensures var last := LastStart(book.runs, book.order, name);
              last.Some? && book.runs[id].startedAt <= last.value
    {
      assert id in book.order;
    }
  }

  // What firing the latest version of an automation under the key adds to the runs.
  ghost predicate Opens(book: Book, book': Book, name: Name, key: string, firedBy: Source, at: nat, outcome: Terminal) {
    var latest := Latest(RowsOf(book.automations, name));
    if latest.None? || latest.value.state != Active then book' == book
    else
      var id := name.id + (":v" + Decimal(latest.value.version) + ":" + key);
      if id in book.runs then book' == book
      else
        && book'.runs == book.runs[id := RunRow(name, latest.value.version, latest.value.hash, firedBy, outcome, at)]
        && book'.order == book.order + [id] && book'.automations == book.automations
  }

  /** A fire that nothing comes in between of opens the run of the latest version under its key, if that is armed
      and has not run under it, and closes it with what the runner came to; and it answers which of these it was. */
  lemma FireOpens(book: Book, name: Name, key: string, firedBy: Source, at: nat, outcome: Terminal)
    ensures var (book', answer) := FireAlone(book, name, key, firedBy, at, outcome);
            && Opens(book, book', name, key, firedBy, at, outcome)
            && answer == if RowsOf(book.automations, name) == [] then NoSuchAutomation
                         else if Latest(RowsOf(book.automations, name)).value.state != Active then NotActive
                         else if book' == book then Replayed else Finished
  {
    var latest := Latest(RowsOf(book.automations, name));
    if latest.Some? && latest.value.state == Active {
      var row := latest.value;
      var id := RunId(name.id, row.version, key);
      assert id == name.id + (":v" + Decimal(row.version) + ":" + key);
      OpenedThenFinished(book.runs, id, RunRow(name, row.version, row.hash, firedBy, Running, at), outcome);
      if id !in book.runs {
        assert |book.order + [id]| != |book.order|;
      }
    }
  }

  /** A tick starts an automation armed with an interval exactly when it has never run, or when every run of it on
      record started at least the interval ago; it then opens the run of the latest version for this second, with
      the outcome it comes to, and otherwise it does nothing. */
  lemma IntervalFiresWhenRested(book: Book, name: Name, row: Row, seconds: nat, now: nat, at: nat, outcome: Terminal)
    requires row.trigger == Interval(seconds) && Complete(book)
    ensures var book' := Visit(book, name, row, now, at, outcome);
            if forall id :: id in book.runs && book.runs[id].name == name ==>
                 book.runs[id].startedAt + seconds * 1_000_000 <= now
            then Opens(book, book', name, "schedule:" + Decimal(now / 1_000_000), BySchedule, at, outcome)
            else book' == book
  {
    var early := (t: nat) => t + seconds * SECOND <= now;
    NewestDecides(book, name, early);
    FireOpens(book, name, "schedule:" + Decimal(now / 1_000_000), BySchedule, at, outcome);
  }

  /** And one armed with a cron expression exactly when its fields name this minute and no run of it on record started
      in this minute or after. */
  lemma CronFiresOncePerMinute(book: Book, name: Name, row: Row, fields: seq<seq<Item>>, calendar: nat -> Moment,
                               now: nat, at: nat, outcome: Terminal)
    requires CronArmed(row, fields, calendar) && Complete(book)
    ensures var book' := Visit(book, name, row, now, at, outcome);
            if NamesMinute(fields, calendar(now / 60_000_000)) &&
               forall id :: id in book.runs && book.runs[id].name == name ==>
                 book.runs[id].startedAt / 60_000_000 < now / 60_000_000
            then Opens(book, book', name, "schedule:" + Decimal(now / 60_000_000 * 60), BySchedule, at, outcome)
            else book' == book
  {
    var early := (t: nat) => t / MINUTE < now / MINUTE;
    NewestDecides(book, name, early);
    CronMeansItsFields(fields, calendar(now / MINUTE));
    FireOpens(book, name, "schedule:" + Decimal(now / MINUTE * 60), BySchedule, at, outcome);
  }

  /** A tick does nothing for an automation that is fired by hand or by events. */
  lemma OthersDoNotTick(book: Book, name: Name, row: Row, now: nat, at: nat, outcome: Terminal)
    requires row.trigger.Manual? || row.trigger.OnEvent?
    ensures Visit(book, name, row, now, at, outcome) == book
  {
  }

  // --- event filters ------------------------------------------------------------------------------------

  // The object has the field with this value, numbers being compared as numbers.
  predicate Has(fields: map<string, Json>, k: string, v: Json) {
    k in fields && Normal(fields[k]) == Normal(v)
  }

  predicate IsText(fields: map<string, Json>, k: string, text: string) {
    k in fields && fields[k] == Str(text)
  }

  predicate HasArgs(body: map<string, Json>) { "args" in body && body["args"].Obj? }

  // The event has the field asked for, among its arguments or itself; a null is also had where the field is not given.
  predicate Offers(body: map<string, Json>, k: string, v: Json) {
    || Has(body, k, v) || (HasArgs(body) && Has(body["args"].fields, k, v))
    || (v == Null && (k !in body || !HasArgs(body) || k !in body["args"].fields))
  }

  /** A filter asks for an event exactly when its kind and verb are those of the event and each field it asks for
      has the value, among the arguments or in the event itself; a field given in neither is had only by a filter
      for null. */
  lemma FiltersFindTheirFields(kind: string, verb: string, asked: map<string, Json>, body: map<string, Json>)
    ensures EventMatches(kind, verb, asked, body) <==>
            IsText(body, "event", kind) && IsText(body, "verb", verb) &&
            forall k :: k in asked ==> Offers(body, k, asked[k])
  {
    forall k | k in asked
      ensures PyEq(Member(ArgsOf(body), k), asked[k]) || PyEq(Member(body, k), asked[k]) <==> Offers(body, k, asked[k])
    {
      EqualWhenNormalsAre(Member(ArgsOf(body), k), asked[k]);
      EqualWhenNormalsAre(Member(body, k), asked[k]);
    }
  }

  /** A delivery fires an automation armed with an event filter exactly on such events of its workspace; it then
      opens the run of the latest version under the event's id, and otherwise does nothing. */
  lemma FilterOpensItsRun(book: Book, name: Name, row: Row, kind: string, verb: string, asked: map<string, Json>,
                          e: Event, at: nat, outcome: Terminal)
    requires row.trigger == EventTrigger(kind, verb, asked)
    ensures var book' := DeliverTo(book, (name, row), e, at, outcome);
            if name.workspace == e.workspace && e.body.Obj? &&
               IsText(e.body.fields, "event", kind) && IsText(e.body.fields, "verb", verb) &&
               forall k :: k in asked ==> Offers(e.body.fields, k, asked[k])
            then Opens(book, book', name, "event:" + (if e.id == "" then "noid" else e.id), ByEvent, at, outcome)
            else book' == book
  {
    if e.body.Obj? {
      FiltersFindTheirFields(kind, verb, asked, e.body.fields);
    }
    FireOpens(book, name, EventFireKey(e), ByEvent, at, outcome);
  }
}
