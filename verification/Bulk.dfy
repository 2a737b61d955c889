/** Bulk writes in bounded batches: stoppable between batches, honest about failures, resumable from
    checkpoints. */
module Bulk {

  type Id = string

  datatype OnError = Skip | Stop

  // What one run meets: whether the i-th batch is applied, and whether it is told to stop before it.
  datatype Conditions = Conditions(apply: (nat, seq<Id>) -> bool, stop: nat -> bool, onError: OnError)

  datatype Attempt = Attempt(batch: seq<Id>, ok: bool)

  // The batches attempted, in order, and whether the run stopped before the end.
  datatype Attempts = Attempts(made: seq<Attempt>, stopped: bool)

  function First(s: seq<Id>, n: nat): seq<Id> {
    if |s| <= n then s else s[..n]
  }

  function After(s: seq<Id>, n: nat): seq<Id> {
    if |s| <= n then [] else s[n..]
  }

  function AttemptsFrom(pending: seq<Id>, size: nat, i: nat, c: Conditions): Attempts
    requires size >= 1
    decreases |pending|
  {
    if pending == [] then Attempts([], false)
    else if c.stop(i) then Attempts([], true)
    else
      var batch := First(pending, size);
      var ok := c.apply(i, batch);
      if !ok && c.onError == Stop then Attempts([Attempt(batch, false)], true)
      else
        var rest := AttemptsFrom(After(pending, size), size, i + 1, c);
        Attempts([Attempt(batch, ok)] + rest.made, rest.stopped)
  }

  function Pending(ids: seq<Id>, done: set<Id>): (r: seq<Id>)
    ensures forall id :: id in r <==> id in ids && id !in done
  {
    if ids == [] then []
    else (if ids[0] in done then [] else [ids[0]]) + Pending(ids[1..], done)
  }

  function Flat(batches: seq<seq<Id>>): seq<Id> {
    if batches == [] then [] else batches[0] + Flat(batches[1..])
  }

  // The batches that went one way or the other, in order.
  function Batches(made: seq<Attempt>, ok: bool): seq<seq<Id>> {
    if made == [] then []
    else (if made[0].ok == ok then [made[0].batch] else []) + Batches(made[1..], ok)
  }

  function All(made: seq<Attempt>): seq<seq<Id>> {
    if made == [] then [] else [made[0].batch] + All(made[1..])
  }

  // What the caller is told, and the batches that were checkpointed. A batch size of zero is an error;
  // a negative one makes no batches at all.
  datatype Outcome = ZeroSize | Result(processed: nat, stopped: bool, failed: seq<seq<Id>>, checkpointed: seq<seq<Id>>)

  function Summary(a: Attempts): Outcome {
    Result(|Flat(Batches(a.made, true))|, a.stopped, Batches(a.made, false), Batches(a.made, true))
  }

  function Outcomes(ids: seq<Id>, done: set<Id>, size: int, c: Conditions): Outcome {
    if size == 0 then ZeroSize
    else if size < 0 then Result(0, false, [], [])
    else Summary(AttemptsFrom(Pending(ids, done), size, 0, c))
  }

  // --- the run --------------------------------------------------------------------------------------------

  // What a run has to tell when so much is behind it and these attempts are still to come.
  function Reported(processed: nat, failed: seq<seq<Id>>, checkpointed: seq<seq<Id>>, rest: Attempts): Outcome {
    Result(processed + |Flat(Batches(rest.made, true))|, rest.stopped,
           failed + Batches(rest.made, false), checkpointed + Batches(rest.made, true))
  }

  lemma OneAttemptOn(processed: nat, failed: seq<seq<Id>>, checkpointed: seq<seq<Id>>, a: Attempt, rest: Attempts)
    ensures Reported(processed, failed, checkpointed, Attempts([a] + rest.made, rest.stopped)) ==
            if a.ok then Reported(processed + |a.batch|, failed, checkpointed + [a.batch], rest)
            else Reported(processed, failed + [a.batch], checkpointed, rest)
  {
    assert ([a] + rest.made)[1..] == rest.made;
    FlatHead(a.batch, Batches(rest.made, true));
    assert failed + ([a.batch] + Batches(rest.made, false)) == failed + [a.batch] + Batches(rest.made, false);
    assert checkpointed + ([a.batch] + Batches(rest.made, true)) == checkpointed + [a.batch] + Batches(rest.made, true);
    assert [] + Batches(rest.made, false) == Batches(rest.made, false);
    assert [] + Batches(rest.made, true) == Batches(rest.made, true);
  }

  method RunBulk(ids: seq<Id>, done: set<Id>, size: int, c: Conditions) returns (r: Outcome)
    ensures r == Outcomes(ids, done, size, c)
  {
    if size == 0 {
      return ZeroSize;
    }
    if size < 0 {
      return Result(0, false, [], []);
    }
    var pending := Pending(ids, done);
    var processed: nat, failed: seq<seq<Id>>, checkpointed: seq<seq<Id>> := 0, [], [];
    var i := 0;
    while pending != []
      invariant Reported(processed, failed, checkpointed, AttemptsFrom(pending, size, i, c)) ==
                Outcomes(ids, done, size, c)
      decreases |pending|
    {
      if c.stop(i) {
        return Result(processed, true, failed, checkpointed);
      }
      var batch := First(pending, size);
      var ok := c.apply(i, batch);
      if !ok && c.onError == Stop {
        OneAttemptOn(processed, failed, checkpointed, Attempt(batch, false), Attempts([], true));
        assert [Attempt(batch, false)] + [] == [Attempt(batch, false)];
        return Result(processed, true, failed + [batch], checkpointed);
      }
      OneAttemptOn(processed, failed, checkpointed, Attempt(batch, ok),
                   AttemptsFrom(After(pending, size), size, i + 1, c));
      if ok {
        processed := processed + |batch|;
        checkpointed := checkpointed + [batch];
      } else {
        failed := failed + [batch];
      }
      pending := After(pending, size);
      i := i + 1;
    }
    r := Result(processed, false, failed, checkpointed);
  }

  lemma FlatHead(batch: seq<Id>, batches: seq<seq<Id>>)
    ensures Flat([batch] + batches) == batch + Flat(batches)
  {
    assert ([batch] + batches)[1..] == batches;
  }

  // --- what was attempted ---------------------------------------------------------------------------------

  lemma AllOneMore(a: Attempt, made: seq<Attempt>)
    ensures Flat(All([a] + made)) == a.batch + Flat(All(made))
  {
    assert ([a] + made)[1..] == made;
    FlatHead(a.batch, All(made));
  }

  /** A run stops only where it was told to or at a failure it must not skip. */
  lemma {:induction false} StopsForAReason(pending: seq<Id>, size: nat, i: nat, c: Conditions)
    requires size >= 1 && AttemptsFrom(pending, size, i, c).stopped
    ensures var made := AttemptsFrom(pending, size, i, c).made;
            c.stop(i + |made|) || (c.onError == Stop && made != [] && !made[|made| - 1].ok)
    decreases |pending|
  {
    if !c.stop(i) && (c.apply(i, First(pending, size)) || c.onError == Skip) {
      StopsForAReason(After(pending, size), size, i + 1, c);
    }
  }

  /** The ids attempted are a beginning of the pending ones, in order: all of them unless the run stopped. */
  lemma {:induction false} AttemptsAreAPrefix(pending: seq<Id>, size: nat, i: nat, c: Conditions)
    requires size >= 1
    ensures var a := AttemptsFrom(pending, size, i, c);
            Flat(All(a.made)) <= pending && (!a.stopped ==> Flat(All(a.made)) == pending)
    decreases |pending|
  {
    if pending != [] && !c.stop(i) {
      var batch, later := First(pending, size), After(pending, size);
      assert pending == batch + later;
      if !c.apply(i, batch) && c.onError == Stop {
        AllOneMore(Attempt(batch, false), []);
        assert [Attempt(batch, false)] + [] == [Attempt(batch, false)];
      } else {
        AttemptsAreAPrefix(later, size, i + 1, c);
        AllOneMore(Attempt(batch, c.apply(i, batch)), AttemptsFrom(later, size, i + 1, c).made);
      }
    }
  }

  lemma FirstAttempt(pending: seq<Id>, size: nat, i: nat, c: Conditions)
    requires size >= 1 && AttemptsFrom(pending, size, i, c).made != []
    ensures var a := AttemptsFrom(pending, size, i, c).made[0];
            1 <= |a.batch| <= size && a.ok == c.apply(i, a.batch)
  {
  }

  lemma LaterAttempts(pending: seq<Id>, size: nat, i: nat, c: Conditions, k: nat)
    requires size >= 1 && 0 < k < |AttemptsFrom(pending, size, i, c).made|
    ensures pending != []
    ensures AttemptsFrom(pending, size, i, c).made[1..] == AttemptsFrom(After(pending, size), size, i + 1, c).made
  {
  }

  predicate Honest(made: seq<Attempt>, size: nat, i: nat, c: Conditions, k: nat)
    requires k < |made|
  {
    1 <= |made[k].batch| <= size && made[k].ok == c.apply(i + k, made[k].batch)
  }

  lemma HonestLater(made: seq<Attempt>, rest: seq<Attempt>, size: nat, i: nat, c: Conditions, k: nat)
    requires 0 < k < |made| && made[1..] == rest && Honest(rest, size, i + 1, c, k - 1)
    ensures Honest(made, size, i, c, k)
  {
    assert made[k] == rest[k - 1];
  }

  /** Each attempt is of between one and `size` ids, and went as applying that batch went. */
  lemma {:induction false} AttemptsAreHonest(pending: seq<Id>, size: nat, i: nat, c: Conditions, k: nat)
    requires size >= 1 && k < |AttemptsFrom(pending, size, i, c).made|
    ensures Honest(AttemptsFrom(pending, size, i, c).made, size, i, c, k)
    decreases |pending|
  {
    if k == 0 {
      FirstAttempt(pending, size, i, c);
    } else {
      LaterAttempts(pending, size, i, c, k);
      AttemptsAreHonest(After(pending, size), size, i + 1, c, k - 1);
      HonestLater(AttemptsFrom(pending, size, i, c).made, AttemptsFrom(After(pending, size), size, i + 1, c).made,
                  size, i, c, k);
    }
  }

  lemma BatchesOneMore(a: Attempt, made: seq<Attempt>, ok: bool)
    ensures Flat(Batches([a] + made, ok)) == (if a.ok == ok then a.batch else []) + Flat(Batches(made, ok))
  {
    assert ([a] + made)[1..] == made;
    FlatHead(a.batch, Batches(made, ok));
    assert [] + Batches(made, ok) == Batches(made, ok);
  }

  /** What was processed and what failed are between them exactly what was attempted. */
  lemma {:induction false} ProcessedAndFailed(made: seq<Attempt>)
    ensures multiset(Flat(All(made))) == multiset(Flat(Batches(made, true))) + multiset(Flat(Batches(made, false)))
  {
    if made != [] {
      var a, rest := made[0], made[1..];
      ProcessedAndFailed(rest);
      assert made == [a] + rest;
      AllOneMore(a, rest);
      BatchesOneMore(a, rest, true);
      BatchesOneMore(a, rest, false);
    }
  }

  // --- resuming -------------------------------------------------------------------------------------------

  predicate NoRepeats(s: seq<Id>) {
    forall x :: x in s ==> multiset(s)[x] == 1
  }

  lemma {:induction false} PendingHasNoRepeats(ids: seq<Id>, done: set<Id>)
    requires NoRepeats(ids)
    ensures NoRepeats(Pending(ids, done))
  {
    if ids != [] {
      assert ids == [ids[0]] + ids[1..];
      forall x | x in ids[1..] ensures multiset(ids[1..])[x] == 1 {
        assert x in ids && multiset(ids)[x] == multiset([ids[0]])[x] + multiset(ids[1..])[x];
      }
      PendingHasNoRepeats(ids[1..], done);
      if ids[0] !in done {
        assert multiset(ids)[ids[0]] == 1;
        assert ids[0] !in ids[1..];
        assert multiset(Pending(ids, done)) == multiset{ids[0]} + multiset(Pending(ids[1..], done));
      }
    }
  }

  lemma PartHasNoRepeats(whole: seq<Id>, part: seq<Id>, rest: multiset<Id>)
    requires NoRepeats(whole) && multiset(whole) == multiset(part) + rest
    ensures NoRepeats(part) && forall x :: x in part ==> x in whole
  {
    forall x | x in part ensures x in whole && multiset(part)[x] == 1 {
      assert x in multiset(part) && x in multiset(whole);
    }
  }

  // The ids applied by one run.
  function Applied(ids: seq<Id>, done: set<Id>, size: nat, c: Conditions): seq<Id>
    requires size >= 1
  {
    Flat(Batches(AttemptsFrom(Pending(ids, done), size, 0, c).made, true))
  }

  lemma AppliedOnce(ids: seq<Id>, done: set<Id>, size: nat, c: Conditions)
    requires size >= 1 && NoRepeats(ids)
    ensures NoRepeats(Applied(ids, done, size, c))
    ensures forall x :: x in Applied(ids, done, size, c) ==> x in ids && x !in done
  {
    PendingHasNoRepeats(ids, done);
    PendingAppliedOnce(Pending(ids, done), size, c);
  }

  lemma PendingAppliedOnce(pending: seq<Id>, size: nat, c: Conditions)
    requires size >= 1 && NoRepeats(pending)
    ensures var applied := Flat(Batches(AttemptsFrom(pending, size, 0, c).made, true));
            NoRepeats(applied) && forall x :: x in applied ==> x in pending
  {
    AttemptsAreAPrefix(pending, size, 0, c);
    PrefixAppliedOnce(pending, AttemptsFrom(pending, size, 0, c).made);
  }

  lemma PrefixAppliedOnce(pending: seq<Id>, made: seq<Attempt>)
    requires NoRepeats(pending) && Flat(All(made)) <= pending
    ensures NoRepeats(Flat(Batches(made, true))) && forall x :: x in Flat(Batches(made, true)) ==> x in pending
  {
    var rest := TriedFirst(pending, made);
    PartHasNoRepeats(pending, Flat(Batches(made, true)), multiset(Flat(Batches(made, false))) + rest);
  }

  // What was applied, what failed and the rest are between them what was pending.
  lemma TriedFirst(pending: seq<Id>, made: seq<Attempt>) returns (rest: multiset<Id>)
    requires Flat(All(made)) <= pending
    ensures multiset(pending) == multiset(Flat(Batches(made, true))) + (multiset(Flat(Batches(made, false))) + rest)
    ensures Flat(All(made)) == pending ==> rest == multiset{}
  {
    ProcessedAndFailed(made);
    rest := Beyond(Flat(All(made)), pending);
  }

  lemma Beyond(tried: seq<Id>, pending: seq<Id>) returns (rest: multiset<Id>)
    requires tried <= pending
    ensures multiset(pending) == multiset(tried) + rest && (tried == pending ==> rest == multiset{})
  {
    assert pending == tried + pending[|tried|..];
    rest := multiset(pending[|tried|..]);
  }

  lemma NoRepeatsTogether(a: seq<Id>, b: seq<Id>)
    requires NoRepeats(a) && NoRepeats(b) && forall x :: x in b ==> x !in a
    ensures NoRepeats(a + b)
  {
    forall x | x in a + b ensures multiset(a + b)[x] == 1 {
      assert multiset(a + b)[x] == multiset(a)[x] + multiset(b)[x];
      assert x in multiset(a) <==> x in a;
      assert x in multiset(b) <==> x in b;
    }
  }

  // One run of a series, which may be over another id set in another batch size.
  datatype Job = Job(ids: seq<Id>, size: nat, conditions: Conditions)

  function IdsIn(s: seq<Id>): set<Id> {
    set x | x in s
  }

  // All ids that a series reports as checkpointed, each run resumed from the reports of those before it.
  function Series(jobs: seq<Job>): seq<Id>
    requires forall j :: 0 <= j < |jobs| ==> jobs[j].size >= 1
  {
    if jobs == [] then []
    else
      var before := Series(jobs[..|jobs| - 1]);
      var job := jobs[|jobs| - 1];
      before + Flat(Outcomes(job.ids, IdsIn(before), job.size, job.conditions).checkpointed)
  }

  /** Over any series of runs, each resumed from the checkpoints of the earlier ones, no id is applied
      successfully twice. */
  lemma {:induction false} SeriesAppliesOnce(jobs: seq<Job>)
    requires forall j :: 0 <= j < |jobs| ==> jobs[j].size >= 1 && NoRepeats(jobs[j].ids)
    ensures NoRepeats(Series(jobs))
  {
    if jobs != [] {
      var before := Series(jobs[..|jobs| - 1]);
      var job := jobs[|jobs| - 1];
      SeriesAppliesOnce(jobs[..|jobs| - 1]);
      AppliedOnce(job.ids, IdsIn(before), job.size, job.conditions);
      CheckpointsAreApplied(job.ids, IdsIn(before), job.size, job.conditions);
      NoRepeatsTogether(before, Applied(job.ids, IdsIn(before), job.size, job.conditions));
    }
  }

  // --- the report -----------------------------------------------------------------------------------------

  /** What is reported as checkpointed is what was applied, as many ids as are reported processed. */
  lemma CheckpointsAreApplied(ids: seq<Id>, done: set<Id>, size: nat, c: Conditions)
    requires size >= 1
    ensures var r := Outcomes(ids, done, size, c);
            r.Result? && Flat(r.checkpointed) == Applied(ids, done, size, c) && r.processed == |Flat(r.checkpointed)|
  {
  }

  // One of the batches the run was given to apply, that went this way.
  ghost predicate Tried(c: Conditions, batch: seq<Id>, ok: bool) {
    exists i :: 0 <= i && c.apply(i, batch) == ok
  }

  lemma {:induction false} BatchesWereTried(pending: seq<Id>, size: nat, i: nat, c: Conditions, ok: bool, b: seq<Id>)
    requires size >= 1 && b in Batches(AttemptsFrom(pending, size, i, c).made, ok)
    ensures Tried(c, b, ok) && 1 <= |b| <= size
    decreases |pending|
  {
    var a := AttemptsFrom(pending, size, i, c);
    var batch := First(pending, size);
    var went := c.apply(i, batch);
    if !went && c.onError == Stop {
      assert Batches(a.made, ok) == (if ok then [] else [batch]) + Batches([], ok);
    } else {
      var rest := AttemptsFrom(After(pending, size), size, i + 1, c);
      assert a.made[1..] == rest.made;
      if b in Batches(rest.made, ok) {
        BatchesWereTried(After(pending, size), size, i + 1, c, ok, b);
      }
    }
  }

  // The ids a report tells of.
  function ToldOf(r: Outcome): multiset<Id>
    requires r.Result?
  {
    multiset(Flat(r.checkpointed)) + multiset(Flat(r.failed))
  }

  lemma AttemptsAreTold(pending: seq<Id>, a: Attempts)
    requires Flat(All(a.made)) <= pending && (!a.stopped ==> Flat(All(a.made)) == pending)
    ensures ToldOf(Summary(a)) <= multiset(pending) && (!a.stopped ==> ToldOf(Summary(a)) == multiset(pending))
  {
    var rest := TriedFirst(pending, a.made);
  }

  // The report of a run that stopped gives a reason.
  predicate GivesReason(r: Outcome, c: Conditions)
    requires r.Result?
  {
    c.stop(|r.checkpointed| + |r.failed|) || (c.onError == Stop && r.failed != [])
  }

  lemma StopsAreTold(a: Attempts, c: Conditions)
    requires c.stop(|a.made|) || (c.onError == Stop && a.made != [] && !a.made[|a.made| - 1].ok)
    ensures GivesReason(Summary(a), c)
  {
    BatchesCount(a.made);
    if a.made != [] { LastIsListed(a.made); }
  }

  lemma SummaryIsTrue(pending: seq<Id>, size: nat, c: Conditions)
    requires size >= 1
    ensures var a := AttemptsFrom(pending, size, 0, c);
            && ToldOf(Summary(a)) <= multiset(pending) && (!a.stopped ==> ToldOf(Summary(a)) == multiset(pending))
            && (a.stopped ==> GivesReason(Summary(a), c))
  {
    var a := AttemptsFrom(pending, size, 0, c);
    AttemptsAreAPrefix(pending, size, 0, c);
    AttemptsAreTold(pending, a);
    if a.stopped {
      StopsForAReason(pending, size, 0, c);
      StopsAreTold(a, c);
    }
  }

  /** A report tells of pending ids only, each as often as it is pending at most. It says that the run was not
      stopped only if that is all of them; and that it was, only if it was told to, or a batch failed that must
      not be skipped. */
  lemma ReportsAreTrue(ids: seq<Id>, done: set<Id>, size: nat, c: Conditions)
    requires size >= 1
    ensures var r := Outcomes(ids, done, size, c);
            && ToldOf(r) <= multiset(Pending(ids, done))
            && (!r.stopped ==> ToldOf(r) == multiset(Pending(ids, done)))
            && (r.stopped ==> GivesReason(r, c))
  {
    SummaryIsTrue(Pending(ids, done), size, c);
  }

  /** It lists as checkpointed batches that were applied, and as failed batches that were not. */
  lemma ReportedBatchesWereTried(ids: seq<Id>, done: set<Id>, size: nat, c: Conditions, b: seq<Id>)
    requires size >= 1
    ensures b in Outcomes(ids, done, size, c).checkpointed ==> Tried(c, b, true) && 1 <= |b| <= size
    ensures b in Outcomes(ids, done, size, c).failed ==> Tried(c, b, false) && 1 <= |b| <= size
  {
    var pending := Pending(ids, done);
    if b in Outcomes(ids, done, size, c).checkpointed { BatchesWereTried(pending, size, 0, c, true, b); }
    if b in Outcomes(ids, done, size, c).failed { BatchesWereTried(pending, size, 0, c, false, b); }
  }

  lemma {:induction false} BatchesCount(made: seq<Attempt>)
    ensures |Batches(made, true)| + |Batches(made, false)| == |made|
  {
    if made != [] { BatchesCount(made[1..]); }
  }

  lemma {:induction false} LastIsListed(made: seq<Attempt>)
    requires made != []
    ensures made[|made| - 1].batch in Batches(made, made[|made| - 1].ok)
  {
    if |made| > 1 {
      LastIsListed(made[1..]);
      assert made[1..][|made| - 2] == made[|made| - 1];
    }
  }

  // The k-th attempt of a run whose first is its i-th was one it was to make.
  predicate Obeyed(a: Attempts, size: nat, i: nat, c: Conditions, k: nat)
    requires k < |a.made|
  {
    && !c.stop(i + k)
    && (c.onError == Stop && !a.made[k].ok ==> k == |a.made| - 1 && a.stopped)
    && (k < |a.made| - 1 ==> |a.made[k].batch| == size)
  }

  lemma ObeyedLater(a: Attempts, rest: Attempts, size: nat, i: nat, c: Conditions, k: nat)
    requires 0 < k < |a.made| && a.made[1..] == rest.made && a.stopped == rest.stopped
    requires Obeyed(rest, size, i + 1, c, k - 1)
    ensures Obeyed(a, size, i, c, k)
  {
    assert a.made[k] == rest.made[k - 1];
  }

  /** A run obeys: it attempts no batch where it is told to stop, nor any after one that failed and must not be
      skipped; and each batch but the last is as large as it may be. */
  lemma {:induction false} RunsObey(pending: seq<Id>, size: nat, i: nat, c: Conditions, k: nat)
    requires size >= 1 && k < |AttemptsFrom(pending, size, i, c).made|
    ensures Obeyed(AttemptsFrom(pending, size, i, c), size, i, c, k)
    decreases |pending|
  {
    if k > 0 {
      LaterAttempts(pending, size, i, c, k);
      LastStops(pending, size, i, c);
      RunsObey(After(pending, size), size, i + 1, c, k - 1);
      ObeyedLater(AttemptsFrom(pending, size, i, c), AttemptsFrom(After(pending, size), size, i + 1, c), size, i, c, k);
    } else {
      FirstObeys(pending, size, i, c);
    }
  }

  lemma LastStops(pending: seq<Id>, size: nat, i: nat, c: Conditions)
    requires size >= 1 && |AttemptsFrom(pending, size, i, c).made| > 1
    ensures AttemptsFrom(pending, size, i, c).stopped == AttemptsFrom(After(pending, size), size, i + 1, c).stopped
  {
  }

  lemma FirstObeys(pending: seq<Id>, size: nat, i: nat, c: Conditions)
    requires size >= 1 && AttemptsFrom(pending, size, i, c).made != []
    ensures var a := AttemptsFrom(pending, size, i, c);
            && !c.stop(i) && (c.onError == Stop && !a.made[0].ok ==> |a.made| == 1 && a.stopped)
            && (|a.made| > 1 ==> |a.made[0].batch| == size)
  {
    var a := AttemptsFrom(pending, size, i, c);
    var batch := First(pending, size);
    if c.apply(i, batch) || c.onError == Skip {
      assert a.made == [Attempt(batch, c.apply(i, batch))] + AttemptsFrom(After(pending, size), size, i + 1, c).made;
    }
  }
}
