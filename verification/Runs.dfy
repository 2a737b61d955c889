/** The vocabulary of safe runs, the unwinding of a halted one, and its idempotency keys. */
module Runs {
  import opened Values
  import opened References
  import opened Dsl
  import opened Executor

  // --- what holds between the start and the end of any part of a run ------------------------------

  predicate IsAction(run: Run, id: string) {
    id in run.nodes && run.nodes[id].Action?
  }

  ghost predicate ForwardKey(run: Run, key: string) {
    exists id :: IsAction(run, id) && key == IdemKey(run.runId, id)
  }

  // The context only gains steps of the program, the histories only grow, and everything new in
  // them belongs to the program: visits to its nodes, commits of its actions under their own keys.
  ghost predicate Advances(run: Run, st: St, st': St) {
    && st.ctx.Keys <= st'.ctx.Keys <= st.ctx.Keys + run.nodes.Keys
    && st.notices <= st'.notices
    && st.committed <= st'.committed
    && st.calls <= st'.calls
    && st.visits <= st'.visits
    && (forall i :: |st.committed| <= i < |st'.committed| ==> IsAction(run, st'.committed[i]))
    && (forall i :: |st.calls| <= i < |st'.calls| && st'.calls[i].CommitCall? ==> ForwardKey(run, st'.calls[i].key))
    && (forall i :: |st.visits| <= i < |st'.visits| ==>
          st'.visits[i].node in run.nodes && st.ctx.Keys <= st'.visits[i].ctx.Keys)
  }

  lemma AdvancesTransitive(run: Run, a: St, b: St, c: St)
    requires Advances(run, a, b) && Advances(run, b, c)
    ensures Advances(run, a, c)
  {
  }

  // The walk never leaves the graph and never meets the step guard; only a program that elected
  // compensation can be halted by a refusal.
  ghost predicate Regular<T>(run: Run, out: Outcome<T>) {
    && (out.Raised? ==> out.fault != UnknownNode && out.fault != TooManySteps)
    && (out.Halted? ==> run.onError == Compensate && IsAction(run, out.node))
  }

  ghost predicate Admitted(run: Run, rank: map<string, nat>) {
    && run.entry in run.nodes
    && Ranked(run.nodes, rank)
    && (forall id, t :: id in run.nodes && t in SuccessorTargets(run.nodes[id]) ==> t in run.nodes)
    && forall id :: RankAt(rank, id) < MAX_STEPS
  }

  // --- compensation ---------------------------------------------------------------------------------

  function Reversed(s: seq<string>): seq<string> {
    if s == [] then [] else [s[|s| - 1]] + Reversed(s[..|s| - 1])
  }

  function CommitKeys(calls: seq<Call>): seq<string> {
    if calls == [] then []
    else
      var last := calls[|calls| - 1];
      CommitKeys(calls[..|calls| - 1]) + if last.CommitCall? then [last.key] else []
  }

  function RollbackKeys(run: Run, ids: seq<string>): seq<string> {
    seq(|ids|, i requires 0 <= i < |ids| => IdemKey(run.runId, RollbackId(ids[i])))
  }

  lemma CommitKeysOf(calls: seq<Call>, call: Call)
    ensures CommitKeys(calls + [call]) == CommitKeys(calls) + if call.CommitCall? then [call.key] else []
  {
    assert (calls + [call])[..|calls|] == calls;
  }

  // The compensation a committed node declares, if any.
  function UndoOf(run: Run, id: string): Option<Compensation> {
    if IsAction(run, id) then run.nodes[id].undo else None
  }

  // `undone` was extended by the last k nodes of `left`, last first, with one commit call each under
  // its rollback key; if that is not all of them, the next has no undo or was refused it just now.
  ghost predicate Unwound(run: Run, st: St, left: seq<string>, undone: seq<string>, k: nat,
                          st': St, undone': seq<string>)
    requires k <= |left|
  {
    var done := Reversed(left[|left| - k..]);
    && undone' == undone + done
    && CommitKeys(st'.calls) == CommitKeys(st.calls) + RollbackKeys(run, done)
    && (k < |left| ==> Blocked(run, left[|left| - k - 1], st'))
  }

  // The last k nodes of `left` were undone, and the undoing of the next raised, its own commit call, if it
  // got that far, being the last.
  ghost predicate RaisedAt(run: Run, st: St, left: seq<string>, k: nat, st': St) {
    k < |left| &&
    (CommitKeys(st'.calls) == CommitKeys(st.calls) + RollbackKeys(run, Reversed(left[|left| - k..])) ||
     CommitKeys(st'.calls) == CommitKeys(st.calls) + RollbackKeys(run, Reversed(left[|left| - k - 1..])))
  }

  predicate Blocked(run: Run, id: string, st: St) {
    UndoOf(run, id).None? ||
    (st.calls != [] && st.calls[|st.calls| - 1].ProposeCall? &&
     st.calls[|st.calls| - 1].verb == UndoOf(run, id).value.verb)
  }

  lemma UndoOneIsRegular(run: Run, st: St, id: string)
    requires IsAction(run, id)
    ensures var (st', out) := UndoOne(run, st, id);
            Regular(run, out) && !out.Halted? && st'.committed == st.committed
  {
  }

  // The node's undo was committed, or no commit call was made.
  predicate SentUndo(run: Run, st: St, st': St, id: string) {
    CommitKeys(st'.calls) == CommitKeys(st.calls) + [IdemKey(run.runId, RollbackId(id))]
  }

  predicate SentNone(st: St, st': St) {
    CommitKeys(st'.calls) == CommitKeys(st.calls)
  }

  lemma UndoOneCalls(run: Run, st: St, id: string)
    requires IsAction(run, id)
    ensures var (st', out) := UndoOne(run, st, id);
            match out
            case Done(true) => SentUndo(run, st, st', id)
            case Done(false) => SentNone(st, st') && Blocked(run, id, st')
            case _ => SentNone(st, st') || SentUndo(run, st, st', id)
  {
    var undo := run.nodes[id].undo;
    if undo.Some? && run.language.resolve(Obj(undo.value.args), st.ctx, Null).Some? {
      ProposedUndoCalls(run, st, id, undo.value, run.language.resolve(Obj(undo.value.args), st.ctx, Null).value);
    }
  }

  lemma ProposedUndoCalls(run: Run, st: St, id: string, undo: Compensation, args: Json)
    requires IsAction(run, id) && run.nodes[id].undo == Some(undo)
    requires run.language.resolve(Obj(undo.args), st.ctx, Null) == Some(args)
    ensures var (st', out) := UndoOne(run, st, id);
            match out
            case Done(true) => SentUndo(run, st, st', id)
            case Done(false) => SentNone(st, st') && Blocked(run, id, st')
            case _ => SentNone(st, st') || SentUndo(run, st, st', id)
  {
    var asked := ProposeCall(undo.verb, args);
    var reply := run.world.propose(|st.calls|, undo.verb, args);
    CommitKeysOf(st.calls, asked);
    if !reply.Lost? && !(reply.isRefusal || reply.id == "") {
      CommitKeysOf(Called(st, asked).calls, CommitCall(reply.id, IdemKey(run.runId, RollbackId(id))));
    }
  }

  /** The unwinding undoes a run's commits strictly backwards, one commit call per undone node under
      that node's rollback key, and stops early only at a node it cannot undo, whose undo is refused, or at
      whose undo it raises. */
  lemma {:induction false} UnwindGoesBackwards(run: Run, st: St, left: seq<string>, undone: seq<string>)
    returns (k: nat)
    requires forall i :: 0 <= i < |left| ==> IsAction(run, left[i])
    ensures k <= |left|
    ensures var (st', out) := Unwind(run, st, left, undone);
            && (out.Done? ==> Unwound(run, st, left, undone, k, st', out.value))
            && (out.Raised? ==> RaisedAt(run, st, left, k, st'))
    decreases |left|
  {
    k := 0;
    if left == [] {
      StoppedAtOnce(run, st, left, undone, st);
    } else {
      var rest, id := left[..|left| - 1], left[|left| - 1];
      assert IsAction(run, id);
      UndoOneCalls(run, st, id);
      UndoOneIsRegular(run, st, id);
      var (st1, one) := UndoOne(run, st, id);
      if one == Done(false) {
        StoppedAtOnce(run, st, left, undone, st1);
      } else if one == Done(true) {
        var k1 := UnwindGoesBackwards(run, st1, rest, undone + [id]);
        k := k1 + 1;
        var (st', out) := Unwind(run, st1, rest, undone + [id]);
        if out.Done? {
          OneMoreUndone(run, st, st1, left, undone, k1, st', out.value);
        } else if out.Raised? {
          OneMoreBeforeRaising(run, st, st1, left, k1, st');
        }
      } else {
        RaisedAtOnce(run, st, left, st1);
      }
    }
  }

  lemma {:induction false} UnwindIsRegular(run: Run, st: St, left: seq<string>, undone: seq<string>)
    requires forall i :: 0 <= i < |left| ==> IsAction(run, left[i])
    ensures var (st', out) := Unwind(run, st, left, undone);
            Regular(run, out) && !out.Halted? && st'.committed == st.committed
    decreases |left|
  {
    if left != [] {
      var id := left[|left| - 1];
      assert IsAction(run, id);
      UndoOneIsRegular(run, st, id);
      UnwindIsRegular(run, UndoOne(run, st, id).0, left[..|left| - 1], undone + [id]);
    }
  }

  lemma StoppedAtOnce(run: Run, st: St, left: seq<string>, undone: seq<string>, st': St)
    requires CommitKeys(st'.calls) == CommitKeys(st.calls)
    requires left != [] ==> Blocked(run, left[|left| - 1], st')
    ensures Unwound(run, st, left, undone, 0, st', undone)
  {
    assert left[|left|..] == [];
  }

  lemma OneMoreUndone(run: Run, st: St, st2: St, left: seq<string>, undone: seq<string>, k: nat,
                      st': St, undone': seq<string>)
    requires left != [] && k <= |left| - 1
    requires CommitKeys(st2.calls) == CommitKeys(st.calls) + [IdemKey(run.runId, RollbackId(left[|left| - 1]))]
    requires Unwound(run, st2, left[..|left| - 1], undone + [left[|left| - 1]], k, st', undone')
    ensures Unwound(run, st, left, undone, k + 1, st', undone')
  {
    var rest, id := left[..|left| - 1], left[|left| - 1];
    var done, key := Reversed(rest[|rest| - k..]), IdemKey(run.runId, RollbackId(id));
    ReversedOneMore(left, k);
    KeysOfOneMore(run, left, k);
    Associates(undone, id, done);
    Associates(CommitKeys(st.calls), key, RollbackKeys(run, done));
    if k + 1 < |left| {
      assert left[|left| - (k + 1) - 1] == rest[|rest| - k - 1];
    }
  }

  lemma Associates(a: seq<string>, x: string, b: seq<string>)
    ensures a + [x] + b == a + ([x] + b)
  {
  }

  lemma RaisedAtOnce(run: Run, st: St, left: seq<string>, st': St)
    requires left != []
    requires CommitKeys(st'.calls) == CommitKeys(st.calls) ||
             CommitKeys(st'.calls) == CommitKeys(st.calls) + [IdemKey(run.runId, RollbackId(left[|left| - 1]))]
    ensures RaisedAt(run, st, left, 0, st')
  {
    var id := left[|left| - 1];
    assert left[|left|..] == [] && left[|left| - 1..] == [id];
    assert [id][..0] == [];
    assert Reversed([id]) == [id] && RollbackKeys(run, [id]) == [IdemKey(run.runId, RollbackId(id))];
  }

  lemma ReversedOneMore(left: seq<string>, k: nat)
    requires left != [] && k <= |left| - 1
    ensures var (rest, id) := (left[..|left| - 1], left[|left| - 1]);
            Reversed(left[|left| - (k + 1)..]) == [id] + Reversed(rest[|rest| - k..])
  {
    var rest, id := left[..|left| - 1], left[|left| - 1];
    assert left[|left| - (k + 1)..] == rest[|rest| - k..] + [id];
    ReversedLast(rest[|rest| - k..], id);
  }

  lemma KeysOfOneMore(run: Run, left: seq<string>, k: nat)
    requires left != [] && k <= |left| - 1
    ensures var (rest, id) := (left[..|left| - 1], left[|left| - 1]);
            RollbackKeys(run, Reversed(left[|left| - (k + 1)..])) ==
            [IdemKey(run.runId, RollbackId(id))] + RollbackKeys(run, Reversed(rest[|rest| - k..]))
  {
    ReversedOneMore(left, k);
  }

  lemma OneMoreBeforeRaising(run: Run, st: St, st2: St, left: seq<string>, k: nat, st': St)
    requires left != [] && RaisedAt(run, st2, left[..|left| - 1], k, st')
    requires CommitKeys(st2.calls) == CommitKeys(st.calls) + [IdemKey(run.runId, RollbackId(left[|left| - 1]))]
    ensures RaisedAt(run, st, left, k + 1, st')
  {
    var rest, key := left[..|left| - 1], IdemKey(run.runId, RollbackId(left[|left| - 1]));
    KeysOfOneMore(run, left, k);
    KeysOfOneMore(run, left, k + 1);
    Associates(CommitKeys(st.calls), key, RollbackKeys(run, Reversed(rest[|rest| - k..])));
    Associates(CommitKeys(st.calls), key, RollbackKeys(run, Reversed(rest[|rest| - k - 1..])));
  }

  lemma ReversedLast(s: seq<string>, last: string)
    ensures Reversed(s + [last]) == [last] + Reversed(s)
  {
    assert (s + [last])[..|s|] == s;
  }

  // --- keys -------------------------------------------------------------------------------------------

  lemma IdemKeyInjective(runId: string, a: string, b: string)
    requires IdemKey(runId, a) == IdemKey(runId, b)
    ensures a == b
  {
    assert IdemKey(runId, a)[|runId| + 1..] == a;
    assert IdemKey(runId, b)[|runId| + 1..] == b;
  }

  /** Within one run, every node has a forward key and a rollback key of its own. */
  lemma KeysAreDistinct(runId: string, a: string, b: string)
    requires IsStepId(a) && IsStepId(b)
    ensures IdemKey(runId, a) == IdemKey(runId, b) <==> a == b
    ensures IdemKey(runId, RollbackId(a)) == IdemKey(runId, RollbackId(b)) <==> a == b
    ensures IdemKey(runId, a) != IdemKey(runId, RollbackId(b))
  {
    if IdemKey(runId, a) == IdemKey(runId, b) { IdemKeyInjective(runId, a, b); }
    if IdemKey(runId, RollbackId(a)) == IdemKey(runId, RollbackId(b)) {
      IdemKeyInjective(runId, RollbackId(a), RollbackId(b));
      assert RollbackId(a)[..|a|] == a && RollbackId(b)[..|b|] == b;
    }
    if IdemKey(runId, a) == IdemKey(runId, RollbackId(b)) {
      IdemKeyInjective(runId, a, RollbackId(b));
    }
    assert a != RollbackId(b) by {
      assert a[5..][|a| - 6] == a[|a| - 1];
      assert RollbackId(b)[|b| + 8] == 'k';
    }
  }

  lemma {:induction false} ReversedSuffix(s: seq<string>, i: nat)
    requires i <= |s|
    ensures Reversed(s[i..]) <= Reversed(s)
    decreases |s|
  {
    if i < |s| {
      ReversedSuffix(s[..|s| - 1], i);
      assert s[..|s| - 1][i..] == s[i..][..|s| - i - 1];
    } else {
      assert s[i..] == [];
    }
  }
}
