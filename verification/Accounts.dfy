/** Everything a run does and records is accounted for, however its branches interleave: each call by the node that
    asked for it, each output by the answer it came from. */
module Accounts {
  import opened Values
  import opened References
  import opened GuardEval
  import opened Guards
  import opened Dsl
  import opened Executor
  import opened Interleaving
  import opened Schedules
  import opened Sequential
  import opened Replacing

  // --- calls ----------------------------------------------------------------------------------------------

  // The value is what the given one resolved to in the context of some visit to the node.
  ghost predicate ResolvedThere(run: Run, st: St, id: string, given: Json, value: Json) {
    exists j, item :: VisitedWith(run, st, id, j, given, item, value)
  }

  predicate VisitedWith(run: Run, st: St, id: string, j: int, given: Json, item: Json, value: Json) {
    0 <= j < |st.visits| && st.visits[j].node == id &&
    run.language.resolve(given, st.visits[j].ctx, item) == Some(value)
  }

  // The i-th call proposes the verb of the action, with the arguments resolved.
  ghost predicate Proposed(run: Run, st: St, id: string, i: nat) {
    && id in run.nodes && run.nodes[id].Action? && i < |st.calls| && st.calls[i].ProposeCall?
    && st.calls[i].verb == run.nodes[id].verb
    && ResolvedThere(run, st, id, Obj(run.nodes[id].args), st.calls[i].args)
  }

  function AnswerTo(run: Run, st: St, i: nat): ProposeReply
    requires i < |st.calls| && st.calls[i].ProposeCall?
  {
    run.world.propose(i, st.calls[i].verb, st.calls[i].args)
  }

  // The i-th call commits, under the action's own key, the very proposal it was given.
  ghost predicate CommittedFor(run: Run, st: St, id: string, i: nat) {
    i < |st.calls| && exists p :: CommitsAnswer(run, st, id, p, i)
  }

  ghost predicate CommitsAnswer(run: Run, st: St, id: string, p: nat, i: nat) {
    && p < i < |st.calls| && Proposed(run, st, id, p)
    && AnswerTo(run, st, p).Proposal? && !AnswerTo(run, st, p).isRefusal && AnswerTo(run, st, p).id != ""
    && st.calls[i] == CommitCall(AnswerTo(run, st, p).id, run.runId + ":" + id)
  }

  ghost predicate AskedFor(run: Run, st: St, id: string, i: nat) {
    && id in run.nodes && run.nodes[id].Query? && i < |st.calls| && st.calls[i].QueryCall?
    && st.calls[i].verb == run.nodes[id].verb
    && exists args :: ResolvedThere(run, st, id, Obj(run.nodes[id].args), args) &&
                      st.calls[i].args == if Truthy(args) then args else Null
  }

  ghost predicate PolledFor(run: Run, st: St, id: string, i: nat) {
    && id in run.nodes && run.nodes[id].AwaitApproval? && i < |st.calls| && st.calls[i].StatusCall?
    && ResolvedThere(run, st, id, Str(run.nodes[id].proposal), st.calls[i].asked)
  }

  // The node that asked for the i-th call, in the way its kind asks.
  ghost predicate CalledFor(run: Run, st: St, id: string, i: nat) {
    Proposed(run, st, id, i) || CommittedFor(run, st, id, i) || AskedFor(run, st, id, i) || PolledFor(run, st, id, i)
  }

  // --- outputs ----------------------------------------------------------------------------------------------

  // What a commit's answer is recorded as.
  predicate IsStatus(output: Json, proposal: string, answer: CommitReply) {
    match answer
    case Lost => false
    case Status(p, state) => output == Obj(map["proposal" := p, "state" := state])
    case Parked(tier) => output == Obj(map["proposal" := Str(proposal), "parked" := Bool(true), "tier" := tier])
  }

  ghost predicate FromCommit(run: Run, st: St, id: string, output: Json) {
    exists i: nat :: CommittedFor(run, st, id, i) &&
      IsStatus(output, st.calls[i].proposal, run.world.commit(i, st.calls[i].proposal, st.calls[i].key))
  }

  // The action's proposal was refused with this code.
  ghost predicate RefusedWith(run: Run, st: St, id: string, code: string) {
    exists i: nat :: Proposed(run, st, id, i) && Refuses(AnswerTo(run, st, i), code)
  }

  // A refusal, or a proposal without an id, which goes for one.
  predicate Refuses(answer: ProposeReply, code: string) {
    && answer.Proposal? && (answer.isRefusal || answer.id == "")
    && code == (if answer.code.Some? then answer.code.value else "UNKNOWN")
  }

  ghost predicate FromQuery(run: Run, st: St, id: string, output: Json) {
    exists i: nat :: AskedFor(run, st, id, i) && run.world.query(i, st.calls[i].verb, st.calls[i].args) == Data(output)
  }

  // What the reported states of a proposal mean for the node that waits for it.
  predicate MeansVerdict(state: string, verdict: string) {
    || (verdict == "approved" && state in ["approved", "executed"])
    || (verdict == "rejected" && state in ["rejected", "failed_terminal", "suspended"])
    || (verdict == "timeout" && state == "expired")
  }

  ghost predicate FromStatus(run: Run, st: St, id: string, verdict: string) {
    exists i: nat :: PolledFor(run, st, id, i) && Reports(run.world.status(i, st.calls[i].asked), verdict)
  }

  predicate Reports(answer: StatusReply, verdict: string) {
    answer.State? && answer.state.Some? && MeansVerdict(answer.state.value, verdict)
  }

  ghost predicate FromGuard(run: Run, st: St, id: string, guard: seq<Tok>, b: bool) {
    exists j, item :: 0 <= j < |st.visits| && st.visits[j].node == id &&
      run.language.evaluate(guard, Env(st.visits[j].ctx, item)) == Some(b)
  }

  // How many elements of the list a loop takes.
  predicate IsCount(list: Json, maxItems: nat, n: nat) {
    if !list.Arr? then n == 0
    else n <= maxItems && n <= |list.items| && (n == maxItems || n == |list.items|)
  }

  ghost predicate FromList(run: Run, st: St, id: string, items: string, maxItems: nat, n: nat) {
    exists list :: ResolvedThere(run, st, id, Str(items), list) && IsCount(list, maxItems, n)
  }

  // What is left of the `count` elements that the loop takes, from the front of its list.
  ghost predicate Takes(run: Run, st: St, node: Node, left: seq<Json>, count: nat)
    requires node.Foreach?
  {
    exists list :: ResolvedThere(run, st, node.id, Str(node.items), list) && IsCount(list, node.maxItems, count) &&
                   IsLeft(list, left, count)
  }

  predicate IsLeft(list: Json, left: seq<Json>, count: nat) {
    |left| <= count &&
    forall i :: 0 <= i < |left| ==>
      list.Arr? && count - |left| + i < |list.items| && left[i] == list.items[count - |left| + i]
  }

  predicate AreNames(output: Json, branches: seq<string>) {
    && output.Obj? && output.fields.Keys == {"branches"} && output.fields["branches"].Arr?
    && |output.fields["branches"].items| == |branches|
    && forall i :: 0 <= i < |branches| ==> output.fields["branches"].items[i] == Str(branches[i])
  }

  // Where the recorded output of a node came from.
  ghost predicate ComesFrom(run: Run, st: St, id: string, output: Json)
    requires id in run.nodes
  {
    match run.nodes[id]
    case Action(_, _, _, _, _, _) =>
      FromCommit(run, st, id, output) ||
      (run.onError != Compensate && exists code :: RefusedWith(run, st, id, code) &&
                                                   output == Obj(map["refused" := Str(code)]))
    case Query(_, _, _, _, _) => FromQuery(run, st, id, output)
    case Condition(_, guard, _, _, _) => output.Bool? && FromGuard(run, st, id, guard, output.b)
    case AwaitApproval(_, _, _, _, _) =>
      output == Str("timeout") || (output.Str? && FromStatus(run, st, id, output.s))
    case Foreach(_, items, _, _, maxItems, _) =>
      exists n: nat :: FromList(run, st, id, items, maxItems, n) && output == Obj(map["count" := Int(n)])
    case Parallel(_, branches, _) => AreNames(output, branches)
    case Wait(_, _) => output == Null
    case Notify(_, _, _) => output == Null
  }

  // --- the account ----------------------------------------------------------------------------------------------

  ghost predicate CallsAccounted(run: Run, st: St) {
    forall i: nat :: i < |st.calls| ==> SomeNodeCalled(run, st, i)
  }

  ghost predicate SomeNodeCalled(run: Run, st: St, i: nat) {
    exists id :: CalledFor(run, st, id, i)
  }

  ghost predicate OutputsAccounted(run: Run, input: Option<Json>, st: St) {
    forall id :: id in st.ctx ==>
      (id == "input" && input == Some(st.ctx[id])) ||
      (id in run.nodes && exists output :: ComesFrom(run, st, id, output) &&
                                           st.ctx[id] == Obj(map["output" := output]))
  }

  ghost predicate CommitsAccounted(run: Run, st: St) {
    forall id :: id in st.committed ==> exists output :: FromCommit(run, st, id, output)
  }

  ghost predicate NoticesAccounted(run: Run, st: St) {
    forall n :: n in st.notices ==> exists id :: NoticeOf(run, st, id, n)
  }

  ghost predicate NoticeOf(run: Run, st: St, id: string, notice: Json) {
    id in run.nodes && run.nodes[id].Notify? && ResolvedThere(run, st, id, Obj(run.nodes[id].message), notice)
  }

  ghost predicate Accounted(run: Run, input: Option<Json>, st: St) {
    CallsAccounted(run, st) && OutputsAccounted(run, input, st) && CommitsAccounted(run, st) &&
    NoticesAccounted(run, st)
  }

  // What a task waits for was asked for by its node, and a task that a refusal stopped was refused.
  ghost predicate Awaited(run: Run, st: St, t: Task)
    decreases t
  {
    match t
    case At(_, _, _) => true
    case Stopped(why) => why.Halted? ==> RefusedWith(run, st, why.node, why.code)
    case Suspended(node, _, _, pending) => Known(run, node) && Expected(run, st, node, pending)
    case Looping(node, _, _, left, count, inner) =>
      Known(run, node) && node.Foreach? && Takes(run, st, node, left, count) && Awaited(run, st, inner)
    case Forked(node, _, _, kids) =>
      Known(run, node) && node.Parallel? && forall i :: 0 <= i < |kids| ==> Awaited(run, st, kids[i])
  }

  ghost predicate Expected(run: Run, st: St, node: Node, pending: Pending) {
    match pending
    case Proposing(reply) => exists i: nat :: Proposed(run, st, node.id, i) && reply == AnswerTo(run, st, i)
    case Committing(proposal, outcome) =>
      exists i: nat :: CommittedFor(run, st, node.id, i) && st.calls[i].proposal == proposal &&
        outcome == run.world.commit(i, proposal, st.calls[i].key)
    case Querying(data) =>
      exists i: nat :: AskedFor(run, st, node.id, i) && data == run.world.query(i, st.calls[i].verb, st.calls[i].args)
    case Polling(proposal, answer, _) =>
      && node.AwaitApproval? && ResolvedThere(run, st, node.id, Str(node.proposal), proposal)
      && exists i: nat :: PolledFor(run, st, node.id, i) && answer == run.world.status(i, st.calls[i].asked)
    case Napping(proposal, _) =>
      node.AwaitApproval? && ResolvedThere(run, st, node.id, Str(node.proposal), proposal)
    case Sleeping => node.Wait?
  }

  // --- nothing accounted for is ever undone ------------------------------------------------------------------------

  // More calls and more visits.
  predicate Onward(st: St, st': St) {
    st.calls <= st'.calls && st.visits <= st'.visits
  }

  lemma ResolvedStays(run: Run, st: St, st': St, id: string, given: Json, value: Json)
    requires Onward(st, st') && ResolvedThere(run, st, id, given, value)
    ensures ResolvedThere(run, st', id, given, value)
  {
    var j, item :| VisitedWith(run, st, id, j, given, item, value);
    assert VisitedWith(run, st', id, j, given, item, value);
  }

  lemma ProposedStays(run: Run, st: St, st': St, id: string, i: nat)
    requires Onward(st, st') && Proposed(run, st, id, i)
    ensures Proposed(run, st', id, i) && AnswerTo(run, st', i) == AnswerTo(run, st, i)
  {
    ResolvedStays(run, st, st', id, Obj(run.nodes[id].args), st.calls[i].args);
  }

  lemma CommittedStays(run: Run, st: St, st': St, id: string, i: nat)
    requires Onward(st, st') && CommittedFor(run, st, id, i)
    ensures CommittedFor(run, st', id, i) && st'.calls[i] == st.calls[i]
  {
    var p :| CommitsAnswer(run, st, id, p, i);
    ProposedStays(run, st, st', id, p);
    assert CommitsAnswer(run, st', id, p, i);
  }

  lemma AskedStays(run: Run, st: St, st': St, id: string, i: nat)
    requires Onward(st, st') && AskedFor(run, st, id, i)
    ensures AskedFor(run, st', id, i) && st'.calls[i] == st.calls[i]
  {
    var args :| ResolvedThere(run, st, id, Obj(run.nodes[id].args), args) &&
                st.calls[i].args == if Truthy(args) then args else Null;
    ResolvedStays(run, st, st', id, Obj(run.nodes[id].args), args);
  }

  lemma PolledStays(run: Run, st: St, st': St, id: string, i: nat)
    requires Onward(st, st') && PolledFor(run, st, id, i)
    ensures PolledFor(run, st', id, i) && st'.calls[i] == st.calls[i]
  {
    ResolvedStays(run, st, st', id, Str(run.nodes[id].proposal), st.calls[i].asked);
  }

  lemma CalledStays(run: Run, st: St, st': St, id: string, i: nat)
    requires Onward(st, st') && CalledFor(run, st, id, i)
    ensures CalledFor(run, st', id, i)
  {
    if Proposed(run, st, id, i) { ProposedStays(run, st, st', id, i); }
    else if CommittedFor(run, st, id, i) { CommittedStays(run, st, st', id, i); }
    else if AskedFor(run, st, id, i) { AskedStays(run, st, st', id, i); }
    else { PolledStays(run, st, st', id, i); }
  }

  lemma FromCommitStays(run: Run, st: St, st': St, id: string, output: Json)
    requires Onward(st, st') && FromCommit(run, st, id, output)
    ensures FromCommit(run, st', id, output)
  {
    var i: nat :| CommittedFor(run, st, id, i) &&
             IsStatus(output, st.calls[i].proposal, run.world.commit(i, st.calls[i].proposal, st.calls[i].key));
    CommittedStays(run, st, st', id, i);
  }

  lemma RefusedStays(run: Run, st: St, st': St, id: string, code: string)
    requires Onward(st, st') && RefusedWith(run, st, id, code)
    ensures RefusedWith(run, st', id, code)
  {
    var i: nat :| Proposed(run, st, id, i) && Refuses(AnswerTo(run, st, i), code);
    ProposedStays(run, st, st', id, i);
  }

  lemma FromQueryStays(run: Run, st: St, st': St, id: string, output: Json)
    requires Onward(st, st') && FromQuery(run, st, id, output)
    ensures FromQuery(run, st', id, output)
  {
    var i: nat :| AskedFor(run, st, id, i) && run.world.query(i, st.calls[i].verb, st.calls[i].args) == Data(output);
    AskedStays(run, st, st', id, i);
  }

  lemma FromStatusStays(run: Run, st: St, st': St, id: string, verdict: string)
    requires Onward(st, st') && FromStatus(run, st, id, verdict)
    ensures FromStatus(run, st', id, verdict)
  {
    var i: nat :| PolledFor(run, st, id, i) && Reports(run.world.status(i, st.calls[i].asked), verdict);
    PolledStays(run, st, st', id, i);
  }

  lemma FromGuardStays(run: Run, st: St, st': St, id: string, guard: seq<Tok>, b: bool)
    requires Onward(st, st') && FromGuard(run, st, id, guard, b)
    ensures FromGuard(run, st', id, guard, b)
  {
    var j, item :| 0 <= j < |st.visits| && st.visits[j].node == id &&
                   run.language.evaluate(guard, Env(st.visits[j].ctx, item)) == Some(b);
    assert st'.visits[j] == st.visits[j];
  }

  lemma FromListStays(run: Run, st: St, st': St, id: string, items: string, maxItems: nat, n: nat)
    requires Onward(st, st') && FromList(run, st, id, items, maxItems, n)
    ensures FromList(run, st', id, items, maxItems, n)
  {
    var list :| ResolvedThere(run, st, id, Str(items), list) && IsCount(list, maxItems, n);
    ResolvedStays(run, st, st', id, Str(items), list);
  }

  lemma TakesStays(run: Run, st: St, st': St, node: Node, left: seq<Json>, count: nat)
    requires Onward(st, st') && node.Foreach? && Takes(run, st, node, left, count)
    ensures Takes(run, st', node, left, count)
  {
    var list :| ResolvedThere(run, st, node.id, Str(node.items), list) && IsCount(list, node.maxItems, count) &&
                IsLeft(list, left, count);
    ResolvedStays(run, st, st', node.id, Str(node.items), list);
  }

  lemma ComesFromStays(run: Run, st: St, st': St, id: string, output: Json)
    requires Onward(st, st') && id in run.nodes && ComesFrom(run, st, id, output)
    ensures ComesFrom(run, st', id, output)
  {
    match run.nodes[id]
    case Action(_, _, _, _, _, _) =>
      if FromCommit(run, st, id, output) {
        FromCommitStays(run, st, st', id, output);
      } else {
        var code :| RefusedWith(run, st, id, code) && output == Obj(map["refused" := Str(code)]);
        RefusedStays(run, st, st', id, code);
      }
    case Query(_, _, _, _, _) => FromQueryStays(run, st, st', id, output);
    case Condition(_, guard, _, _, _) => FromGuardStays(run, st, st', id, guard, output.b);
    case AwaitApproval(_, _, _, _, _) =>
      if output != Str("timeout") { FromStatusStays(run, st, st', id, output.s); }
    case Foreach(_, items, _, _, maxItems, _) =>
      var n: nat :| FromList(run, st, id, items, maxItems, n) && output == Obj(map["count" := Int(n)]);
      FromListStays(run, st, st', id, items, maxItems, n);
    case _ =>
  }

  lemma ExpectedStays(run: Run, st: St, st': St, node: Node, pending: Pending)
    requires Onward(st, st') && Expected(run, st, node, pending)
    ensures Expected(run, st', node, pending)
  {
    match pending
    case Proposing(reply) =>
      var i: nat :| Proposed(run, st, node.id, i) && reply == AnswerTo(run, st, i);
      ProposedStays(run, st, st', node.id, i);
    case Committing(proposal, outcome) =>
      var i: nat :| CommittedFor(run, st, node.id, i) && st.calls[i].proposal == proposal &&
               outcome == run.world.commit(i, proposal, st.calls[i].key);
      CommittedStays(run, st, st', node.id, i);
    case Querying(data) =>
      var i: nat :| AskedFor(run, st, node.id, i) && data == run.world.query(i, st.calls[i].verb, st.calls[i].args);
      AskedStays(run, st, st', node.id, i);
    case Polling(proposal, answer, _) =>
      ResolvedStays(run, st, st', node.id, Str(node.proposal), proposal);
      var i: nat :| PolledFor(run, st, node.id, i) && answer == run.world.status(i, st.calls[i].asked);
      PolledStays(run, st, st', node.id, i);
    case Napping(proposal, _) => ResolvedStays(run, st, st', node.id, Str(node.proposal), proposal);
    case Sleeping =>
  }

  lemma {:induction false} AwaitedStays(run: Run, st: St, st': St, t: Task)
    requires Onward(st, st') && Awaited(run, st, t)
    ensures Awaited(run, st', t)
    decreases t
  {
    match t
    case At(_, _, _) =>
    case Stopped(why) => if why.Halted? { RefusedStays(run, st, st', why.node, why.code); }
    case Suspended(node, _, _, pending) => ExpectedStays(run, st, st', node, pending);
    case Looping(node, _, _, left, count, inner) =>
      TakesStays(run, st, st', node, left, count);
      AwaitedStays(run, st, st', inner);
    case Forked(_, _, _, kids) =>
      forall i | 0 <= i < |kids| ensures Awaited(run, st', kids[i]) {
        AwaitedStays(run, st, st', kids[i]);
      }
  }

  // --- every move keeps the account ----------------------------------------------------------------------------------

  ghost predicate Kept(run: Run, input: Option<Json>, st: St, r: (St, Task)) {
    Onward(st, r.0) && Accounted(run, input, r.0) && Awaited(run, r.0, r.1)
  }

  lemma OutputsStay(run: Run, input: Option<Json>, st: St, st': St)
    requires Onward(st, st') && st'.ctx == st.ctx && OutputsAccounted(run, input, st)
    ensures OutputsAccounted(run, input, st')
  {
    forall id | id in st'.ctx && !(id == "input" && input == Some(st'.ctx[id]))
      ensures id in run.nodes && exists output :: ComesFrom(run, st', id, output) &&
                                                  st'.ctx[id] == Obj(map["output" := output])
    {
      var output :| ComesFrom(run, st, id, output) && st.ctx[id] == Obj(map["output" := output]);
      ComesFromStays(run, st, st', id, output);
    }
  }

  lemma CommitsStay(run: Run, st: St, st': St)
    requires Onward(st, st') && st'.committed == st.committed && CommitsAccounted(run, st)
    ensures CommitsAccounted(run, st')
  {
    forall id | id in st'.committed ensures exists output :: FromCommit(run, st', id, output) {
      var output :| FromCommit(run, st, id, output);
      FromCommitStays(run, st, st', id, output);
    }
  }

  lemma NoticeOfStays(run: Run, st: St, st': St, id: string, n: Json)
    requires Onward(st, st') && NoticeOf(run, st, id, n)
    ensures NoticeOf(run, st', id, n)
  {
    ResolvedStays(run, st, st', id, Obj(run.nodes[id].message), n);
  }

  lemma NoticesStay(run: Run, st: St, st': St)
    requires Onward(st, st') && st'.notices == st.notices && NoticesAccounted(run, st)
    ensures NoticesAccounted(run, st')
  {
    forall n | n in st'.notices ensures exists id :: NoticeOf(run, st', id, n) {
      var id :| NoticeOf(run, st, id, n);
      NoticeOfStays(run, st, st', id, n);
    }
  }

  lemma CallsStay(run: Run, st: St, st': St, i: nat)
    requires Onward(st, st') && i < |st.calls| && SomeNodeCalled(run, st, i)
    ensures SomeNodeCalled(run, st', i)
  {
    var id :| CalledFor(run, st, id, i);
    CalledStays(run, st, st', id, i);
  }

  // A visit more, or a call that its node asked for.
  lemma AccountGrows(run: Run, input: Option<Json>, st: St, st': St)
    requires Accounted(run, input, st) && Onward(st, st')
    requires st'.ctx == st.ctx && st'.committed == st.committed && st'.notices == st.notices
    requires forall i: nat :: |st.calls| <= i < |st'.calls| ==> SomeNodeCalled(run, st', i)
    ensures Accounted(run, input, st')
  {
    OutputsStay(run, input, st, st');
    CommitsStay(run, st, st');
    NoticesStay(run, st, st');
    forall i: nat | i < |st'.calls| ensures SomeNodeCalled(run, st', i) {
      if i < |st.calls| { CallsStay(run, st, st', i); }
    }
  }

  lemma RecordKeeps(run: Run, input: Option<Json>, st: St, id: string, output: Json)
    requires Accounted(run, input, st) && id in run.nodes && ComesFrom(run, st, id, output)
    ensures Accounted(run, input, Recorded(st, id, output)) && Onward(st, Recorded(st, id, output))
  {
    var st' := Recorded(st, id, output);
    ComesFromStays(run, st, st', id, output);
    forall x | x in st'.ctx && !(x == "input" && input == Some(st'.ctx[x]))
      ensures x in run.nodes && exists o :: ComesFrom(run, st', x, o) && st'.ctx[x] == Obj(map["output" := o])
    {
      if x != id {
        var o :| ComesFrom(run, st, x, o) && st.ctx[x] == Obj(map["output" := o]);
        ComesFromStays(run, st, st', x, o);
      }
    }
    CommitsStay(run, st, st');
    NoticesStay(run, st, st');
    forall i: nat | i < |st'.calls| ensures SomeNodeCalled(run, st', i) {
      CallsStay(run, st, st', i);
    }
  }

  lemma FinishKeeps(run: Run, input: Option<Json>, st: St, node: Node, item: Json, steps: nat, output: Json)
    requires Accounted(run, input, st) && Known(run, node) && ComesFrom(run, st, node.id, output)
    ensures Kept(run, input, st, Finish(st, node, item, steps, output))
  {
    RecordKeeps(run, input, st, node.id, output);
  }

  // The state right after the node was entered.
  predicate JustEntered(st: St, node: Node) {
    st.visits != [] && st.visits[|st.visits| - 1] == Visit(node.id, st.ctx)
  }

  lemma ResolvedNow(run: Run, st: St, node: Node, given: Json, item: Json, value: Json)
    requires JustEntered(st, node) && run.language.resolve(given, st.ctx, item) == Some(value)
    ensures ResolvedThere(run, st, node.id, given, value)
  {
    assert VisitedWith(run, st, node.id, |st.visits| - 1, given, item, value);
  }

  lemma ProposingKeeps(run: Run, input: Option<Json>, st: St, node: Node, item: Json, steps: nat, args: Json)
    requires Accounted(run, input, st) && Known(run, node) && node.Action? && JustEntered(st, node)
    requires run.language.resolve(Obj(node.args), st.ctx, item) == Some(args)
    ensures var reply := run.world.propose(|st.calls|, node.verb, args);
            Kept(run, input, st,
                 (Called(st, ProposeCall(node.verb, args)), Suspended(node, item, steps, Proposing(reply))))
  {
    var st', i := Called(st, ProposeCall(node.verb, args)), |st.calls|;
    ResolvedNow(run, st, node, Obj(node.args), item, args);
    ResolvedStays(run, st, st', node.id, Obj(node.args), args);
    assert Proposed(run, st', node.id, i);
    assert CalledFor(run, st', node.id, i);
    AccountGrows(run, input, st, st');
  }

  lemma QueryingKeeps(run: Run, input: Option<Json>, st: St, node: Node, item: Json, steps: nat, args: Json)
    requires Accounted(run, input, st) && Known(run, node) && node.Query? && JustEntered(st, node)
    requires run.language.resolve(Obj(node.args), st.ctx, item) == Some(args)
    ensures var sent := if Truthy(args) then args else Null;
            var reply := run.world.query(|st.calls|, node.verb, sent);
            Kept(run, input, st,
                 (Called(st, QueryCall(node.verb, sent)), Suspended(node, item, steps, Querying(reply))))
  {
    var sent := if Truthy(args) then args else Null;
    var st', i := Called(st, QueryCall(node.verb, sent)), |st.calls|;
    ResolvedNow(run, st, node, Obj(node.args), item, args);
    ResolvedStays(run, st, st', node.id, Obj(node.args), args);
    assert AskedFor(run, st', node.id, i);
    assert CalledFor(run, st', node.id, i);
    AccountGrows(run, input, st, st');
  }

  lemma AskingKeeps(run: Run, input: Option<Json>, st: St, node: Node, item: Json, steps: nat, proposal: Json,
                    polls: nat)
    requires Accounted(run, input, st) && Known(run, node) && node.AwaitApproval?
    requires ResolvedThere(run, st, node.id, Str(node.proposal), proposal)
    ensures Kept(run, input, st, AskStatus(run, st, node, item, steps, proposal, polls))
  {
    if polls == 0 {
      FinishKeeps(run, input, st, node, item, steps, Str("timeout"));
    } else {
      var st', i := Called(st, StatusCall(proposal)), |st.calls|;
      ResolvedStays(run, st, st', node.id, Str(node.proposal), proposal);
      assert PolledFor(run, st', node.id, i);
      assert CalledFor(run, st', node.id, i);
      AccountGrows(run, input, st, st');
    }
  }

  lemma GuardKeeps(run: Run, input: Option<Json>, st: St, node: Node, item: Json, steps: nat)
    requires Accounted(run, input, st) && Known(run, node) && node.Condition? && JustEntered(st, node)
    ensures Kept(run, input, st, Begin(run, st, node, item, steps))
  {
    var verdict := run.language.evaluate(node.guard, Env(st.ctx, item));
    if verdict.Some? {
      var j := |st.visits| - 1;
      assert st.visits[j].node == node.id && run.language.evaluate(node.guard, Env(st.visits[j].ctx, item)) == verdict;
      assert FromGuard(run, st, node.id, node.guard, verdict.value);
      FinishKeeps(run, input, st, node, item, steps, Bool(verdict.value));
    }
  }

  lemma NotifyingKeeps(run: Run, input: Option<Json>, st: St, node: Node, item: Json, steps: nat)
    requires Accounted(run, input, st) && Known(run, node) && node.Notify? && JustEntered(st, node)
    ensures Kept(run, input, st, Begin(run, st, node, item, steps))
  {
    var message := run.language.resolve(Obj(node.message), st.ctx, item);
    if message.Some? {
      var st' := st.(notices := st.notices + [message.value]);
      ResolvedNow(run, st, node, Obj(node.message), item, message.value);
      NoticeIsAccounted(run, input, st, node.id, message.value);
      FinishKeeps(run, input, st', node, item, steps, Null);
    }
  }

  lemma NoticeIsAccounted(run: Run, input: Option<Json>, st: St, id: string, notice: Json)
    requires Accounted(run, input, st) && NoticeOf(run, st, id, notice)
    ensures Accounted(run, input, st.(notices := st.notices + [notice]))
  {
    var st' := st.(notices := st.notices + [notice]);
    OutputsStay(run, input, st, st');
    CommitsStay(run, st, st');
    forall n | n in st'.notices ensures exists id :: NoticeOf(run, st', id, n) {
      if n == notice {
        NoticeOfStays(run, st, st', id, n);
      } else {
        assert n in st.notices;
        var x :| NoticeOf(run, st, x, n);
        NoticeOfStays(run, st, st', x, n);
      }
    }
    forall i: nat | i < |st'.calls| ensures SomeNodeCalled(run, st', i) {
      CallsStay(run, st, st', i);
    }
  }

  lemma LoopingKeeps(run: Run, input: Option<Json>, st: St, node: Node, item: Json, steps: nat)
    requires Accounted(run, input, st) && Known(run, node) && node.Foreach? && JustEntered(st, node)
    ensures Kept(run, input, st, Begin(run, st, node, item, steps))
  {
    var list := run.language.resolve(Str(node.items), st.ctx, item);
    if list.Some? {
      ResolvedNow(run, st, node, Str(node.items), item, list.value);
      var elements := Elements(list.value, node.maxItems);
      assert IsCount(list.value, node.maxItems, |elements|) && IsLeft(list.value, elements, |elements|);
    }
  }

  lemma BeginKeeps(run: Run, input: Option<Json>, st: St, node: Node, item: Json, steps: nat)
    requires Accounted(run, input, st) && Known(run, node) && JustEntered(st, node)
    ensures Kept(run, input, st, Begin(run, st, node, item, steps))
  {
    match node
    case Action(_, _, args, _, _, _) =>
      var sent := run.language.resolve(Obj(args), st.ctx, item);
      if sent.Some? { ProposingKeeps(run, input, st, node, item, steps, sent.value); }
    case Query(_, _, args, _, _) =>
      var resolved := run.language.resolve(Obj(args), st.ctx, item);
      if resolved.Some? { QueryingKeeps(run, input, st, node, item, steps, resolved.value); }
    case Condition(_, _, _, _, _) => GuardKeeps(run, input, st, node, item, steps);
    case Notify(_, _, _) => NotifyingKeeps(run, input, st, node, item, steps);
    case AwaitApproval(_, proposal, _, _, _) =>
      var asked := run.language.resolve(Str(proposal), st.ctx, item);
      if asked.Some? {
        ResolvedNow(run, st, node, Str(proposal), item, asked.value);
        AskingKeeps(run, input, st, node, item, steps, asked.value, run.maxPolls);
      }
    case Foreach(_, _, _, _, _, _) => LoopingKeeps(run, input, st, node, item, steps);
    case Parallel(_, _, _) =>
    case Wait(_, _) =>
  }

  // Node ids name their nodes.
  ghost predicate Named(run: Run) {
    forall id :: id in run.nodes ==> run.nodes[id].id == id
  }

  lemma StartKeeps(run: Run, input: Option<Json>, st: St, id: string, item: Json, steps: nat)
    requires Named(run) && Accounted(run, input, st)
    ensures Kept(run, input, st, Start(run, st, id, item, steps))
  {
    if steps < MAX_STEPS && id in run.nodes {
      var st1 := Entered(st, id);
      AccountGrows(run, input, st, st1);
      BeginKeeps(run, input, st1, run.nodes[id], item, steps);
    }
  }

  lemma RefusalIsKnown(run: Run, st: St, node: Node, reply: ProposeReply, code: string)
    requires Expected(run, st, node, Proposing(reply)) && Refuses(reply, code)
    ensures RefusedWith(run, st, node.id, code)
  {
    var i: nat :| Proposed(run, st, node.id, i) && reply == AnswerTo(run, st, i);
    assert Refuses(AnswerTo(run, st, i), code);
  }

  lemma RefusalKeeps(run: Run, input: Option<Json>, st: St, node: Node, item: Json, steps: nat, reply: ProposeReply)
    requires Accounted(run, input, st) && Known(run, node) && node.Action?
    requires Expected(run, st, node, Proposing(reply)) && reply.Proposal? && (reply.isRefusal || reply.id == "")
    ensures Kept(run, input, st, Deliver(run, st, node, item, steps, Proposing(reply)))
  {
    var code := if reply.code.Some? then reply.code.value else "UNKNOWN";
    RefusalIsKnown(run, st, node, reply, code);
    if run.onError != Compensate {
      assert ComesFrom(run, st, node.id, Obj(map["refused" := Str(code)]));
      FinishKeeps(run, input, st, node, item, steps, Obj(map["refused" := Str(code)]));
    }
  }

  lemma CommittingKeeps(run: Run, input: Option<Json>, st: St, node: Node, item: Json, steps: nat, reply: ProposeReply)
    requires Accounted(run, input, st) && Known(run, node) && node.Action?
    requires Expected(run, st, node, Proposing(reply)) && reply.Proposal? && !reply.isRefusal && reply.id != ""
    ensures Kept(run, input, st, Deliver(run, st, node, item, steps, Proposing(reply)))
  {
    var p: nat :| Proposed(run, st, node.id, p) && reply == AnswerTo(run, st, p);
    var st', i := Called(st, CommitCall(reply.id, IdemKey(run.runId, node.id))), |st.calls|;
    ProposedStays(run, st, st', node.id, p);
    assert CommitsAnswer(run, st', node.id, p, i);
    assert CommittedFor(run, st', node.id, i);
    assert CalledFor(run, st', node.id, i);
    AccountGrows(run, input, st, st');
  }

  lemma CommitIsAccounted(run: Run, input: Option<Json>, st: St, id: string, output: Json)
    requires Accounted(run, input, st) && FromCommit(run, st, id, output)
    ensures Accounted(run, input, Commit(st, id)) && FromCommit(run, Commit(st, id), id, output)
  {
    var st' := Commit(st, id);
    OutputsStay(run, input, st, st');
    NoticesStay(run, st, st');
    FromCommitStays(run, st, st', id, output);
    forall x | x in st'.committed ensures exists o :: FromCommit(run, st', x, o) {
      if x != id {
        assert x in st.committed;
        var o :| FromCommit(run, st, x, o);
        FromCommitStays(run, st, st', x, o);
      }
    }
    forall i: nat | i < |st'.calls| ensures SomeNodeCalled(run, st', i) {
      CallsStay(run, st, st', i);
    }
  }

  lemma CommittedKeeps(run: Run, input: Option<Json>, st: St, node: Node, item: Json, steps: nat, proposal: string,
                       outcome: CommitReply)
    requires Accounted(run, input, st) && Known(run, node) && node.Action?
    requires Expected(run, st, node, Committing(proposal, outcome)) && !outcome.Lost?
    ensures Kept(run, input, st, Deliver(run, st, node, item, steps, Committing(proposal, outcome)))
  {
    var output := StateOutput(outcome, proposal);
    var i: nat :| CommittedFor(run, st, node.id, i) && st.calls[i].proposal == proposal &&
                  outcome == run.world.commit(i, proposal, st.calls[i].key);
    assert IsStatus(output, proposal, outcome);
    assert FromCommit(run, st, node.id, output);
    CommitIsAccounted(run, input, st, node.id, output);
    FinishKeeps(run, input, Commit(st, node.id), node, item, steps, output);
  }

  lemma QueriedKeeps(run: Run, input: Option<Json>, st: St, node: Node, item: Json, steps: nat, data: QueryReply)
    requires Accounted(run, input, st) && Known(run, node) && Expected(run, st, node, Querying(data)) && data.Data?
    ensures Kept(run, input, st, Deliver(run, st, node, item, steps, Querying(data)))
  {
    var i: nat :| AskedFor(run, st, node.id, i) &&
                  data == run.world.query(i, st.calls[i].verb, st.calls[i].args);
    assert FromQuery(run, st, node.id, data.data);
    FinishKeeps(run, input, st, node, item, steps, data.data);
  }

  lemma PolledKeeps(run: Run, input: Option<Json>, st: St, node: Node, item: Json, steps: nat, proposal: Json,
                    answer: StatusReply, pollsLeft: nat)
    requires Accounted(run, input, st) && Known(run, node)
    requires Expected(run, st, node, Polling(proposal, answer, pollsLeft)) && !answer.Lost?
    ensures Kept(run, input, st, Deliver(run, st, node, item, steps, Polling(proposal, answer, pollsLeft)))
  {
    var route := ApprovalRoute(answer.state);
    if route.Some? {
      var i: nat :| PolledFor(run, st, node.id, i) && answer == run.world.status(i, st.calls[i].asked);
      assert Reports(answer, route.value);
      assert FromStatus(run, st, node.id, route.value);
      FinishKeeps(run, input, st, node, item, steps, Str(route.value));
    }
  }

  lemma DeliverKeeps(run: Run, input: Option<Json>, st: St, node: Node, item: Json, steps: nat, pending: Pending)
    requires Accounted(run, input, st) && Known(run, node) && Expected(run, st, node, pending)
    ensures Kept(run, input, st, Deliver(run, st, node, item, steps, pending))
  {
    match pending
    case Proposing(reply) =>
      if reply.Proposal? {
        if reply.isRefusal || reply.id == "" { RefusalKeeps(run, input, st, node, item, steps, reply); }
        else { CommittingKeeps(run, input, st, node, item, steps, reply); }
      }
    case Committing(proposal, outcome) =>
      if !outcome.Lost? { CommittedKeeps(run, input, st, node, item, steps, proposal, outcome); }
    case Querying(data) =>
      if data.Data? { QueriedKeeps(run, input, st, node, item, steps, data); }
    case Polling(proposal, answer, pollsLeft) =>
      if !answer.Lost? { PolledKeeps(run, input, st, node, item, steps, proposal, answer, pollsLeft); }
    case Napping(proposal, pollsLeft) => AskingKeeps(run, input, st, node, item, steps, proposal, pollsLeft);
    case Sleeping => FinishKeeps(run, input, st, node, item, steps, Null);
  }

  lemma LoopMoveKeeps(run: Run, input: Option<Json>, st: St, t: Task)
    requires Accounted(run, input, st) && Awaited(run, st, t) && t.Looping?
    requires Advance(run, st, t, Go).Some?
    ensures Kept(run, input, st, Advance(run, st, t, Go).value)
  {
    var list :| ResolvedThere(run, st, t.node.id, Str(t.node.items), list) &&
                IsCount(list, t.node.maxItems, t.count) && IsLeft(list, t.left, t.count);
    if !t.inner.Stopped? && t.left != [] {
      assert IsLeft(list, t.left[1..], t.count);
    }
    if !t.inner.Stopped? && t.left == [] {
      assert FromList(run, st, t.node.id, t.node.items, t.node.maxItems, t.count);
      assert ComesFrom(run, st, t.node.id, Obj(map["count" := Int(t.count)]));
      FinishKeeps(run, input, st, t.node, t.item, t.steps, Obj(map["count" := Int(t.count)]));
    }
  }

  lemma JoinKeeps(run: Run, input: Option<Json>, st: St, t: Task)
    requires Accounted(run, input, st) && Awaited(run, st, t) && t.Forked?
    requires Advance(run, st, t, Go).Some?
    ensures Kept(run, input, st, Advance(run, st, t, Go).value)
  {
    assert ComesFrom(run, st, t.node.id, BranchNames(t.node.branches));
    FinishKeeps(run, input, st, t.node, t.item, t.steps, BranchNames(t.node.branches));
  }

  lemma {:induction false} MoveKeeps(run: Run, input: Option<Json>, st: St, t: Task, m: Move)
    requires Named(run) && Accounted(run, input, st) && Awaited(run, st, t) && Advance(run, st, t, m).Some?
    ensures Kept(run, input, st, Advance(run, st, t, m).value)
    decreases m
  {
    match t
    case At(id, item, steps) => StartKeeps(run, input, st, id.value, item, steps);
    case Suspended(node, item, steps, pending) => DeliverKeeps(run, input, st, node, item, steps, pending);
    case Looping(node, item, steps, left, count, inner) =>
      if m.Go? {
        LoopMoveKeeps(run, input, st, t);
      } else {
        MoveKeeps(run, input, st, inner, m.move);
        var st1 := Advance(run, st, inner, m.move).value.0;
        TakesStays(run, st, st1, node, left, count);
      }
    case Forked(node, item, steps, kids) =>
      if m.Go? {
        JoinKeeps(run, input, st, t);
      } else {
        MoveKeeps(run, input, st, kids[m.i], m.move);
        var (st1, kid1) := Advance(run, st, kids[m.i], m.move).value;
        var kids1 := kids[m.i := kid1];
        forall i | 0 <= i < |kids1| ensures Awaited(run, st1, kids1[i]) {
          if i != m.i { AwaitedStays(run, st, st1, kids[i]); }
        }
      }
    case Stopped(_) =>
  }

  lemma {:induction false} PlayKeeps(run: Run, input: Option<Json>, st: St, t: Task, moves: seq<Move>)
    requires Named(run) && Accounted(run, input, st) && Awaited(run, st, t) && Play(run, st, t, moves).Some?
    ensures Kept(run, input, st, Play(run, st, t, moves).value)
    decreases |moves|
  {
    if moves != [] {
      MoveKeeps(run, input, st, t, moves[0]);
      var (st1, t1) := Advance(run, st, t, moves[0]).value;
      PlayKeeps(run, input, st1, t1, moves[1..]);
    }
  }

  /** However the branches interleave, at every point of a run each call was asked for by a visited node (a
      proposal or query with the node's arguments resolved, a commit of the very proposal answered, a poll of the
      proposal waited for), each output and notice is what was answered or resolved, and a halted run was refused. */
  lemma RunsAreAccounted(run: Run, input: Option<Json>, moves: seq<Move>)
    requires Named(run) && Play(run, InitialSt(input), WholeRun(run), moves).Some?
    ensures var (st, t) := Play(run, InitialSt(input), WholeRun(run), moves).value;
            Accounted(run, input, st) && Awaited(run, st, t)
  {
    PlayKeeps(run, input, InitialSt(input), WholeRun(run), moves);
  }

  /** Whenever a loop goes on to its next pass, the pass starts at the body, with the element of the list whose
      turn it is under the binder: the first element first, then each after the one before it, up to the count. */
  lemma PassesComeInOrder(run: Run, st: St, t: Task) returns (list: Json)
    requires t.Looping? && Awaited(run, st, t) && Over(t.inner) && !t.inner.Stopped?
    ensures ResolvedThere(run, st, t.node.id, Str(t.node.items), list) && IsCount(list, t.node.maxItems, t.count)
    ensures |t.left| <= t.count
    ensures t.left != [] ==>
              var k := t.count - |t.left|;
              && list.Arr? && k < |list.items|
              && Advance(run, st, t, Go) ==
                 Some((st, t.(left := t.left[1..],
                              inner := Task.At(Some(t.node.body), Obj(map[t.node.binder := list.items[k]]), 0))))
    ensures t.left == [] ==>
              Advance(run, st, t, Go) == Some(Finish(st, t.node, t.item, t.steps, Obj(map["count" := Int(t.count)])))
  {
    list :| ResolvedThere(run, st, t.node.id, Str(t.node.items), list) && IsCount(list, t.node.maxItems, t.count) &&
            IsLeft(list, t.left, t.count);
  }

  // --- the unwinding, and the executor's own order ----------------------------------------------------------------

  // The i-th call proposes the compensation of a committed action, its arguments resolved at the end of the walk.
  ghost predicate UndoProposed(run: Run, end: St, calls: seq<Call>, id: string, i: nat) {
    && i < |calls| && calls[i].ProposeCall? && id in run.nodes && run.nodes[id].Action? && run.nodes[id].undo.Some?
    && calls[i].verb == run.nodes[id].undo.value.verb
    && run.language.resolve(Obj(run.nodes[id].undo.value.args), end.ctx, Null) == Some(calls[i].args)
  }

  // The i-th call commits, under the action's rollback key, what was answered to the call before it.
  ghost predicate UndoCommitted(run: Run, end: St, calls: seq<Call>, id: string, i: nat) {
    && 0 < i < |calls| && UndoProposed(run, end, calls, id, i - 1)
    && var answer := run.world.propose(i - 1, calls[i - 1].verb, calls[i - 1].args);
       && answer.Proposal? && !answer.isRefusal && answer.id != ""
       && calls[i] == CommitCall(answer.id, run.runId + ":" + (id + ":rollback"))
  }

  ghost predicate UndoCalled(run: Run, end: St, calls: seq<Call>, i: nat) {
    exists id :: UndoProposed(run, end, calls, id, i) || UndoCommitted(run, end, calls, id, i)
  }

  // What an unwinding that began at `end` has called from there on.
  ghost predicate UndosAccounted(run: Run, end: St, st: St) {
    && end.calls <= st.calls && st.ctx == end.ctx
    && forall i: nat :: |end.calls| <= i < |st.calls| ==> UndoCalled(run, end, st.calls, i)
  }

  lemma UndoCalledStays(run: Run, end: St, calls: seq<Call>, calls': seq<Call>, i: nat)
    requires calls <= calls' && i < |calls| && UndoCalled(run, end, calls, i)
    ensures UndoCalled(run, end, calls', i)
  {
    var id :| UndoProposed(run, end, calls, id, i) || UndoCommitted(run, end, calls, id, i);
    assert UndoProposed(run, end, calls', id, i) || UndoCommitted(run, end, calls', id, i);
  }

  lemma OneUndoMore(run: Run, end: St, st: St, call: Call)
    requires UndosAccounted(run, end, st) && UndoCalled(run, end, st.calls + [call], |st.calls|)
    ensures UndosAccounted(run, end, Called(st, call))
  {
    forall i: nat | |end.calls| <= i < |st.calls| + 1 ensures UndoCalled(run, end, st.calls + [call], i) {
      if i < |st.calls| { UndoCalledStays(run, end, st.calls, st.calls + [call], i); }
    }
  }

  lemma UndoOneAccounted(run: Run, end: St, st: St, id: string)
    requires UndosAccounted(run, end, st)
    ensures UndosAccounted(run, end, UndoOne(run, st, id).0)
  {
    if id in run.nodes && run.nodes[id].Action? && run.nodes[id].undo.Some? {
      var undo := run.nodes[id].undo.value;
      var args := run.language.resolve(Obj(undo.args), st.ctx, Null);
      if args.Some? {
        ProposedUndoAccounted(run, end, st, id, undo, args.value);
      }
    }
  }

  lemma ProposedUndoAccounted(run: Run, end: St, st: St, id: string, undo: Compensation, args: Json)
    requires UndosAccounted(run, end, st) && id in run.nodes && run.nodes[id].Action?
    requires run.nodes[id].undo == Some(undo) && run.language.resolve(Obj(undo.args), st.ctx, Null) == Some(args)
    ensures UndosAccounted(run, end, UndoOne(run, st, id).0)
  {
    var propose := ProposeCall(undo.verb, args);
    var st1 := Called(st, propose);
    assert UndoProposed(run, end, st1.calls, id, |st.calls|);
    OneUndoMore(run, end, st, propose);
    var reply := run.world.propose(|st.calls|, undo.verb, args);
    if reply.Proposal? && !reply.isRefusal && reply.id != "" {
      var commit := CommitCall(reply.id, IdemKey(run.runId, RollbackId(id)));
      assert UndoProposed(run, end, st1.calls + [commit], id, |st.calls|);
      assert UndoCommitted(run, end, st1.calls + [commit], id, |st1.calls|);
      OneUndoMore(run, end, st1, commit);
    }
  }

  lemma {:induction false} UnwindAccounted(run: Run, end: St, st: St, left: seq<string>, undone: seq<string>)
    requires UndosAccounted(run, end, st)
    ensures UndosAccounted(run, end, Unwind(run, st, left, undone).0)
    decreases |left|
  {
    if left != [] {
      var id := left[|left| - 1];
      UndoOneAccounted(run, end, st, id);
      UnwindAccounted(run, end, UndoOne(run, st, id).0, left[..|left| - 1], undone + [id]);
    }
  }

  // What a run comes to from the end of its walk on.
  ghost predicate ConcludedWell(run: Run, end: St, result: (St, Outcome<RunResult>)) {
    && UndosAccounted(run, end, result.0)
    && (result.1.Done? && !result.1.value.completed ==>
          var r := result.1.value;
          r.blockedAt.Some? && r.refusal.Some? && RefusedWith(run, end, r.blockedAt.value, r.refusal.value))
  }

  /** In the executor's own order: the walk is accounted for, every call of the unwinding is a compensation
      resolved at its end or the commit of what was answered to it, and a run that comes back incomplete names the
      action that was refused and the code it was refused with. */
  lemma ProgramIsAccounted(run: Run, rank: map<string, nat>, input: Option<Json>)
    requires Ranked(run.nodes, rank)
    ensures var (end, out) := Walk(run, rank, InitialSt(input), Some(run.entry), Null, 0);
            && Accounted(run, input, end)
            && ConcludedWell(run, end, RunProgram(run, rank, input))
  {
    var st0 := InitialSt(input);
    var last := WalkIsASchedule(run, rank, st0, Some(run.entry), Null, 0);
    var (end, out) := Walk(run, rank, st0, Some(run.entry), Null, 0);
    var moves :| Play(run, st0, WholeRun(run), moves) == Some((end, Ending(Null, last, out)));
    RunsAreAccounted(run, input, moves);
    if out.Halted? && run.onError == Compensate {
      UnwindAccounted(run, end, end, end.committed, []);
    }
  }

  /** In the language of references and guards, resolved means filled in: the arguments of every call have, where the
      node's arguments have a reference, what it finds in the context of a visit, and are the node's arguments
      everywhere else. */
  lemma ArgumentsAreFilled(p: Program, runId: string, world: World, maxPolls: nat, st: St, id: string, given: Json,
                           value: Json)
    requires ResolvedThere(RunOf(p, runId, world, maxPolls), st, id, given, value)
    ensures exists j, item :: 0 <= j < |st.visits| && st.visits[j].node == id &&
              Filled(given, value, st.visits[j].ctx, item)
  {
    var run := RunOf(p, runId, world, maxPolls);
    var j, item :| VisitedWith(run, st, id, j, given, item, value);
    ResolvesExactlyWhenAllDo(given, st.visits[j].ctx, item);
    ResolvesToTheFilled(given, value, st.visits[j].ctx, item);
    assert Filled(given, value, st.visits[j].ctx, item);
  }
}
