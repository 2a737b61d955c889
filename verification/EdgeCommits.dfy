/** How often a proposal is carried out: once for each idempotency key under which it was executed. */
module EdgeCommits {
  import opened Edge
  import opened EdgeRuns
  import Store

  function WritesFor(writes: seq<Write>, pid: string): nat {
    if writes == [] then 0
    else
      var last := writes[|writes| - 1];
      WritesFor(writes[..|writes| - 1], pid) + if last.proposal == pid then 1 else 0
  }

  // The j-th request was a commit of the proposal, and it wrote.
  predicate WroteAt(script: seq<Moment>, states: seq<State>, j: nat, pid: string)
    requires j < |script| && |states| == |script| + 1
  {
    && script[j].request.CommitRequest? && script[j].request.proposal == pid
    && |states[j + 1].writes| == |states[j].writes| + 1
  }

  /** In a run, that is to say that it was answered as executed. */
  lemma WroteMeansExecuted(a: Adapter, docs: Store.Docs, script: seq<Moment>, states: seq<State>, j: nat, pid: string)
    requires IsRun(a, docs, script, states) && j < |script|
    ensures WroteAt(script, states, j, pid) <==>
            script[j].request.CommitRequest? && script[j].request.proposal == pid &&
            ReplyAt(a, script[j], states[j]).Executed?
  {
    StepOf(a, docs, script, states, j);
    ServeWrites(a, states[j], script[j].request, script[j].luck);
  }

  // Which requests had the proposal executed, under which key, with what to show for it.
  datatype History = History(done: nat -> bool, key: nat -> string, count: nat -> nat, known: nat -> set<string>)

  function KeysIn(h: History, n: nat): set<string> {
    set j: nat | j < n && h.done(j) :: h.key(j)
  }

  // One step: a key not known before for each one done.
  ghost predicate StepsOn(h: History, i: nat) {
    && h.known(i) <= h.known(i + 1)
    && (if h.done(i) then h.key(i) !in h.known(i) && h.key(i) in h.known(i + 1) && h.count(i + 1) == h.count(i) + 1
        else h.count(i + 1) == h.count(i))
  }

  lemma KeysOfNext(h: History, n: nat)
    ensures KeysIn(h, n + 1) == KeysIn(h, n) + if h.done(n) then {h.key(n)} else {}
  {
  }

  lemma {:induction false} CountsAreKeys(h: History, n: nat)
    requires h.count(0) == 0 && forall i: nat :: i < n ==> StepsOn(h, i)
    ensures h.count(n) == |KeysIn(h, n)| && KeysIn(h, n) <= h.known(n)
  {
    if n == 0 {
      assert KeysIn(h, 0) == {};
    } else {
      assert StepsOn(h, n - 1);
      CountsAreKeys(h, n - 1);
      KeysOfNext(h, n - 1);
    }
  }

  // The history of a proposal over a run.
  function HistoryOf(script: seq<Moment>, states: seq<State>, pid: string): History
    requires |states| == |script| + 1
  {
    History((j: nat) => j < |script| && WroteAt(script, states, j, pid),
            (j: nat) => if j < |script| && script[j].request.CommitRequest? then script[j].request.key else "",
            (j: nat) => if j < |states| then WritesFor(states[j].writes, pid) else 0,
            (j: nat) => if j < |states| then states[j].ledger.Keys else {})
  }

  // The keys under which the first i requests had the proposal executed.
  function KeysFor(script: seq<Moment>, states: seq<State>, i: nat, pid: string): set<string>
    requires |states| == |script| + 1
  {
    KeysIn(HistoryOf(script, states, pid), i)
  }

  lemma ServeWrites(a: Adapter, st: State, request: Request, luck: Luck)
    ensures var (st', r) := Serve(a, st, request, luck);
            if r.Executed? then
              && request.CommitRequest? && request.key !in st.ledger && request.key in st'.ledger
              && |st'.writes| == |st.writes| + 1
              && st'.writes[..|st.writes|] == st.writes && st'.writes[|st.writes|].proposal == request.proposal
            else st'.writes == st.writes
  {
  }

  lemma StepCounts(a: Adapter, docs: Store.Docs, script: seq<Moment>, states: seq<State>, i: nat, pid: string)
    requires IsRun(a, docs, script, states) && i < |script|
    ensures StepsOn(HistoryOf(script, states, pid), i)
  {
    StepOf(a, docs, script, states, i);
    RequestCounts(a, states[i], script[i], states[i + 1], pid);
    WroteMeansExecuted(a, docs, script, states, i, pid);
  }

  lemma RequestCounts(a: Adapter, st: State, m: Moment, st': State, pid: string)
    requires Served(a, m, st, st')
    ensures Keeps(st.ledger, st'.ledger)
    ensures var done := m.request.CommitRequest? && m.request.proposal == pid && ReplyAt(a, m, st).Executed?;
            && WritesFor(st'.writes, pid) == WritesFor(st.writes, pid) + (if done then 1 else 0)
            && (done ==> m.request.key !in st.ledger && m.request.key in st'.ledger)
  {
    ServeGrows(a, st, m.request, m.luck);
    ServeWrites(a, st, m.request, m.luck);
  }

  lemma AllStepsCount(a: Adapter, docs: Store.Docs, script: seq<Moment>, states: seq<State>, n: nat, pid: string)
    requires IsRun(a, docs, script, states) && n <= |script|
    ensures HistoryOf(script, states, pid).count(0) == 0
    ensures forall j: nat :: j < n ==> StepsOn(HistoryOf(script, states, pid), j)
  {
    forall j: nat | j < n ensures StepsOn(HistoryOf(script, states, pid), j) {
      StepCounts(a, docs, script, states, j, pid);
    }
  }

  /** Over any run, the writes that carry out a proposal are exactly as many as the keys under which a commit
      of it was executed. */
  lemma OneWritePerExecutedKey(a: Adapter, docs: Store.Docs, script: seq<Moment>, states: seq<State>, i: nat,
                               pid: string)
    requires IsRun(a, docs, script, states) && i <= |script|
    ensures WritesFor(states[i].writes, pid) == |KeysFor(script, states, i, pid)|
    ensures KeysFor(script, states, i, pid) <= states[i].ledger.Keys
  {
    AllStepsCount(a, docs, script, states, i, pid);
    CountsAreKeys(HistoryOf(script, states, pid), i);
  }

  /** So a proposal whose commits all use one key is carried out at most once. */
  lemma OneKeyWritesOnce(a: Adapter, docs: Store.Docs, script: seq<Moment>, states: seq<State>, i: nat, pid: string,
                         key: string)
    requires IsRun(a, docs, script, states) && i <= |script|
    requires forall j :: 0 <= j < i && script[j].request.CommitRequest? && script[j].request.proposal == pid ==>
               script[j].request.key == key
    ensures WritesFor(states[i].writes, pid) <= 1
  {
    OneWritePerExecutedKey(a, docs, script, states, i, pid);
    var keys := KeysFor(script, states, i, pid);
    assert keys <= {key};
    if key in keys {
      assert keys == {key};
    } else {
      assert keys == {};
    }
  }

  lemma CreateCommits(a: Adapter, st: State, workspace: string, key: string, pid: string, luck: Luck)
    requires pid in st.proposals && st.proposals[pid].Generic? && st.proposals[pid].op == Create
    requires "id" !in DataIn(st.proposals[pid].args) && key !in st.ledger && luck.accepts && luck.picked != ""
    requires Store.Key(TargetIn(st.proposals[pid].args), luck.picked) !in st.docs
    ensures var (st', r) := Commit(a, st, workspace, key, pid, luck);
            && r.Executed? && st'.proposals == st.proposals && st'.ledger.Keys == st.ledger.Keys + {key}
            && st'.docs.Keys == st.docs.Keys + {Store.Key(TargetIn(st.proposals[pid].args), luck.picked)}
            && |st'.writes| == |st.writes| + 1
  {
  }

  // A commit of a create without an id that nothing stands in the way of: an unused key, a store that takes
  // the record, and a free id for it.
  predicate Unhindered(st: State, m: Moment, pid: string) {
    && m.request.CommitRequest? && m.request.proposal == pid && m.request.key !in st.ledger
    && pid in st.proposals && st.proposals[pid].Generic? && st.proposals[pid].op == Create
    && "id" !in DataIn(st.proposals[pid].args)
    && m.luck.accepts && m.luck.picked != "" && Store.Key(TargetIn(st.proposals[pid].args), m.luck.picked) !in st.docs
  }

  /** Such a commit is executed and adds a record, in any run and however often the proposal was committed
      before. */
  lemma UnhinderedIsCarriedOut(a: Adapter, docs: Store.Docs, script: seq<Moment>, states: seq<State>, i: nat,
                               pid: string)
    requires IsRun(a, docs, script, states) && i < |script| && Unhindered(states[i], script[i], pid)
    ensures HistoryOf(script, states, pid).done(i) && |states[i + 1].docs.Keys| == |states[i].docs.Keys| + 1
  {
    StepOf(a, docs, script, states, i);
    CreateCommits(a, states[i], script[i].request.workspace, script[i].request.key, pid, script[i].luck);
  }

  /** The bound is per key, not per proposal: whenever two commits of a proposal are executed, it is carried
      out twice. */
  lemma OneProposalTwoKeys(a: Adapter, docs: Store.Docs, script: seq<Moment>, states: seq<State>, i: nat, j: nat,
                           pid: string)
    requires IsRun(a, docs, script, states) && i < j < |script|
    ensures var h := HistoryOf(script, states, pid);
            h.done(i) && h.done(j) ==> WritesFor(states[j + 1].writes, pid) >= 2
  {
    AllStepsCount(a, docs, script, states, j + 1, pid);
    TwoDone(HistoryOf(script, states, pid), i, j);
  }

  lemma TwoDone(h: History, i: nat, j: nat)
    requires h.count(0) == 0 && (forall k: nat :: k < j + 1 ==> StepsOn(h, k)) && i < j
    ensures h.done(i) && h.done(j) ==> h.count(j + 1) >= 2
  {
    if h.done(i) && h.done(j) {
      CountsAreKeys(h, j);
      CountsAreKeys(h, j + 1);
      assert StepsOn(h, j);
      assert h.key(i) in KeysIn(h, j);
      FewerAreFewer({h.key(i), h.key(j)}, KeysIn(h, j + 1));
    }
  }

  lemma {:induction false} FewerAreFewer(small: set<string>, large: set<string>)
    requires small <= large
    ensures |small| <= |large|
    decreases small
  {
    if small != {} {
      var x :| x in small;
      FewerAreFewer(small - {x}, large - {x});
    }
  }
}
