/** The passes of a loop and the polls of an approval, one after the other. */
module Rounds {
  import opened Values
  import opened Dsl
  import opened Executor
  import opened Accounts

  // --- the passes of a loop ---------------------------------------------------------------------------------

  // From each state to the next the body was walked with the next element under the binder.
  ghost predicate Passes(run: Run, rank: map<string, nat>, node: Node, states: seq<St>, list: seq<Json>, n: nat)
    requires Ranked(run.nodes, rank) && node.Foreach?
  {
    && |states| == n + 1 && n <= |list|
    && forall k :: 0 <= k < n ==> Pass(run, rank, node, states[k], list[k]) == (states[k + 1], Done(()))
  }

  function Pass(run: Run, ghost rank: map<string, nat>, node: Node, st: St, element: Json): (St, Outcome<()>)
    requires Ranked(run.nodes, rank) && node.Foreach?
  {
    Walk(run, rank, st, Some(node.body), Obj(map[node.binder := element]), 0)
  }

  lemma OnePassMore(run: Run, rank: map<string, nat>, node: Node, st: St, states: seq<St>, list: seq<Json>, n: nat)
    requires Ranked(run.nodes, rank) && node.Foreach? && list != []
    requires Passes(run, rank, node, states, list[1..], n)
    requires Pass(run, rank, node, st, list[0]) == (states[0], Done(()))
    ensures Passes(run, rank, node, [st] + states, list, n + 1)
  {
    var all := [st] + states;
    forall k | 0 <= k < n + 1 ensures Pass(run, rank, node, all[k], list[k]) == (all[k + 1], Done(())) {
      if k > 0 { assert list[k] == list[1..][k - 1] && all[k] == states[k - 1] && all[k + 1] == states[k]; }
    }
  }

  // The passes that finish, and, if they are not all, the one after them that does not.
  lemma {:induction false} BodyPasses(run: Run, rank: map<string, nat>, st: St, node: Node, elements: seq<Json>)
    returns (states: seq<St>)
    requires Ranked(run.nodes, rank)
    requires node.Foreach? && node.id in run.nodes && node == run.nodes[node.id]
    ensures states != [] && states[0] == st
    ensures Passes(run, rank, node, states, elements, |states| - 1)
    ensures var (st', out) := RunBody(run, rank, st, node, elements);
            if out.Done? then |states| == |elements| + 1 && st' == states[|elements|]
            else |states| <= |elements| &&
                 Pass(run, rank, node, states[|states| - 1], elements[|states| - 1]) == (st', out)
    decreases |elements|
  {
    states := [st];
    if elements != [] {
      var (st1, out) := Pass(run, rank, node, st, elements[0]);
      if out.Done? {
        var more := BodyPasses(run, rank, st1, node, elements[1..]);
        assert out == Done(out.value) && out.value == ();
        OnePassMore(run, rank, node, st, more, elements, |more| - 1);
        states := [st] + more;
        assert states[|states| - 1] == more[|more| - 1];
        if |more| <= |elements[1..]| {
          assert elements[1..][|more| - 1] == elements[|more|];
        }
      }
    }
  }

  // The same fault or refusal, whatever would have been returned.
  predicate Fails<S, T>(out: Outcome<S>, out': Outcome<T>) {
    match out
    case Done(_) => false
    case Halted(n, c) => out' == Halted(n, c)
    case Raised(f) => out' == Raised(f)
  }

  /** A loop over a list walks its body for each element in turn, from the first, up to its limit, with the
      element under the binder, and records how many there were; the first pass that does not finish ends it, as
      it ended. Over anything but a list there is no pass. */
  lemma LoopsWalkTheirList(run: Run, rank: map<string, nat>, st: St, node: Node, item: Json, list: Json)
    returns (states: seq<St>)
    requires Ranked(run.nodes, rank)
    requires node.Foreach? && node.id in run.nodes && node == run.nodes[node.id]
    requires run.language.resolve(Str(node.items), st.ctx, item) == Some(list)
    ensures states != [] && states[0] == st
    ensures Passes(run, rank, node, states, if list.Arr? then list.items else [], |states| - 1)
    ensures var (st', out) := DoForeach(run, rank, st, node, item);
            var n := |states| - 1;
            if out.Done? then
              IsCount(list, node.maxItems, n) && st' == states[n] && out == Done(Obj(map["count" := Int(n)]))
            else
              && list.Arr? && n < |list.items| && n < node.maxItems
              && var (end, inner) := Pass(run, rank, node, states[n], list.items[n]);
                 end == st' && Fails(inner, out)
  {
    var elements := Elements(list, node.maxItems);
    states := BodyPasses(run, rank, st, node, elements);
    var n := |states| - 1;
    assert list.Arr? ==> elements <= list.items;
    forall k | 0 <= k < n
      ensures Pass(run, rank, node, states[k], (if list.Arr? then list.items else [])[k]) == (states[k + 1], Done(()))
    {
      assert elements[k] == list.items[k];
    }
  }

  // --- polls ------------------------------------------------------------------------------------------------

  // What the i-th call from the state on would be told.
  function Told(run: Run, st: St, asked: Json, i: nat): StatusReply {
    run.world.status(|st.calls| + i, asked)
  }

  // The state that was reported decides nothing yet.
  predicate Undecided(answer: StatusReply) {
    answer.State? && !exists verdict :: verdict in ["approved", "rejected", "timeout"] && Reports(answer, verdict)
  }

  function Asked(asked: Json, n: nat): seq<Call> {
    seq(n, _ => StatusCall(asked))
  }

  /** An approval is asked about until an answer decides, is lost, or as often as allowed: the answers before
      decide nothing, the last one, if it decides, gives the verdict it means, and `timeout` is the verdict when
      all are used up. */
  lemma {:induction false} PollsUntilDecided(run: Run, st: St, asked: Json, polls: nat) returns (n: nat)
    ensures n <= polls
    ensures var (st', out) := Poll(run, st, asked, polls);
            && st' == st.(calls := st.calls + Asked(asked, n))
            && (forall i :: 0 <= i < n - 1 ==> Undecided(Told(run, st, asked, i)))
            && match out
               case Done(v) =>
                 || (n == polls && v == Str("timeout") && (n > 0 ==> Undecided(Told(run, st, asked, n - 1))))
                 || (n > 0 && v.Str? && Reports(Told(run, st, asked, n - 1), v.s))
               case Raised(f) => n > 0 && f == ClientError && Told(run, st, asked, n - 1).Lost?
               case Halted(_, _) => false
    decreases polls
  {
    n := 0;
    assert st.calls + [] == st.calls;
    if polls > 0 {
      var reply := run.world.status(|st.calls|, asked);
      var st1 := Called(st, StatusCall(asked));
      n := 1;
      assert Asked(asked, 1) == [StatusCall(asked)];
      if reply.State? {
        RoutesMean(reply.state);
        if ApprovalRoute(reply.state).None? {
          var more := PollsUntilDecided(run, st1, asked, polls - 1);
          n := more + 1;
          assert st.calls + Asked(asked, n) == st1.calls + Asked(asked, more);
          forall i | 0 <= i < n - 1 ensures Undecided(Told(run, st, asked, i)) {
            if i > 0 { assert Told(run, st, asked, i) == Told(run, st1, asked, i - 1); }
          }
          assert more > 0 ==> Told(run, st, asked, n - 1) == Told(run, st1, asked, more - 1);
        }
      }
    }
  }

  lemma RoutesMean(state: Option<string>)
    ensures var route := ApprovalRoute(state);
            if route.Some? then Reports(State(state), route.value) && route.value in ["approved", "rejected", "timeout"]
            else Undecided(State(state))
  {
  }
}
