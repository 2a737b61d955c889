/** The walk that runs each branch to its end before the next is one of the interleavings. */
module Sequential {
  import opened Values
  import opened Dsl
  import opened Executor
  import opened Interleaving

  // Some schedule takes the one configuration to the other.
  ghost predicate Leads(run: Run, st: St, t: Task, st': St, t': Task) {
    exists moves :: Play(run, st, t, moves) == Some((st', t'))
  }

  lemma LeadsNowhere(run: Run, st: St, t: Task)
    ensures Leads(run, st, t, st, t)
  {
    assert Play(run, st, t, []) == Some((st, t));
  }

  lemma LeadsByOneMove(run: Run, st: St, t: Task, m: Move)
    requires Advance(run, st, t, m).Some?
    ensures Leads(run, st, t, Advance(run, st, t, m).value.0, Advance(run, st, t, m).value.1)
  {
    assert [m][1..] == [];
    assert Play(run, st, t, [m]) == Advance(run, st, t, m);
  }

  lemma {:induction false} PlayOn(run: Run, st: St, t: Task, first: seq<Move>, second: seq<Move>)
    requires Play(run, st, t, first).Some?
    ensures Play(run, st, t, first + second) ==
            Play(run, Play(run, st, t, first).value.0, Play(run, st, t, first).value.1, second)
    decreases |first|
  {
    if first == [] {
      assert first + second == second;
    } else {
      var (st1, t1) := Advance(run, st, t, first[0]).value;
      PlayOn(run, st1, t1, first[1..], second);
      assert (first + second)[1..] == first[1..] + second;
    }
  }

  lemma LeadsOn(run: Run, a: St, s: Task, b: St, t: Task, c: St, u: Task)
    requires Leads(run, a, s, b, t) && Leads(run, b, t, c, u)
    ensures Leads(run, a, s, c, u)
  {
    var first :| Play(run, a, s, first) == Some((b, t));
    var second :| Play(run, b, t, second) == Some((c, u));
    PlayOn(run, a, s, first, second);
  }

  // A schedule of the loop body is a schedule of the loop.
  lemma {:induction false} InsideLoop(run: Run, st: St, loop: Task, moves: seq<Move>) returns (lifted: seq<Move>)
    requires loop.Looping? && Play(run, st, loop.inner, moves).Some?
    ensures var (st', inner') := Play(run, st, loop.inner, moves).value;
            Play(run, st, loop, lifted) == Some((st', loop.(inner := inner')))
    decreases |moves|
  {
    lifted := [];
    if moves != [] {
      var (st1, inner1) := Advance(run, st, loop.inner, moves[0]).value;
      var rest := InsideLoop(run, st1, loop.(inner := inner1), moves[1..]);
      lifted := [Child(0, moves[0])] + rest;
      assert lifted[1..] == rest;
    }
  }

  // A schedule of one branch is a schedule of the fork.
  lemma {:induction false} InsideFork(run: Run, st: St, fork: Task, i: nat, moves: seq<Move>)
    returns (lifted: seq<Move>)
    requires fork.Forked? && i < |fork.kids| && Play(run, st, fork.kids[i], moves).Some?
    ensures var (st', kid') := Play(run, st, fork.kids[i], moves).value;
            Play(run, st, fork, lifted) == Some((st', fork.(kids := fork.kids[i := kid'])))
    decreases |moves|
  {
    lifted := [];
    if moves == [] {
      assert fork.kids[i := fork.kids[i]] == fork.kids;
    } else {
      var (st1, kid1) := Advance(run, st, fork.kids[i], moves[0]).value;
      var fork1 := fork.(kids := fork.kids[i := kid1]);
      var rest := InsideFork(run, st1, fork1, i, moves[1..]);
      lifted := [Child(i, moves[0])] + rest;
      assert lifted[1..] == rest;
      var kid' := Play(run, st, fork.kids[i], moves).value.1;
      assert fork1.kids[i := kid'] == fork.kids[i := kid'];
    }
  }

  // Where the tree stands once a node's execution has come to `out`.
  function Landing(st: St, node: Node, item: Json, steps: nat, out: Outcome<Json>): (St, Task) {
    match out
    case Done(output) => Finish(st, node, item, steps, output)
    case Halted(n, c) => (st, Stopped(Halted(n, c)))
    case Raised(f) => (st, Stopped(Raised(f)))
  }

  ghost predicate Lands(run: Run, st: St, t: Task, st': St, node: Node, item: Json, steps: nat, out: Outcome<Json>) {
    var (s, u) := Landing(st', node, item, steps, out);
    Leads(run, st, t, s, u)
  }

  lemma ActionIsASchedule(run: Run, st: St, node: Node, item: Json, steps: nat)
    requires node.Action?
    ensures var (st1, t1) := Begin(run, st, node, item, steps);
            var (st', out) := DoAction(run, st, node, item);
            Lands(run, st1, t1, st', node, item, steps, out)
  {
    var (st1, t1) := Begin(run, st, node, item, steps);
    LeadsNowhere(run, st1, t1);
    if t1.Suspended? {
      LeadsByOneMove(run, st1, t1, Go);
      var (st2, t2) := Deliver(run, st1, node, item, steps, t1.pending);
      if t2.Suspended? {
        LeadsByOneMove(run, st2, t2, Go);
        var (st3, t3) := Deliver(run, st2, node, item, steps, t2.pending);
        LeadsOn(run, st1, t1, st2, t2, st3, t3);
      }
    }
  }

  lemma {:induction false} PollIsASchedule(run: Run, st: St, node: Node, item: Json, steps: nat, proposal: Json,
                                           polls: nat)
    ensures var (st1, t1) := AskStatus(run, st, node, item, steps, proposal, polls);
            var (st', out) := Poll(run, st, proposal, polls);
            Lands(run, st1, t1, st', node, item, steps, out)
    decreases polls
  {
    var (st1, t1) := AskStatus(run, st, node, item, steps, proposal, polls);
    LeadsNowhere(run, st1, t1);
    if polls > 0 {
      LeadsByOneMove(run, st1, t1, Go);
      var (st2, t2) := Deliver(run, st1, node, item, steps, t1.pending);
      if t2.Suspended? {
        LeadsByOneMove(run, st2, t2, Go);
        var (st3, t3) := AskStatus(run, st2, node, item, steps, proposal, polls - 1);
        PollIsASchedule(run, st1, node, item, steps, proposal, polls - 1);
        var (st', out) := Poll(run, st1, proposal, polls - 1);
        var (s, u) := Landing(st', node, item, steps, out);
        LeadsOn(run, st2, t2, st3, t3, s, u);
        LeadsOn(run, st1, t1, st2, t2, s, u);
      }
    }
  }

  lemma LeafIsASchedule(run: Run, rank: map<string, nat>, st: St, node: Node, item: Json, steps: nat)
    requires Ranked(run.nodes, rank) && Known(run, node) && !node.Parallel? && !node.Foreach?
    ensures var (st1, t1) := Begin(run, st, node, item, steps);
            var (st', out) := ExecuteNode(run, rank, st, node, item);
            Lands(run, st1, t1, st', node, item, steps, out)
  {
    var (st1, t1) := Begin(run, st, node, item, steps);
    LeadsNowhere(run, st1, t1);
    match node
    case Action(_, _, _, _, _, _) => ActionIsASchedule(run, st, node, item, steps);
    case AwaitApproval(_, proposal, _, _, _) =>
      var asked := run.language.resolve(Str(proposal), st.ctx, item);
      if asked.Some? { PollIsASchedule(run, st, node, item, steps, asked.value, run.maxPolls); }
    case Query(_, _, _, _, _) => if t1.Suspended? { LeadsByOneMove(run, st1, t1, Go); }
    case Wait(_, _) => LeadsByOneMove(run, st1, t1, Go);
    case _ =>
  }

  // The end of a walk.
  function Ending(item: Json, steps: nat, out: Outcome<()>): Task {
    if out.Done? then At(None, item, steps) else Stopped(out)
  }

  lemma {:induction false} WalkIsASchedule(run: Run, rank: map<string, nat>, st: St, at: Option<string>, item: Json,
                                           steps: nat) returns (last: nat)
    requires Ranked(run.nodes, rank)
    ensures var (st', out) := Walk(run, rank, st, at, item, steps);
            Leads(run, st, At(at, item, steps), st', Ending(item, last, out))
    decreases RankOf(rank, at), 4
  {
    last := steps;
    LeadsNowhere(run, st, At(at, item, steps));
    if at.Some? {
      if steps >= MAX_STEPS {
        LeadsByOneMove(run, st, At(at, item, steps), Go);
      } else {
        StepIsASchedule(run, rank, st, at.value, item, steps);
        var (st1, out) := WalkStep(run, rank, st, at.value, item);
        if out.Done? {
          last := WalkIsASchedule(run, rank, st1, out.value, item, steps + 1);
          var (st', out') := Walk(run, rank, st1, out.value, item, steps + 1);
          LeadsOn(run, st, At(at, item, steps), st1, At(out.value, item, steps + 1), st', Ending(item, last, out'));
        }
      }
    }
  }

  lemma {:induction false} StepIsASchedule(run: Run, rank: map<string, nat>, st: St, at: string, item: Json, steps: nat)
    requires Ranked(run.nodes, rank) && steps < MAX_STEPS
    ensures var (st', out) := WalkStep(run, rank, st, at, item);
            Leads(run, st, At(Some(at), item, steps), st',
                  match out
                  case Done(next) => At(next, item, steps + 1)
                  case Halted(n, c) => Stopped(Halted(n, c))
                  case Raised(f) => Stopped(Raised(f)))
    decreases RankOf(rank, Some(at)), 3
  {
    var t := At(Some(at), item, steps);
    LeadsByOneMove(run, st, t, Go);
    if at in run.nodes {
      var node, entered := run.nodes[at], Entered(st, at);
      NodeIsASchedule(run, rank, entered, node, item, steps);
      var (st1, t1) := Begin(run, entered, node, item, steps);
      var (st2, out) := ExecuteNode(run, rank, entered, node, item);
      var (s, u) := Landing(st2, node, item, steps, out);
      LeadsOn(run, st, t, st1, t1, s, u);
    }
  }

  lemma {:induction false} NodeIsASchedule(run: Run, rank: map<string, nat>, st: St, node: Node, item: Json, steps: nat)
    requires Ranked(run.nodes, rank) && Known(run, node)
    ensures var (st1, t1) := Begin(run, st, node, item, steps);
            var (st', out) := ExecuteNode(run, rank, st, node, item);
            Lands(run, st1, t1, st', node, item, steps, out)
    decreases RankOf(rank, Some(node.id)), 2
  {
    if node.Parallel? {
      ForkIsASchedule(run, rank, st, Forked(node, item, steps, Kids(node.branches)), 0);
      assert node.branches[0..] == node.branches;
    } else if node.Foreach? {
      var list := run.language.resolve(Str(node.items), st.ctx, item);
      if list.Some? {
        var elements := Elements(list.value, node.maxItems);
        LoopIsASchedule(run, rank, st, node, item, steps, elements, |elements|, At(None, Null, 0));
      } else {
        LeadsNowhere(run, st, Stopped(Raised(UnresolvedReference)));
      }
    } else {
      LeafIsASchedule(run, rank, st, node, item, steps);
    }
  }

  // The branches from the k-th on, one after the other; those before are over.
  lemma {:induction false} ForkIsASchedule(run: Run, rank: map<string, nat>, st: St, fork: Task, k: nat)
    requires Ranked(run.nodes, rank) && fork.Forked? && Known(run, fork.node) && fork.node.Parallel?
    requires |fork.kids| == |fork.node.branches| && k <= |fork.kids|
    requires forall i :: 0 <= i < k ==> Over(fork.kids[i])
    requires forall i :: k <= i < |fork.kids| ==> fork.kids[i] == At(Some(fork.node.branches[i]), Null, 0)
    ensures Lands(run, st, fork, RunBranches(run, rank, st, fork.node, fork.node.branches[k..]),
                  fork.node, fork.item, fork.steps, Done(BranchNames(fork.node.branches)))
    decreases RankOf(rank, Some(fork.node.id)), 0, |fork.kids| - k
  {
    var branches := fork.node.branches;
    if k == |fork.kids| {
      LeadsByOneMove(run, st, fork, Go);
    } else {
      assert branches[k..][0] == branches[k] && branches[k..][1..] == branches[k + 1..];
      assert branches[k] in SuccessorTargets(fork.node);
      var last := WalkIsASchedule(run, rank, st, Some(branches[k]), Null, 0);
      var (st1, out) := Walk(run, rank, st, Some(branches[k]), Null, 0);
      var moves :| Play(run, st, fork.kids[k], moves) == Some((st1, Ending(Null, last, out)));
      var lifted := InsideFork(run, st, fork, k, moves);
      var fork1 := fork.(kids := fork.kids[k := Ending(Null, last, out)]);
      assert Leads(run, st, fork, st1, fork1);
      ForkIsASchedule(run, rank, st1, fork1, k + 1);
      var (s, u) := Landing(RunBranches(run, rank, st, fork.node, branches[k..]), fork.node, fork.item, fork.steps,
                            Done(BranchNames(branches)));
      LeadsOn(run, st, fork, st1, fork1, s, u);
    }
  }

  // The loop over the elements left, its body having just finished.
  lemma {:induction false} LoopIsASchedule(run: Run, rank: map<string, nat>, st: St, node: Node, item: Json, steps: nat,
                                           left: seq<Json>, count: nat, inner: Task)
    requires Ranked(run.nodes, rank) && Known(run, node) && node.Foreach?
    requires inner.At? && inner.id.None?
    ensures var loop := Looping(node, item, steps, left, count, inner);
            var (st', out) := RunBody(run, rank, st, node, left);
            match out
            case Done(_) => Lands(run, st, loop, st', node, item, steps, Done(Obj(map["count" := Int(count)])))
            case Halted(n, c) => Lands(run, st, loop, st', node, item, steps, Halted(n, c))
            case Raised(f) => Lands(run, st, loop, st', node, item, steps, Raised(f))
    decreases RankOf(rank, Some(node.id)), 0, |left|
  {
    var loop := Looping(node, item, steps, left, count, inner);
    LeadsByOneMove(run, st, loop, Go);
    if left != [] {
      assert node.body in SuccessorTargets(node);
      var bound := Obj(map[node.binder := left[0]]);
      var body := At(Some(node.body), bound, 0);
      var loop1 := Looping(node, item, steps, left[1..], count, body);
      var last := WalkIsASchedule(run, rank, st, Some(node.body), bound, 0);
      var (st1, out) := Walk(run, rank, st, Some(node.body), bound, 0);
      var moves :| Play(run, st, body, moves) == Some((st1, Ending(bound, last, out)));
      var lifted := InsideLoop(run, st, loop1, moves);
      var loop2 := loop1.(inner := Ending(bound, last, out));
      assert Leads(run, st, loop1, st1, loop2);
      LeadsOn(run, st, loop, st, loop1, st1, loop2);
      AfterBody(run, st, loop, st1, loop2, out);
      if out.Done? {
        LoopIsASchedule(run, rank, st1, node, item, steps, left[1..], count, Ending(bound, last, out));
        var (st', out') := RunBody(run, rank, st1, node, left[1..]);
        var shown := match out'
                     case Done(_) => Done(Obj(map["count" := Int(count)]))
                     case Halted(n, c) => Halted(n, c)
                     case Raised(f) => Raised(f);
        var (s, u) := Landing(st', node, item, steps, shown);
        LeadsOn(run, st, loop, st1, loop2, s, u);
      }
    }
  }

  // A body that did not finish stops the loop.
  lemma AfterBody(run: Run, st: St, loop: Task, st1: St, loop2: Task, out: Outcome<()>)
    requires loop2.Looping? && Leads(run, st, loop, st1, loop2)
    requires loop2.inner.Stopped? <==> !out.Done?
    requires !out.Done? ==> loop2.inner == Stopped(out)
    ensures !out.Done? ==> Leads(run, st, loop, st1, Stopped(out))
  {
    if !out.Done? {
      LeadsByOneMove(run, st1, loop2, Go);
      LeadsOn(run, st, loop, st1, loop2, st1, Stopped(out));
    }
  }
}
