/** Programs without branches: exactly which references can go missing, and the adapter by which they do. */
module StraightLines {
  import opened Values
  import opened References
  import opened Graph
  import opened Kahn
  import opened Dsl
  import opened Validator
  import opened Executor
  import opened Runs
  import opened DataFlow
  import opened Interleaving
  import opened Client
  import opened Shapes
  import opened Resolving

  // --- lines ------------------------------------------------------------------------------------------

  predicate Plain(node: Node) {
    node.Action? || node.Query? || node.Wait? || node.Notify?
  }

  // The nodes of the run in the order it takes them.
  ghost predicate IsLine(run: Run, line: seq<string>) {
    && Ordinary(run) && line != [] && |line| <= MAX_STEPS && Distinct(line) && line[0] == run.entry
    && forall k :: 0 <= k < |line| ==> Links(run, line, k)
  }

  predicate Links(run: Run, line: seq<string>, k: nat)
    requires k < |line|
  {
    && line[k] in run.nodes && Plain(run.nodes[line[k]])
    && run.nodes[line[k]].next == From(line, k + 1)
  }

  function From(line: seq<string>, k: nat): Option<string> {
    if k < |line| then Some(line[k]) else None
  }

  function NodeOn(run: Run, line: seq<string>, k: nat): Node
    requires k < |line| && Links(run, line, k)
  {
    run.nodes[line[k]]
  }

  // --- the check ----------------------------------------------------------------------------------------

  // The reference, read after the first k nodes, is always found.
  predicate AssuredAfter(run: Run, line: seq<string>, input: Option<Json>, k: nat, r: Reference)
    requires k <= |line|
  {
    r.segments != [] && r.source != "item" &&
    if r.source == "input" then input.Some? && Follow(input.value, r.segments).Some?
    else r.source in line[..k] && r.source in run.nodes && EntryOffers(run.onError, run.nodes[r.source], r.segments)
  }

  // The action at j is the first after the one at c: the first by whose refusal the one at c is undone.
  ghost predicate NextAction(run: Run, line: seq<string>, c: nat, j: nat)
    requires c < j < |line| && forall k :: 0 <= k < |line| ==> Links(run, line, k)
  {
    && NodeOn(run, line, c).Action? && NodeOn(run, line, j).Action?
    && forall k :: c < k < j ==> !NodeOn(run, line, k).Action?
  }

  ghost predicate ReadsAssured(run: Run, line: seq<string>, input: Option<Json>)
    requires IsLine(run, line)
  {
    forall k, r :: 0 <= k < |line| && r in Reads(NodeOn(run, line, k)) ==> AssuredAfter(run, line, input, k, r)
  }

  ghost predicate UndosAssured(run: Run, line: seq<string>, input: Option<Json>)
    requires IsLine(run, line)
  {
    forall c, j, r :: 0 <= c < j < |line| && NextAction(run, line, c, j) && r in UndoReads(NodeOn(run, line, c)) ==>
      AssuredAfter(run, line, input, j, r)
  }

  ghost predicate LineAssured(run: Run, line: seq<string>, input: Option<Json>)
    requires IsLine(run, line)
  {
    ReadsAssured(run, line, input) && (run.onError == Compensate ==> UndosAssured(run, line, input))
  }

  // --- the state along a line ---------------------------------------------------------------------------

  function Bindings(input: Option<Json>): set<string> {
    if input.Some? then {"input"} else {}
  }

  function ActionsAmong(run: Run, ids: seq<string>): seq<string> {
    if ids == [] then []
    else
      var last := ids[|ids| - 1];
      ActionsAmong(run, ids[..|ids| - 1]) + if IsAction(run, last) then [last] else []
  }

  // The first k nodes have recorded something they may record.
  ghost predicate Along(run: Run, line: seq<string>, input: Option<Json>, k: nat, st: St)
    requires k <= |line|
  {
    && st.ctx.Keys == Members(line[..k]) + Bindings(input)
    && (input.Some? ==> st.ctx["input"] == input.value)
    && Shaped(run, st.ctx)
    && (run.onError == Compensate ==> st.committed == ActionsAmong(run, line[..k]))
  }

  lemma AssuredIsThere(run: Run, line: seq<string>, input: Option<Json>, k: nat, st: St, r: Reference)
    requires k <= |line| && Along(run, line, input, k, st) && AssuredAfter(run, line, input, k, r)
    ensures Lookup(r, st.ctx, Null).Some?
  {
    if r.source != "input" {
      assert r.source in Members(line[..k]);
      EntryIsFollowed(run, st.ctx, r.source, r.segments);
    }
  }

  // What the node sends or shows.
  function Payload(node: Node): Json
    requires Plain(node)
  {
    match node
    case Action(_, _, args, _, _, _) => Obj(args)
    case Query(_, _, args, _, _) => Obj(args)
    case Notify(_, message, _) => Obj(message)
    case Wait(_, _) => Null
  }

  lemma PayloadIsRead(node: Node)
    requires Plain(node)
    ensures RefsIn(Payload(node)) == Reads(node)
  {
  }

  lemma MembersOfNext(line: seq<string>, k: nat)
    requires k < |line|
    ensures Members(line[..k + 1]) == Members(line[..k]) + {line[k]}
  {
    assert line[..k + 1] == line[..k] + [line[k]];
    forall x ensures x in Members(line[..k + 1]) <==> x in Members(line[..k]) || x == line[k] {
      assert x in Members(line[..k + 1]) <==> x in line[..k + 1];
    }
  }

  lemma ActionsOfNext(run: Run, line: seq<string>, k: nat)
    requires k < |line|
    ensures ActionsAmong(run, line[..k + 1]) == 
            ActionsAmong(run, line[..k]) + if IsAction(run, line[k]) then [line[k]] else []
  {
    assert line[..k + 1][..k] == line[..k] && line[..k + 1][k] == line[k];
  }

  // --- enough: whatever the adapter answers -------------------------------------------------------------

  // One round of the walk: on to the next node, or an end that is not for want of a reference.
  ghost predicate GoesOn(run: Run, line: seq<string>, input: Option<Json>, k: nat, st: St, out: Outcome<Option<string>>)
    requires k < |line|
  {
    match out
    case Done(next) => next == From(line, k + 1) && Along(run, line, input, k + 1, st)
    case Raised(f) => f != UnresolvedReference
    case Halted(_, _) =>
      run.onError == Compensate && IsAction(run, line[k]) && Along(run, line, input, k, st)
  }

  lemma RecordedAlong(run: Run, line: seq<string>, input: Option<Json>, k: nat, st: St, st1: St, output: Json)
    requires IsLine(run, line) && k < |line| && Along(run, line, input, k, st) && st1.ctx == st.ctx
    requires CanRecord(run.onError, NodeOn(run, line, k), output)
    requires run.onError == Compensate ==> st1.committed == ActionsAmong(run, line[..k + 1])
    ensures Along(run, line, input, k + 1, Recorded(st1, line[k], output))
  {
    var st' := Recorded(st1, line[k], output);
    MembersOfNext(line, k);
    assert Links(run, line, k);
    assert st'.ctx.Keys == Members(line[..k + 1]) + Bindings(input);
    forall id | id in st'.ctx && id in run.nodes
      ensures exists o :: CanRecord(run.onError, run.nodes[id], o) && st'.ctx[id] == Entry(o)
    {
      if id == line[k] {
        assert st'.ctx[id] == Entry(output);
      } else {
        assert st'.ctx[id] == st.ctx[id];
      }
    }
  }

  lemma PayloadResolves(run: Run, line: seq<string>, input: Option<Json>, k: nat, st: St)
    requires IsLine(run, line) && ReadsAssured(run, line, input) && k < |line| && Along(run, line, input, k, st)
    ensures run.language.resolve(Payload(NodeOn(run, line, k)), st.ctx, Null).Some?
  {
    var node := NodeOn(run, line, k);
    PayloadIsRead(node);
    forall r | r in RefsIn(Payload(node)) ensures Lookup(r, st.ctx, Null).Some? {
      AssuredIsThere(run, line, input, k, st, r);
    }
    ResolvesExactlyWhenAllDo(Payload(node), st.ctx, Null);
  }

  // What executing a plain node whose data resolves comes to.
  ghost predicate Executed(run: Run, node: Node, st: St, r: (St, Outcome<Json>)) {
    && r.0.ctx == st.ctx
    && match r.1
       case Done(output) =>
         CanRecord(run.onError, node, output) &&
         (run.onError == Compensate ==> r.0.committed == st.committed + if node.Action? then [node.id] else [])
       case Raised(f) => f != UnresolvedReference
       case Halted(_, _) => run.onError == Compensate && node.Action? && r.0.committed == st.committed
  }

  lemma PlainExecutes(run: Run, rank: map<string, nat>, node: Node, st: St)
    requires Ranked(run.nodes, rank) && Known(run, node) && Plain(node) && LetThrough(run.world)
    requires node.Wait? || run.language.resolve(Payload(node), st.ctx, Null).Some?
    ensures Executed(run, node, st, ExecuteNode(run, rank, st, node, Null))
  {
    if node.Action? {
      ActionExecutes(run, node, st);
    }
  }

  lemma ActionExecutes(run: Run, node: Node, st: St)
    requires node.Action? && run.language.resolve(Payload(node), st.ctx, Null).Some? && LetThrough(run.world)
    ensures Executed(run, node, st, DoAction(run, st, node, Null))
  {
    var args := run.language.resolve(Obj(node.args), st.ctx, Null).value;
    var reply := run.world.propose(|st.calls|, node.verb, args);
    var st1 := Called(st, ProposeCall(node.verb, args));
    if reply.Proposal? {
      if reply.isRefusal || reply.id == "" {
        if run.onError != Compensate {
          RefusedIsRecorded(run, node, if reply.code.Some? then reply.code.value else "UNKNOWN");
        }
      } else {
        var outcome := run.world.commit(|st1.calls|, reply.id, IdemKey(run.runId, node.id));
        if !outcome.Lost? {
          assert ProposeAnswer(reply) && Settles(outcome, reply.id);
          SettledIsRecorded(run, node, outcome, reply.id);
        }
      }
    }
  }

  lemma RoundGoesOn(run: Run, rank: map<string, nat>, line: seq<string>, input: Option<Json>, k: nat, st: St)
    requires Ranked(run.nodes, rank) && IsLine(run, line) && ReadsAssured(run, line, input)
    requires k < |line| && Along(run, line, input, k, st)
    ensures var (st', out) := WalkStep(run, rank, st, line[k], Null);
            GoesOn(run, line, input, k, st', out)
  {
    var node, entered := NodeOn(run, line, k), Entered(st, line[k]);
    PayloadResolves(run, line, input, k, st);
    PlainExecutes(run, rank, node, entered);
    var (st1, out) := ExecuteNode(run, rank, entered, node, Null);
    if out.Done? {
      ActionsOfNext(run, line, k);
      RecordedAlong(run, line, input, k, st, st1, out.value);
    }
  }

  lemma {:induction false} NextActionUpTo(run: Run, line: seq<string>, c: nat, h: nat) returns (j: nat)
    requires IsLine(run, line) && c < h < |line| && NodeOn(run, line, c).Action? && NodeOn(run, line, h).Action?
    ensures c < j <= h && NextAction(run, line, c, j)
    decreases h
  {
    if k :| c < k < h && NodeOn(run, line, k).Action? {
      j := NextActionUpTo(run, line, c, k);
    } else {
      j := h;
    }
  }

  lemma LaterIsAssured(run: Run, line: seq<string>, input: Option<Json>, j: nat, h: nat, r: Reference)
    requires j <= h <= |line| && AssuredAfter(run, line, input, j, r)
    ensures AssuredAfter(run, line, input, h, r)
  {
    assert line[..j] <= line[..h];
  }

  lemma UndoAtHaltFinds(run: Run, line: seq<string>, input: Option<Json>, c: nat, h: nat, st: St)
    requires IsLine(run, line) && UndosAssured(run, line, input) && c < h < |line|
    requires NodeOn(run, line, c).Action? && NodeOn(run, line, h).Action? && Along(run, line, input, h, st)
    ensures var (st', out) := UndoOne(run, st, line[c]);
            out != Raised(UnresolvedReference) && st'.ctx == st.ctx && st'.committed == st.committed
  {
    var node := NodeOn(run, line, c);
    if node.undo.Some? {
      var args := Obj(node.undo.value.args);
      var j := NextActionUpTo(run, line, c, h);
      forall r | r in RefsIn(args) ensures Lookup(r, st.ctx, Null).Some? {
        assert r in UndoReads(node);
        LaterIsAssured(run, line, input, j, h, r);
        AssuredIsThere(run, line, input, h, st, r);
      }
      ResolvesExactlyWhenAllDo(args, st.ctx, Null);
    }
  }

  lemma {:induction false} ActionsAreOnTheLine(run: Run, ids: seq<string>, id: string)
    requires id in ActionsAmong(run, ids)
    ensures id in ids && IsAction(run, id)
  {
    if id !in ActionsAmong(run, ids[..|ids| - 1]) {
      assert id == ids[|ids| - 1];
    } else {
      ActionsAreOnTheLine(run, ids[..|ids| - 1], id);
    }
  }

  lemma {:induction false} UnwindAtHaltFinds(run: Run, line: seq<string>, input: Option<Json>, h: nat, st: St,
                                             left: seq<string>, undone: seq<string>)
    requires IsLine(run, line) && UndosAssured(run, line, input) && h < |line| && NodeOn(run, line, h).Action?
    requires Along(run, line, input, h, st) && forall id :: id in left ==> id in ActionsAmong(run, line[..h])
    ensures Unwind(run, st, left, undone).1 != Raised(UnresolvedReference)
    decreases |left|
  {
    if left != [] {
      var id := left[|left| - 1];
      assert id in left;
      ActionsAreOnTheLine(run, line[..h], id);
      var c :| 0 <= c < h && line[..h][c] == id;
      UndoAtHaltFinds(run, line, input, c, h, st);
      UnwindAtHaltFinds(run, line, input, h, UndoOne(run, st, id).0, left[..|left| - 1], undone + [id]);
    }
  }

  // From its k-th node on, the run does not end for want of a reference.
  ghost predicate EndsWell(run: Run, rank: map<string, nat>, line: seq<string>, k: nat, st: St, steps: nat)
    requires Ranked(run.nodes, rank)
  {
    var (st', out) := Walk(run, rank, st, From(line, k), Null, steps);
    Concludes(run, st', out)
  }

  ghost predicate Ready(run: Run, rank: map<string, nat>, line: seq<string>, input: Option<Json>) {
    Ranked(run.nodes, rank) && IsLine(run, line) && LineAssured(run, line, input)
  }

  lemma {:induction false} LineNeverMisses(run: Run, rank: map<string, nat>, line: seq<string>, input: Option<Json>,
                                           k: nat, st: St, steps: nat)
    requires Ready(run, rank, line, input)
    requires k <= |line| && Along(run, line, input, k, st)
    ensures EndsWell(run, rank, line, k, st, steps)
    decreases |line| - k
  {
    var more, st1 := OneRound(run, rank, line, input, k, st, steps);
    if more {
      LineNeverMisses(run, rank, line, input, k + 1, st1, steps + 1);
    }
  }

  lemma OneRound(run: Run, rank: map<string, nat>, line: seq<string>, input: Option<Json>, k: nat, st: St, steps: nat)
    returns (more: bool, st1: St)
    requires Ready(run, rank, line, input) && k <= |line| && Along(run, line, input, k, st)
    ensures more ==> k < |line| && Along(run, line, input, k + 1, st1)
    ensures more && EndsWell(run, rank, line, k + 1, st1, steps + 1) ==> EndsWell(run, rank, line, k, st, steps)
    ensures !more ==> EndsWell(run, rank, line, k, st, steps)
  {
    more, st1 := false, st;
    if k < |line| && steps < MAX_STEPS {
      RoundGoesOn(run, rank, line, input, k, st);
      var (st', out) := WalkStep(run, rank, st, line[k], Null);
      more, st1 := out.Done?, st';
      if !more || EndsWell(run, rank, line, k + 1, st1, steps + 1) {
        RoundEndsWell(run, rank, line, input, k, st, steps);
      }
    }
  }

  lemma RoundEndsWell(run: Run, rank: map<string, nat>, line: seq<string>, input: Option<Json>, k: nat, st: St,
                      steps: nat)
    requires Ready(run, rank, line, input) && k < |line| && steps < MAX_STEPS
    requires var (st1, out) := WalkStep(run, rank, st, line[k], Null);
             GoesOn(run, line, input, k, st1, out) && (out.Done? ==> EndsWell(run, rank, line, k + 1, st1, steps + 1))
    ensures EndsWell(run, rank, line, k, st, steps)
  {
    WalkUnfolds(run, rank, st, line[k], Null, steps);
    var (st1, out) := WalkStep(run, rank, st, line[k], Null);
    if out.Halted? {
      HaltConcludes(run, line, input, k, st1, out.node, out.code);
    }
  }

  lemma WalkUnfolds(run: Run, rank: map<string, nat>, st: St, at: string, item: Json, steps: nat)
    requires Ranked(run.nodes, rank) && steps < MAX_STEPS
    ensures var (st1, out) := WalkStep(run, rank, st, at, item);
            Walk(run, rank, st, Some(at), item, steps) ==
            match out
            case Halted(n, c) => (st1, Halted(n, c))
            case Raised(f) => (st1, Raised(f))
            case Done(next) => Walk(run, rank, st1, next, item, steps + 1)
  {
  }

  // The run does not end for want of a reference.
  ghost predicate Concludes(run: Run, st: St, out: Outcome<()>) {
    Conclude(run, st, out).1 != Raised(UnresolvedReference)
  }

  lemma HaltConcludes(run: Run, line: seq<string>, input: Option<Json>, h: nat, st: St, node: string, code: string)
    requires IsLine(run, line) && LineAssured(run, line, input) && h < |line| && NodeOn(run, line, h).Action?
    requires run.onError == Compensate && Along(run, line, input, h, st)
    ensures Concludes(run, st, Halted(node, code))
  {
    UnwindAtHaltFinds(run, line, input, h, st, st.committed, []);
  }

  // --- and needed: an adapter by which a reference goes missing -------------------------------------------

  const REFUSAL := "UPSTREAM_UNAVAILABLE"

  // Refuses every proposal, or none before the given call; data is empty, and commits lack the path.
  function Contrary(refuse: bool, from: Option<nat>, path: seq<Segment>): World {
    World((n, verb, args) =>
            if refuse || (from.Some? && n >= from.value) then Proposal(true, "", Some(REFUSAL))
            else Proposal(false, SOME_ID, None),
          (n, proposal, key) => if IsProposalId(proposal) && |key| >= 8 then Lacking(path) else CommitReply.Lost,
          (n, verb, args) => Data(Obj(map[])),
          (n, asked) => StatusReply.Lost)
  }

  lemma ContraryIsLetThrough(refuse: bool, from: Option<nat>, path: seq<Segment>)
    ensures LetThrough(Contrary(refuse, from, path))
  {
    SomeIdIsOne();
    LackingSettles(path);
  }

  // What a plain node then records.
  function Meagre(node: Node, refuse: bool, path: seq<Segment>): Json {
    if node.Query? then Obj(map[])
    else if !node.Action? then Null
    else if refuse then Refused(REFUSAL) else StateOutput(Lacking(path), SOME_ID)
  }

  function Inner(path: seq<Segment>): seq<Segment> {
    if path == [] then [] else path[1..]
  }

  // Whether refusing is what denies the path.
  predicate Denied(onError: OnError, path: seq<Segment>) {
    onError != Compensate && path != [] && path[0] != Field("refused")
  }

  lemma MeagreDenies(run: Run, node: Node, path: seq<Segment>)
    requires Plain(node) && path != [] && !EntryOffers(run.onError, node, path)
    ensures Follow(Entry(Meagre(node, Denied(run.onError, Inner(path)), Inner(path))), path) == None
  {
    var refuse := Denied(run.onError, Inner(path));
    var output := Meagre(node, refuse, Inner(path));
    if path[0] != Field("output") {
      if path[0].Index? {
        NoIndexInFields(Entry(output), path);
      } else {
        FollowField(Entry(output), path, path[0].name);
      }
    } else {
      FollowField(Entry(output), path, "output");
      InnerIsDenied(run, node, Inner(path));
    }
  }

  lemma InnerIsDenied(run: Run, node: Node, path: seq<Segment>)
    requires Plain(node) && !Offers(run.onError, node, path)
    ensures Follow(Meagre(node, Denied(run.onError, path), path), path) == None
  {
    if node.Query? {
      NothingInside(Obj(map[]), path);
    } else if !node.Action? {
      NothingInside(Null, path);
    } else if Denied(run.onError, path) {
      RefusalLacks(path, REFUSAL);
    } else {
      LackingLacks(path);
    }
  }

  function CallCount(run: Run, ids: seq<string>): nat {
    if ids == [] then 0
    else
      var last := ids[|ids| - 1];
      CallCount(run, ids[..|ids| - 1]) +
      if last !in run.nodes then 0
      else if run.nodes[last].Action? then 2
      else if run.nodes[last].Query? then 1 else 0
  }

  // The first k nodes have recorded what the contrary adapter gives.
  ghost predicate Holding(run: Run, line: seq<string>, input: Option<Json>, k: nat, ctx: Context, refuse: bool,
                          path: seq<Segment>)
    requires k <= |line|
  {
    && ctx.Keys == Members(line[..k]) + Bindings(input)
    && (input.Some? ==> ctx["input"] == input.value)
    && forall id :: id in run.nodes && id in ctx ==> ctx[id] == Entry(Meagre(run.nodes[id], refuse, path))
  }

  ghost predicate AgainstIt(run: Run, line: seq<string>, input: Option<Json>, k: nat, st: St, refuse: bool,
                            path: seq<Segment>)
    requires k <= |line|
  {
    && Holding(run, line, input, k, st.ctx, refuse, path)
    && (!refuse ==> |st.calls| == CallCount(run, line[..k]) && st.committed == ActionsAmong(run, line[..k]))
  }

  lemma NoBindingOnTheLine(run: Run, line: seq<string>, k: nat)
    requires IsLine(run, line) && k <= |line|
    ensures "input" !in Members(line[..k])
  {
    forall i | 0 <= i < k ensures line[..k][i] != "input" {
      assert Links(run, line, i);
    }
  }

  lemma UnassuredIsMissing(run: Run, line: seq<string>, input: Option<Json>, k: nat, ctx: Context, r: Reference)
    requires IsLine(run, line) && k <= |line|
    requires Holding(run, line, input, k, ctx, Denied(run.onError, Inner(r.segments)), Inner(r.segments))
    requires r.segments != [] && !AssuredAfter(run, line, input, k, r)
    ensures Lookup(r, ctx, Null) == None
  {
    if r.source == "item" {
      NothingInside(Null, r.segments);
    } else if r.source == "input" {
      NoBindingOnTheLine(run, line, k);
    } else if r.source in ctx {
      assert r.source in Members(line[..k]);
      var i :| 0 <= i < k && line[..k][i] == r.source;
      assert Links(run, line, i);
      MeagreDenies(run, run.nodes[r.source], r.segments);
    }
  }

  // The adapter's answers, all along.
  ghost predicate Faces(run: Run, refuse: bool, from: Option<nat>, path: seq<Segment>) {
    && run.world == Contrary(refuse, from, path) && LongKeys(run)
    && (refuse ==> run.onError != Compensate && from.None?)
  }

  // The call the node makes is still answered kindly.
  predicate InTime(run: Run, node: Node, st: St, from: Option<nat>) {
    node.Action? && from.Some? ==> |st.calls| < from.value
  }

  // The walk has stopped for want of a reference, or gone on to the next node.
  ghost predicate MissesOrGoesOn(run: Run, line: seq<string>, input: Option<Json>, k: nat, refuse: bool,
                                 path: seq<Segment>, r: (St, Outcome<Option<string>>))
    requires k < |line|
  {
    r.1 == Raised(UnresolvedReference) ||
    (r.1 == Done(From(line, k + 1)) && AgainstIt(run, line, input, k + 1, r.0, refuse, path))
  }

  lemma ContraryExecutes(run: Run, rank: map<string, nat>, node: Node, st: St, refuse: bool, from: Option<nat>,
                         path: seq<Segment>)
    requires Ranked(run.nodes, rank) && Known(run, node) && Plain(node)
    requires Faces(run, refuse, from, path) && InTime(run, node, st, from)
    requires node.Wait? || run.language.resolve(Payload(node), st.ctx, Null).Some?
    ensures var (st', out) := ExecuteNode(run, rank, st, node, Null);
            && st'.ctx == st.ctx && out == Done(Meagre(node, refuse, path))
            && (!refuse ==> |st'.calls| == |st.calls| + (if node.Action? then 2 else if node.Query? then 1 else 0))
            && (!refuse ==> st'.committed == st.committed + if node.Action? then [node.id] else [])
  {
    SomeIdIsOne();
    assert |IdemKey(run.runId, node.id)| >= 8;
  }

  lemma CallsOfNext(run: Run, line: seq<string>, k: nat)
    requires IsLine(run, line) && k < |line|
    ensures CallCount(run, line[..k + 1]) ==
            CallCount(run, line[..k]) +
            (if NodeOn(run, line, k).Action? then 2 else if NodeOn(run, line, k).Query? then 1 else 0)
  {
    assert line[..k + 1][..k] == line[..k] && line[..k + 1][k] == line[k];
    assert Links(run, line, k);
  }

  lemma RecordedAgainstIt(run: Run, line: seq<string>, input: Option<Json>, k: nat, st: St, st1: St, refuse: bool,
                          path: seq<Segment>)
    requires IsLine(run, line) && k < |line| && AgainstIt(run, line, input, k, st, refuse, path) && st1.ctx == st.ctx
    requires !refuse ==>
               |st1.calls| == CallCount(run, line[..k + 1]) && st1.committed == ActionsAmong(run, line[..k + 1])
    ensures AgainstIt(run, line, input, k + 1, Recorded(st1, line[k], Meagre(NodeOn(run, line, k), refuse, path)),
                      refuse, path)
  {
    MembersOfNext(line, k);
    assert Links(run, line, k);
    var st' := Recorded(st1, line[k], Meagre(NodeOn(run, line, k), refuse, path));
    assert st'.ctx.Keys == Members(line[..k + 1]) + Bindings(input);
  }

  lemma ContraryRound(run: Run, rank: map<string, nat>, line: seq<string>, input: Option<Json>, k: nat, st: St,
                      refuse: bool, from: Option<nat>, path: seq<Segment>)
    requires Ranked(run.nodes, rank) && IsLine(run, line) && Faces(run, refuse, from, path)
    requires k < |line| && AgainstIt(run, line, input, k, st, refuse, path) &&
             InTime(run, NodeOn(run, line, k), st, from)
    ensures MissesOrGoesOn(run, line, input, k, refuse, path, WalkStep(run, rank, st, line[k], Null))
  {
    var node, entered := NodeOn(run, line, k), Entered(st, line[k]);
    if node.Wait? || run.language.resolve(Payload(node), st.ctx, Null).Some? {
      ContraryExecutes(run, rank, node, entered, refuse, from, path);
      CallsOfNext(run, line, k);
      ActionsOfNext(run, line, k);
      RecordedAgainstIt(run, line, input, k, st, ExecuteNode(run, rank, entered, node, Null).0, refuse, path);
    } else {
      MissingRaises(run, rank, node, entered);
    }
  }

  lemma MissingRaises(run: Run, rank: map<string, nat>, node: Node, st: St)
    requires Ranked(run.nodes, rank) && Known(run, node) && Plain(node) && !node.Wait?
    requires run.language.resolve(Payload(node), st.ctx, Null) == None
    ensures ExecuteNode(run, rank, st, node, Null).1 == Raised(UnresolvedReference)
  {
  }

  lemma {:induction false} ReferencesHavePaths(v: Json, r: Reference)
    requires r in RefsIn(v)
    ensures r.segments != []
  {
    match v
    case Obj(fields) =>
      var k :| k in fields && r in RefsIn(fields[k]);
      ReferencesHavePaths(fields[k], r);
    case Arr(items) =>
      var i :| 0 <= i < |items| && r in RefsIn(items[i]);
      ReferencesHavePaths(items[i], r);
    case Str(text) => ParsedIsWellFormed(text);
  }

  // The unassured reference, met by the adapter that is against it.
  ghost predicate Opposed(run: Run, line: seq<string>, input: Option<Json>, k: nat, refuse: bool, r: Reference)
    requires k <= |line|
  {
    r.segments != [] && !AssuredAfter(run, line, input, k, r) && refuse == Denied(run.onError, Inner(r.segments))
  }

  lemma OpposedDataIsMissing(run: Run, line: seq<string>, input: Option<Json>, k: nat, ctx: Context, refuse: bool,
                             v: Json, r: Reference)
    requires IsLine(run, line) && k <= |line| && Opposed(run, line, input, k, refuse, r) && r in RefsIn(v)
    requires Holding(run, line, input, k, ctx, refuse, Inner(r.segments))
    ensures run.language.resolve(v, ctx, Null) == None
  {
    UnassuredIsMissing(run, line, input, k, ctx, r);
    ResolvesExactlyWhenAllDo(v, ctx, Null);
  }

  // The run ends for want of a reference.
  ghost predicate Misses(run: Run, st: St, out: Outcome<()>) {
    Conclude(run, st, out).1 == Raised(UnresolvedReference)
  }

  ghost predicate EndsMissing(run: Run, rank: map<string, nat>, line: seq<string>, k: nat, st: St, steps: nat)
    requires Ranked(run.nodes, rank)
  {
    var (st', out) := Walk(run, rank, st, From(line, k), Null, steps);
    Misses(run, st', out)
  }

  lemma RoundEndsMissing(run: Run, rank: map<string, nat>, line: seq<string>, k: nat, st: St, steps: nat)
    requires Ranked(run.nodes, rank) && k < |line| && steps < MAX_STEPS
    requires var (st1, out) := WalkStep(run, rank, st, line[k], Null);
             out == Raised(UnresolvedReference) ||
             (out == Done(From(line, k + 1)) && EndsMissing(run, rank, line, k + 1, st1, steps + 1))
    ensures EndsMissing(run, rank, line, k, st, steps)
  {
    WalkUnfolds(run, rank, st, line[k], Null, steps);
  }

  lemma {:induction false} ReadGoesMissing(run: Run, rank: map<string, nat>, line: seq<string>, input: Option<Json>,
                                           k: nat, st: St, f: nat, refuse: bool, r: Reference)
    requires Ranked(run.nodes, rank) && IsLine(run, line) && Faces(run, refuse, None, Inner(r.segments))
    requires k <= f < |line| && r in Reads(NodeOn(run, line, f)) && Opposed(run, line, input, f, refuse, r)
    requires AgainstIt(run, line, input, k, st, refuse, Inner(r.segments))
    ensures EndsMissing(run, rank, line, k, st, k)
    decreases f - k
  {
    if k == f {
      var node, entered := NodeOn(run, line, f), Entered(st, line[f]);
      PayloadIsRead(node);
      OpposedDataIsMissing(run, line, input, f, st.ctx, refuse, Payload(node), r);
      MissingRaises(run, rank, node, entered);
    } else {
      ContraryRound(run, rank, line, input, k, st, refuse, None, Inner(r.segments));
      var (st1, out) := WalkStep(run, rank, st, line[k], Null);
      if out.Done? {
        ReadGoesMissing(run, rank, line, input, k + 1, st1, f, refuse, r);
      }
    }
    RoundEndsMissing(run, rank, line, k, st, k);
  }

  lemma {:induction false} CallsGrow(run: Run, line: seq<string>, k: nat, j: nat)
    requires IsLine(run, line) && k <= j <= |line|
    ensures CallCount(run, line[..k]) <= CallCount(run, line[..j])
    decreases j
  {
    if k < j {
      CallsGrow(run, line, k, j - 1);
      CallsOfNext(run, line, j - 1);
    }
  }

  lemma {:induction false} LastActionIsLast(run: Run, line: seq<string>, c: nat, m: nat)
    requires IsLine(run, line) && c < m <= |line| && NodeOn(run, line, c).Action?
    requires forall k :: c < k < m ==> !NodeOn(run, line, k).Action?
    ensures ActionsAmong(run, line[..m]) != [] &&
            ActionsAmong(run, line[..m])[|ActionsAmong(run, line[..m])| - 1] == line[c]
    decreases m
  {
    ActionsOfNext(run, line, m - 1);
    assert Links(run, line, m - 1);
    if m - 1 > c {
      LastActionIsLast(run, line, c, m - 1);
      assert !NodeOn(run, line, m - 1).Action?;
      assert ActionsAmong(run, line[..m]) == ActionsAmong(run, line[..m - 1]);
    }
  }

  lemma {:induction false} UndoGoesMissing(run: Run, rank: map<string, nat>, line: seq<string>, input: Option<Json>,
                                           k: nat, st: St, c: nat, j: nat, r: Reference)
    requires Ranked(run.nodes, rank) && IsLine(run, line) && run.onError == Compensate
    requires c < j < |line| && NextAction(run, line, c, j) && k <= j
    requires r in UndoReads(NodeOn(run, line, c)) && Opposed(run, line, input, j, false, r)
    requires Faces(run, false, Some(CallCount(run, line[..j])), Inner(r.segments))
    requires AgainstIt(run, line, input, k, st, false, Inner(r.segments))
    ensures EndsMissing(run, rank, line, k, st, k)
    decreases j - k
  {
    if k == j {
      RefusedAtLast(run, rank, line, input, st, c, j, r);
    } else {
      var from := CallCount(run, line[..j]);
      CallsOfNext(run, line, k);
      CallsGrow(run, line, k + 1, j);
      ContraryRound(run, rank, line, input, k, st, false, Some(from), Inner(r.segments));
      var (st1, out) := WalkStep(run, rank, st, line[k], Null);
      if out.Done? {
        UndoGoesMissing(run, rank, line, input, k + 1, st1, c, j, r);
      }
      RoundEndsMissing(run, rank, line, k, st, k);
    }
  }

  // The refusal that sets off the undoing of the action before it.
  lemma RefusedAtLast(run: Run, rank: map<string, nat>, line: seq<string>, input: Option<Json>, st: St, c: nat, j: nat,
                      r: Reference)
    requires Ranked(run.nodes, rank) && IsLine(run, line) && run.onError == Compensate
    requires c < j < |line| && NextAction(run, line, c, j)
    requires r in UndoReads(NodeOn(run, line, c)) && Opposed(run, line, input, j, false, r)
    requires Faces(run, false, Some(CallCount(run, line[..j])), Inner(r.segments))
    requires AgainstIt(run, line, input, j, st, false, Inner(r.segments))
    ensures EndsMissing(run, rank, line, j, st, j)
  {
    var node, entered := NodeOn(run, line, j), Entered(st, line[j]);
    WalkUnfolds(run, rank, st, line[j], Null, j);
    if run.language.resolve(Payload(node), st.ctx, Null) == None {
      MissingRaises(run, rank, node, entered);
    } else {
      var st1 := DoAction(run, entered, node, Null).0;
      assert DoAction(run, entered, node, Null).1 == Halted(node.id, REFUSAL);
      LastActionIsLast(run, line, c, j);
      UndoRaises(run, line, input, st1, c, j, r);
    }
  }

  lemma UndoRaises(run: Run, line: seq<string>, input: Option<Json>, st: St, c: nat, j: nat, r: Reference)
    requires IsLine(run, line) && run.onError == Compensate && c < j < |line|
    requires r in UndoReads(NodeOn(run, line, c)) && Opposed(run, line, input, j, false, r)
    requires st.committed != [] && st.committed[|st.committed| - 1] == line[c]
    requires Holding(run, line, input, j, st.ctx, false, Inner(r.segments))
    ensures Unwind(run, st, st.committed, []).1 == Raised(UnresolvedReference)
  {
    var node := NodeOn(run, line, c);
    OpposedDataIsMissing(run, line, input, j, st.ctx, false, Obj(node.undo.value.args), r);
    assert Links(run, line, c);
    UndoOneRaises(run, st, line[c]);
    UnwindRaises(run, st, st.committed);
  }

  lemma UnwindRaises(run: Run, st: St, left: seq<string>)
    requires left != [] && UndoOne(run, st, left[|left| - 1]).1 == Raised(UnresolvedReference)
    ensures Unwind(run, st, left, []).1 == Raised(UnresolvedReference)
  {
  }

  lemma UndoOneRaises(run: Run, st: St, id: string)
    requires id in run.nodes && run.nodes[id].Action? && run.nodes[id].undo.Some?
    requires run.language.resolve(Obj(run.nodes[id].undo.value.args), st.ctx, Null) == None
    ensures UndoOne(run, st, id).1 == Raised(UnresolvedReference)
  {
  }

  // --- both ways ----------------------------------------------------------------------------------------

  lemma StartIsAlong(run: Run, line: seq<string>, input: Option<Json>)
    requires IsLine(run, line)
    ensures Along(run, line, input, 0, InitialSt(input))
    ensures forall refuse, path :: AgainstIt(run, line, input, 0, InitialSt(input), refuse, path)
  {
    assert line[..0] == [];
  }

  /** In a program without branches, when every reference is assured no run ends for want of one, whatever
      the adapter answers; the undoing after a refusal is included. */
  lemma AssuredLinesNeverMiss(run: Run, rank: map<string, nat>, line: seq<string>, input: Option<Json>)
    requires Ready(run, rank, line, input)
    ensures RunProgram(run, rank, input).1 != Raised(UnresolvedReference)
  {
    StartIsAlong(run, line, input);
    LineNeverMisses(run, rank, line, input, 0, InitialSt(input), 0);
  }

  function Against(run: Run, world: World): Run {
    run.(world := world)
  }

  lemma SameLine(run: Run, line: seq<string>, world: World)
    requires IsLine(run, line) && LetThrough(world)
    ensures IsLine(Against(run, world), line)
  {
    forall k | 0 <= k < |line| ensures Links(Against(run, world), line, k) {
      assert Links(run, line, k);
    }
  }

  /** And when one is not, there is an adapter, all of whose answers the client lets through, against which the
      run ends for want of a reference. */
  lemma UnassuredLinesCanMiss(run: Run, rank: map<string, nat>, line: seq<string>, input: Option<Json>)
    returns (world: World)
    requires Ranked(run.nodes, rank) && IsLine(run, line) && LongKeys(run) && !LineAssured(run, line, input)
    ensures LetThrough(world)
    ensures RunProgram(Against(run, world), rank, input).1 == Raised(UnresolvedReference)
  {
    StartIsAlong(run, line, input);
    if !ReadsAssured(run, line, input) {
      var f, r :| 0 <= f < |line| && r in Reads(NodeOn(run, line, f)) && !AssuredAfter(run, line, input, f, r);
      world := UnassuredReadCanMiss(run, rank, line, input, f, r);
    } else {
      var c, j, r :| 0 <= c < j < |line| && NextAction(run, line, c, j) && r in UndoReads(NodeOn(run, line, c)) &&
                     !AssuredAfter(run, line, input, j, r);
      world := UnassuredUndoCanMiss(run, rank, line, input, c, j, r);
    }
  }

  lemma UnassuredReadCanMiss(run: Run, rank: map<string, nat>, line: seq<string>, input: Option<Json>, f: nat,
                             r: Reference)
    returns (world: World)
    requires Ranked(run.nodes, rank) && IsLine(run, line) && LongKeys(run) && f < |line|
    requires r in Reads(NodeOn(run, line, f)) && !AssuredAfter(run, line, input, f, r)
    ensures LetThrough(world)
    ensures RunProgram(Against(run, world), rank, input).1 == Raised(UnresolvedReference)
  {
    PayloadIsRead(NodeOn(run, line, f));
    ReferencesHavePaths(Payload(NodeOn(run, line, f)), r);
    var refuse := Denied(run.onError, Inner(r.segments));
    world := Contrary(refuse, None, Inner(r.segments));
    ContraryIsLetThrough(refuse, None, Inner(r.segments));
    var against := Against(run, world);
    SameLine(run, line, world);
    StartIsAlong(against, line, input);
    ReadGoesMissing(against, rank, line, input, 0, InitialSt(input), f, refuse, r);
  }

  lemma UnassuredUndoCanMiss(run: Run, rank: map<string, nat>, line: seq<string>, input: Option<Json>, c: nat, j: nat,
                             r: Reference)
    returns (world: World)
    requires Ranked(run.nodes, rank) && IsLine(run, line) && LongKeys(run) && run.onError == Compensate
    requires c < j < |line| && NextAction(run, line, c, j)
    requires r in UndoReads(NodeOn(run, line, c)) && !AssuredAfter(run, line, input, j, r)
    ensures LetThrough(world)
    ensures RunProgram(Against(run, world), rank, input).1 == Raised(UnresolvedReference)
  {
    ReferencesHavePaths(Obj(NodeOn(run, line, c).undo.value.args), r);
    world := Contrary(false, Some(CallCount(run, line[..j])), Inner(r.segments));
    ContraryIsLetThrough(false, Some(CallCount(run, line[..j])), Inner(r.segments));
    var against := Against(run, world);
    SameLine(run, line, world);
    StartIsAlong(against, line, input);
    SameCalls(run, world, line[..j]);
    assert NextAction(against, line, c, j) by {
      forall k | c < k < j ensures !NodeOn(against, line, k).Action? {
        assert !NodeOn(run, line, k).Action?;
      }
    }
    UndoGoesMissing(against, rank, line, input, 0, InitialSt(input), c, j, r);
  }

  lemma {:induction false} SameCalls(run: Run, world: World, ids: seq<string>)
    ensures CallCount(Against(run, world), ids) == CallCount(run, ids)
  {
    if ids != [] {
      SameCalls(run, world, ids[..|ids| - 1]);
    }
  }

  // --- admitted programs have a line ----------------------------------------------------------------------

  // From here the line goes to its end, losing rank.
  ghost predicate LineFrom(p: Program, rank: map<string, nat>, line: seq<string>) {
    && line != [] && (forall k :: 0 <= k < |line| ==> line[k] in NodeIds(p))
    && (forall k :: 0 <= k < |line| && Plain(NodeAt(p, line[k])) ==> NodeAt(p, line[k]).next == From(line, k + 1))
    && forall k :: 0 < k < |line| ==> RankAt(rank, line[k]) < RankAt(rank, line[k - 1])
  }

  lemma StraightIsPlain(p: Program, id: string)
    requires StraightLine(p) && NoDangling(p) && id in NodeIds(p)
    ensures Plain(NodeAt(p, id))
    ensures NodeAt(p, id).next.Some? ==> NodeAt(p, id).next.value in NodeIds(p) &&
                                          NodeAt(p, id).next.value in SuccessorTargets(NodeAt(p, id))
  {
    assert p.pipeline[Position(p, id)] == NodeAt(p, id);
  }

  lemma {:induction false} FollowLine(p: Program, rank: map<string, nat>, at: string) returns (line: seq<string>)
    requires StraightLine(p) && NoDangling(p) && at in NodeIds(p) && Ranked(NodeMap(p), rank)
    ensures LineFrom(p, rank, line) && line[0] == at
    decreases RankAt(rank, at)
  {
    StraightIsPlain(p, at);
    var next := NodeAt(p, at).next;
    line := [at];
    if next.Some? {
      RankFallsBy(p, rank, at, next.value);
      var rest := FollowLine(p, rank, next.value);
      line := [at] + rest;
      OneMoreInFront(p, rank, at, rest);
    }
  }

  lemma RankFallsBy(p: Program, rank: map<string, nat>, at: string, next: string)
    requires Ranked(NodeMap(p), rank) && at in NodeIds(p) && next in SuccessorTargets(NodeAt(p, at))
    ensures RankAt(rank, next) < RankAt(rank, at)
  {
    assert NodeMap(p)[at] == NodeAt(p, at);
  }

  lemma OneMoreInFront(p: Program, rank: map<string, nat>, at: string, rest: seq<string>)
    requires at in NodeIds(p) && LineFrom(p, rank, rest) && RankAt(rank, rest[0]) < RankAt(rank, at)
    requires Plain(NodeAt(p, at)) ==> NodeAt(p, at).next == Some(rest[0])
    ensures LineFrom(p, rank, [at] + rest)
  {
    var line := [at] + rest;
    forall k | 0 <= k < |line| && Plain(NodeAt(p, line[k])) ensures NodeAt(p, line[k]).next == From(line, k + 1) {
      if k > 0 {
        assert line[k] == rest[k - 1] && From(line, k + 1) == From(rest, k);
      }
    }
    forall k | 0 < k < |line| ensures RankAt(rank, line[k]) < RankAt(rank, line[k - 1]) {
      assert line[k] == rest[k - 1] && (k > 1 ==> line[k - 1] == rest[k - 2]);
    }
  }

  lemma {:induction false} RanksFallAlong(rank: map<string, nat>, line: seq<string>, i: nat, j: nat)
    requires forall k :: 0 < k < |line| ==> RankAt(rank, line[k]) < RankAt(rank, line[k - 1])
    requires i < j < |line|
    ensures RankAt(rank, line[j]) < RankAt(rank, line[i])
    decreases j
  {
    if i < j - 1 {
      RanksFallAlong(rank, line, i, j - 1);
    }
  }

  lemma LineVisitsAll(p: Program, rank: map<string, nat>, line: seq<string>, id: string)
    requires StraightLine(p) && NoDangling(p) && AllReachable(p) && LineFrom(p, rank, line) && line[0] == p.entry
    requires id in NodeIds(p)
    ensures id in line
  {
    StraightEdges(p);
    LineIsAPath(p, rank, line);
    LineEnds(p, rank, line);
    var q :| PathBetween(EdgesOf(p), q, p.entry, id);
    PathsGoNoFurther(EdgesOf(p), line, q);
  }

  lemma LineEnds(p: Program, rank: map<string, nat>, line: seq<string>)
    requires StraightLine(p) && NoDangling(p) && LineFrom(p, rank, line)
    ensures Succ(EdgesOf(p), line[|line| - 1]) == []
  {
    var last := line[|line| - 1];
    StraightIsPlain(p, last);
    assert NodeAt(p, last).next == From(line, |line|);
    NoEdgeAtTheEnd(p, last);
  }

  // Along single successors, a path from where the line starts ends on the line.
  lemma PathsGoNoFurther<V(!new)>(e: Edges<V>, line: seq<V>, q: seq<V>)
    requires IsPath(e, line) && IsPath(e, q) && line[0] == q[0]
    requires (forall v :: v in e ==> |e[v]| <= 1) && Succ(e, line[|line| - 1]) == []
    ensures q[|q| - 1] in line
  {
    if |q| <= |line| {
      PathsAgree(e, line, q, |q| - 1);
    } else {
      PathsAgree(e, line, q, |line| - 1);
      GoesFurther(e, q, |line| - 1);
    }
  }

  lemma GoesFurther<V>(e: Edges<V>, q: seq<V>, i: nat)
    requires IsPath(e, q) && i + 1 < |q|
    ensures Succ(e, q[i]) != []
  {
    assert Edge(e, q[i], q[i + 1]);
  }

  lemma NoEdgeAtTheEnd(p: Program, id: string)
    requires StraightLine(p) && NoDangling(p) && id in NodeIds(p) && Plain(NodeAt(p, id)) && NodeAt(p, id).next.None?
    ensures Succ(EdgesOf(p), id) == []
  {
    assert p.pipeline[Position(p, id)] == NodeAt(p, id);
    EndHasNoTargets(NodeAt(p, id), NodeIds(p));
  }

  lemma EndHasNoTargets(node: Node, ids: set<string>)
    requires Plain(node) && node.next.None? && (node.Action? || node.Query? ==> node.errorTo.None?)
    ensures Dsl.Within(SuccessorTargets(node), ids) == []
  {
  }

  lemma LineIsAPath(p: Program, rank: map<string, nat>, line: seq<string>)
    requires StraightLine(p) && NoDangling(p) && LineFrom(p, rank, line)
    ensures IsPath(EdgesOf(p), line)
  {
    forall i, j | 0 <= i && j == i + 1 && j < |line| ensures Edge(EdgesOf(p), line[i], line[j]) {
      StraightIsPlain(p, line[i]);
      assert NodeAt(p, line[i]).next == From(line, i + 1);
    }
  }

  /** An admitted program without branches runs along a line through all its nodes, to which the two
      theorems apply. */
  lemma AdmittedProgramsHaveLines(p: Program, order: seq<string>, runId: string, world: World, maxPolls: nat)
    returns (line: seq<string>)
    requires SchemaOk(p) && NoDangling(p) && AllReachable(p) && StraightLine(p)
    requires Members(order) == NodeIds(p) && Topological(EdgesOf(p), order) && LetThrough(world)
    ensures Ranked(NodeMap(p), OrderRank(order))
    ensures IsLine(RunOf(p, runId, world, maxPolls), line) && Members(line) == NodeIds(p)
    ensures runId != "" ==> LongKeys(RunOf(p, runId, world, maxPolls))
  {
    var rank := OrderRank(order);
    OrderGivesRank(p, order);
    line := FollowLine(p, rank, p.entry);
    LineIsDistinct(p, rank, line);
    LineHasAll(p, rank, line);
    LineIsShort(p, line);
    RunIsOrdinary(p, runId, world, maxPolls);
    if runId != "" {
      KeysAreLong(p, runId, world, maxPolls);
    }
    LineIsLinked(p, RunOf(p, runId, world, maxPolls), rank, line);
  }

  lemma LineIsDistinct(p: Program, rank: map<string, nat>, line: seq<string>)
    requires LineFrom(p, rank, line)
    ensures Distinct(line)
  {
    forall i, j | 0 <= i < j < |line| ensures line[i] != line[j] {
      RanksFallAlong(rank, line, i, j);
    }
  }

  lemma LineHasAll(p: Program, rank: map<string, nat>, line: seq<string>)
    requires StraightLine(p) && NoDangling(p) && AllReachable(p) && LineFrom(p, rank, line) && line[0] == p.entry
    ensures Members(line) == NodeIds(p)
  {
    forall id ensures id in Members(line) <==> id in NodeIds(p) {
      if id in NodeIds(p) {
        LineVisitsAll(p, rank, line, id);
      }
    }
  }

  lemma LineIsLinked(p: Program, run: Run, rank: map<string, nat>, line: seq<string>)
    requires StraightLine(p) && NoDangling(p) && LineFrom(p, rank, line) && run.nodes == NodeMap(p)
    ensures forall k :: 0 <= k < |line| ==> Links(run, line, k)
  {
    forall k | 0 <= k < |line| ensures Links(run, line, k) {
      StraightIsPlain(p, line[k]);
    }
  }

  lemma LineIsShort(p: Program, line: seq<string>)
    requires SchemaOk(p) && Distinct(line) && Members(line) == NodeIds(p)
    ensures |line| <= MAX_STEPS
  {
    DistinctCount(line);
    MembersAreFew(Ids(p));
  }

  // The run of a run id that is not empty.
  lemma KeysAreLong(p: Program, runId: string, world: World, maxPolls: nat)
    requires SchemaOk(p) && runId != ""
    ensures LongKeys(RunOf(p, runId, world, maxPolls))
  {
    forall id | id in NodeIds(p) ensures |IdemKey(runId, id)| >= 8 {
      assert IsStepId(NodeAt(p, id).id);
    }
  }

  lemma RunIsOrdinary(p: Program, runId: string, world: World, maxPolls: nat)
    requires SchemaOk(p) && LetThrough(world)
    ensures Ordinary(RunOf(p, runId, world, maxPolls))
  {
    forall id | id in NodeIds(p) ensures id != "item" && id != "input" {
      StepIdsAreNotBindings(p, id);
    }
  }
}
