/** When every reference of a program is found: a check on the program and its input that no schedule, no
    data and no adapter can defeat. */
module Resolving {
  import opened Values
  import opened References
  import opened Guards
  import opened GuardEval
  import opened Graph
  import opened Dsl
  import opened Executor
  import opened DataFlow
  import opened Interleaving
  import opened Schedules
  import opened Client
  import opened Shapes

  // --- the references of a node ---------------------------------------------------------------------

  // The reference at this place of a guard is only asked about, not read.
  predicate Probed(guard: seq<Tok>, i: nat) {
    2 <= i < |guard| && IsHasCall(guard[i - 2..])
  }

  function GuardReads(guard: seq<Tok>): set<Reference> {
    set i | 0 <= i < |guard| && guard[i].RefTok? && !Probed(guard, i) :: guard[i].ref
  }

  // What executing the node reads.
  function Reads(node: Node): set<Reference> {
    match node
    case Action(_, _, args, _, _, _) => RefsIn(Obj(args))
    case Query(_, _, args, _, _) => RefsIn(Obj(args))
    case Condition(_, guard, _, _, _) => GuardReads(guard)
    case Foreach(_, items, _, _, _, _) => RefsIn(Str(items))
    case AwaitApproval(_, proposal, _, _, _) => RefsIn(Str(proposal))
    case Notify(_, message, _) => RefsIn(Obj(message))
    case Parallel(_, _, _) => {}
    case Wait(_, _) => {}
  }

  // What undoing it reads.
  function UndoReads(node: Node): set<Reference> {
    if node.Action? && node.undo.Some? then RefsIn(Obj(node.undo.value.args)) else {}
  }

  // --- the check --------------------------------------------------------------------------------------

  // The binder, if any, of the loop whose body the path is in at its end; a parallel branch is in none.
  ghost predicate InLoop(nodes: map<string, Node>, path: seq<string>, binder: Option<string>) {
    if |path| <= 1 then binder.None?
    else
      var a, b := path[|path| - 2], path[|path| - 1];
      a in nodes &&
      ((b in WalkTargets(nodes[a]) && InLoop(nodes, path[..|path| - 1], binder)) ||
       (b in EnterTargets(nodes[a]) && binder == BinderOf(nodes[a])))
  }

  function BinderOf(node: Node): Option<string> {
    if node.Foreach? then Some(node.binder) else None
  }

  // Every way to the node has it in the body of a loop with this binder.
  ghost predicate AlwaysBound(nodes: map<string, Node>, entry: string, id: string, binder: string) {
    forall path, b :: PathBetween(RunEdges(nodes), path, entry, id) && InLoop(nodes, path, b) ==> b == Some(binder)
  }

  // What a step's entry in the context offers.
  predicate EntryOffers(onError: OnError, node: Node, path: seq<Segment>) {
    path == [] || (path[0] == Field("output") && Offers(onError, node, path[1..]))
  }

  // The reference, read at this node, is always found.
  ghost predicate Assured(run: Run, input: Option<Json>, id: string, r: Reference) {
    r.segments != [] &&
    if r.source == "item" then
      exists b :: r.segments == [Field(b)] && AlwaysBound(run.nodes, run.entry, id, b)
    else if r.source == "input" then input.Some? && Follow(input.value, r.segments).Some?
    else
      && r.source in run.nodes && EntryOffers(run.onError, run.nodes[r.source], r.segments)
      && AlwaysBefore(run.nodes, run.entry, r.source, id)
  }

  // Read when the node's commit is undone: by then its own output is there, and it is in no loop.
  ghost predicate AssuredUndo(run: Run, input: Option<Json>, id: string, r: Reference) {
    r.source != "item" &&
    (Assured(run, input, id, r) ||
     (r.source == id && id in run.nodes && EntryOffers(run.onError, run.nodes[id], r.segments)))
  }

  ghost predicate AllAssured(run: Run, input: Option<Json>) {
    forall id :: id in run.nodes ==>
      && (forall r :: r in Reads(run.nodes[id]) ==> Assured(run, input, id, r))
      && (run.onError == Compensate ==> forall r :: r in UndoReads(run.nodes[id]) ==> AssuredUndo(run, input, id, r))
  }

  // The run resolves data as References says, its adapter's answers are let through by the client, and its
  // step ids are no bindings.
  ghost predicate Ordinary(run: Run) {
    && LetThrough(run.world)
    && (forall v, ctx, item :: run.language.resolve(v, ctx, item) == Resolve(v, ctx, item))
    && "item" !in run.nodes && "input" !in run.nodes
    && forall id :: id in run.nodes ==> run.nodes[id].id == id
  }

  // --- what holds all along a run ---------------------------------------------------------------------

  function Entry(output: Json): Json {
    Obj(map["output" := output])
  }

  ghost predicate Shaped(run: Run, ctx: Context) {
    forall id :: id in ctx && id in run.nodes ==>
      exists output :: CanRecord(run.onError, run.nodes[id], output) && ctx[id] == Entry(output)
  }

  ghost predicate CommitsSettled(run: Run, st: St) {
    forall id :: id in st.committed ==> id in run.nodes && id in st.ctx && Located(run, id, st.ctx)
  }

  ghost predicate Kept(run: Run, input: Option<Json>, st: St) {
    && Shaped(run, st.ctx) && CommitsSettled(run, st)
    && (input.Some? ==> "input" in st.ctx && st.ctx["input"] == input.value)
  }

  // A loop element, or none.
  predicate Binds(binder: Option<string>, item: Json) {
    match binder
    case None => item == Null
    case Some(b) => item.Obj? && b in item.fields
  }

  // The node lies at the end of a settled path, with the element that belongs there.
  ghost predicate Placed(run: Run, id: string, ctx: Context, item: Json) {
    exists path, b ::
      PathBetween(RunEdges(run.nodes), path, run.entry, id) && Settled(run.nodes, path, ctx) &&
      InLoop(run.nodes, path, b) && Binds(b, item)
  }

  predicate Fits(node: Node, pending: Pending) {
    match pending
    case Proposing(reply) => node.Action? && ProposeAnswer(reply)
    case Committing(id, outcome) => node.Action? && IsProposalId(id) && CommitShape(outcome)
    case Querying(data) => node.Query? && QueryAnswer(data)
    case Polling(_, _, _) => node.AwaitApproval?
    case Napping(_, _) => node.AwaitApproval?
    case Sleeping => node.Wait?
  }

  ghost predicate Here(run: Run, node: Node, ctx: Context, item: Json) {
    Known(run, node) && Placed(run, node.id, ctx, item)
  }

  // Every task is placed, and none has stopped for want of a reference.
  ghost predicate Sound(run: Run, ctx: Context, t: Task) {
    match t
    case At(id, item, _) => id.Some? && id.value in run.nodes ==> Placed(run, id.value, ctx, item)
    case Stopped(why) => why != Raised(UnresolvedReference)
    case Suspended(node, item, _, pending) => Here(run, node, ctx, item) && Fits(node, pending)
    case Looping(node, item, _, _, _, inner) => Here(run, node, ctx, item) && node.Foreach? && Sound(run, ctx, inner)
    case Forked(node, item, _, kids) =>
      Here(run, node, ctx, item) && node.Parallel? && forall i :: 0 <= i < |kids| ==> Sound(run, ctx, kids[i])
  }

  // --- the check is enough at a node ------------------------------------------------------------------

  lemma EntryIsFollowed(run: Run, ctx: Context, source: string, path: seq<Segment>)
    requires Shaped(run, ctx) && source in ctx && source in run.nodes
    requires EntryOffers(run.onError, run.nodes[source], path)
    ensures Follow(ctx[source], path).Some?
  {
    if path != [] {
      var output :| CanRecord(run.onError, run.nodes[source], output) && ctx[source] == Entry(output);
      OffersExactly(run.onError, run.nodes[source], path[1..]);
      FollowField(ctx[source], path, "output");
    }
  }

  lemma AssuredIsFound(run: Run, input: Option<Json>, st: St, id: string, item: Json, r: Reference)
    requires Kept(run, input, st) && Placed(run, id, st.ctx, item) && Assured(run, input, id, r)
    ensures Lookup(r, st.ctx, item).Some?
  {
    var path, b :| PathBetween(RunEdges(run.nodes), path, run.entry, id) && Settled(run.nodes, path, st.ctx) &&
                   InLoop(run.nodes, path, b) && Binds(b, item);
    if r.source == "item" {
      var name :| r.segments == [Field(name)] && AlwaysBound(run.nodes, run.entry, id, name);
      assert b == Some(name);
      FollowField(item, r.segments, name);
      assert r.segments[1..] == [];
    } else if r.source != "input" {
      assert LeavesSettled(run.nodes, path, r.source);
      EntryIsFollowed(run, st.ctx, r.source, r.segments);
    }
  }

  // Whatever the node reads is there.
  ghost predicate FindsAll(run: Run, ctx: Context, id: string, item: Json) {
    id in run.nodes ==> forall r :: r in Reads(run.nodes[id]) ==> r.segments != [] && Lookup(r, ctx, item).Some?
  }

  lemma PlacedFindsAll(run: Run, input: Option<Json>, st: St, id: string, item: Json)
    requires AllAssured(run, input) && Kept(run, input, st)
    requires id in run.nodes ==> Placed(run, id, st.ctx, item)
    ensures FindsAll(run, st.ctx, id, item)
  {
    if id in run.nodes {
      forall r | r in Reads(run.nodes[id]) ensures r.segments != [] && Lookup(r, st.ctx, item).Some? {
        AssuredIsFound(run, input, st, id, item, r);
      }
    }
  }

  lemma UndoIsFound(run: Run, input: Option<Json>, st: St, id: string, r: Reference)
    requires Kept(run, input, st) && id in st.ctx && Located(run, id, st.ctx) && AssuredUndo(run, input, id, r)
    ensures Lookup(r, st.ctx, Null).Some?
  {
    if Assured(run, input, id, r) {
      if r.source != "input" {
        var path :| PathBetween(RunEdges(run.nodes), path, run.entry, id) && Settled(run.nodes, path, st.ctx);
        assert LeavesSettled(run.nodes, path, r.source);
        EntryIsFollowed(run, st.ctx, r.source, r.segments);
      }
    } else {
      EntryIsFollowed(run, st.ctx, r.source, r.segments);
    }
  }

  // --- every move keeps it ----------------------------------------------------------------------------

  // What a move comes to: more in the context, and everything as it should be.
  ghost predicate Goes(run: Run, input: Option<Json>, st: St, r: (St, Task)) {
    Kept(run, input, r.0) && st.ctx.Keys <= r.0.ctx.Keys && Sound(run, r.0.ctx, r.1)
  }

  // The input and the run the check speaks of.
  ghost predicate Checked(run: Run, input: Option<Json>) {
    Ordinary(run) && AllAssured(run, input)
  }

  lemma PlacedStays(run: Run, id: string, ctx: Context, ctx': Context, item: Json)
    requires Placed(run, id, ctx, item) && ctx.Keys <= ctx'.Keys
    ensures Placed(run, id, ctx', item)
  {
    var path, b :| PathBetween(RunEdges(run.nodes), path, run.entry, id) && Settled(run.nodes, path, ctx) &&
                   InLoop(run.nodes, path, b) && Binds(b, item);
    assert Settled(run.nodes, path, ctx');
  }

  lemma {:induction false} SoundStays(run: Run, ctx: Context, ctx': Context, t: Task)
    requires Sound(run, ctx, t) && ctx.Keys <= ctx'.Keys
    ensures Sound(run, ctx', t)
    decreases t
  {
    match t
    case At(id, item, _) =>
      if id.Some? && id.value in run.nodes { PlacedStays(run, id.value, ctx, ctx', item); }
    case Stopped(_) =>
    case Suspended(node, item, _, _) => PlacedStays(run, node.id, ctx, ctx', item);
    case Looping(node, item, _, _, _, inner) =>
      PlacedStays(run, node.id, ctx, ctx', item);
      SoundStays(run, ctx, ctx', inner);
    case Forked(node, item, _, kids) =>
      PlacedStays(run, node.id, ctx, ctx', item);
      forall i | 0 <= i < |kids| ensures Sound(run, ctx', kids[i]) {
        SoundStays(run, ctx, ctx', kids[i]);
      }
  }

  lemma LocatedStays(run: Run, id: string, ctx: Context, ctx': Context)
    requires Located(run, id, ctx) && ctx.Keys <= ctx'.Keys
    ensures Located(run, id, ctx')
  {
    var path :| PathBetween(RunEdges(run.nodes), path, run.entry, id) && Settled(run.nodes, path, ctx);
    assert Settled(run.nodes, path, ctx');
  }

  // On to a node of the same walk.
  lemma WalksOn(run: Run, ctx: Context, node: Node, item: Json, t: string)
    requires Here(run, node, ctx, item) && node.id in ctx && t in WalkTargets(node)
    ensures Placed(run, t, ctx, item)
  {
    var path, b :| PathBetween(RunEdges(run.nodes), path, run.entry, node.id) && Settled(run.nodes, path, ctx) &&
                   InLoop(run.nodes, path, b) && Binds(b, item);
    StepAlong(run, path, node.id, t, ctx);
    Lengthened(path, t);
    assert InLoop(run.nodes, path + [t], b);
  }

  // Into a loop body or a branch.
  lemma Enters(run: Run, ctx: Context, node: Node, item: Json, t: string, bound: Json)
    requires Here(run, node, ctx, item) && t in EnterTargets(node) && Binds(BinderOf(node), bound)
    ensures Placed(run, t, ctx, bound)
  {
    var path, b :| PathBetween(RunEdges(run.nodes), path, run.entry, node.id) && Settled(run.nodes, path, ctx) &&
                   InLoop(run.nodes, path, b) && Binds(b, item);
    StepAlong(run, path, node.id, t, ctx);
    Lengthened(path, t);
    assert InLoop(run.nodes, path + [t], BinderOf(node));
  }

  lemma Lengthened(path: seq<string>, t: string)
    requires path != []
    ensures (path + [t])[..|path|] == path && (path + [t])[|path| - 1] == path[|path| - 1] && (path + [t])[|path|] == t
  {
  }

  lemma RecordedIsKept(run: Run, input: Option<Json>, st: St, node: Node, output: Json)
    requires Ordinary(run) && Kept(run, input, st) && Known(run, node) && CanRecord(run.onError, node, output)
    ensures Kept(run, input, Recorded(st, node.id, output))
  {
    var st' := Recorded(st, node.id, output);
    forall id | id in st'.ctx && id in run.nodes
      ensures exists o :: CanRecord(run.onError, run.nodes[id], o) && st'.ctx[id] == Entry(o)
    {
      if id == node.id {
        assert st'.ctx[id] == Entry(output);
      } else {
        assert st'.ctx[id] == st.ctx[id];
      }
    }
    forall id | id in st'.committed ensures Located(run, id, st'.ctx) {
      LocatedStays(run, id, st.ctx, st'.ctx);
    }
  }

  lemma FinishGoes(run: Run, input: Option<Json>, st: St, node: Node, item: Json, steps: nat, output: Json)
    requires Ordinary(run) && Kept(run, input, st) && Here(run, node, st.ctx, item)
    requires CanRecord(run.onError, node, output)
    ensures Goes(run, input, st, Finish(st, node, item, steps, output))
  {
    var (st', t') := Finish(st, node, item, steps, output);
    RecordedIsKept(run, input, st, node, output);
    PlacedStays(run, node.id, st.ctx, st'.ctx, item);
    NextIsWalkTarget(node, output);
    if t'.id.Some? {
      WalksOn(run, st'.ctx, node, item, t'.id.value);
    }
  }

  // A commit is on record together with its node's output.
  lemma CommittedGoes(run: Run, input: Option<Json>, st: St, node: Node, item: Json, steps: nat, output: Json)
    requires Ordinary(run) && Kept(run, input, st) && Here(run, node, st.ctx, item)
    requires CanRecord(run.onError, node, output)
    ensures Goes(run, input, st, Finish(Commit(st, node.id), node, item, steps, output))
  {
    FinishGoes(run, input, st, node, item, steps, output);
    var (plain, _) := Finish(st, node, item, steps, output);
    var (st', _) := Finish(Commit(st, node.id), node, item, steps, output);
    assert st'.ctx == plain.ctx && st'.committed == st.committed + [node.id];
    PlacedStays(run, node.id, st.ctx, st'.ctx, item);
    assert Located(run, node.id, st'.ctx);
    assert CommitsSettled(run, st');
  }

  lemma StandsStill(run: Run, input: Option<Json>, st: St, st': St, t: Task)
    requires Kept(run, input, st) && st'.ctx == st.ctx && st'.committed == st.committed && Sound(run, st.ctx, t)
    ensures Goes(run, input, st, (st', t))
  {
  }

  lemma AskGoes(run: Run, input: Option<Json>, st: St, node: Node, item: Json, steps: nat, proposal: Json, polls: nat)
    requires Ordinary(run) && Kept(run, input, st) && Here(run, node, st.ctx, item) && node.AwaitApproval?
    ensures Goes(run, input, st, AskStatus(run, st, node, item, steps, proposal, polls))
  {
    if polls == 0 {
      FinishGoes(run, input, st, node, item, steps, Str("timeout"));
    } else {
      var (st', t') := AskStatus(run, st, node, item, steps, proposal, polls);
      StandsStill(run, input, st, st', t');
    }
  }

  // The data a node sends resolves.
  lemma SentResolves(run: Run, st: St, node: Node, item: Json, v: Json)
    requires Ordinary(run) && Known(run, node) && FindsAll(run, st.ctx, node.id, item) && RefsIn(v) == Reads(node)
    ensures run.language.resolve(v, st.ctx, item).Some?
  {
    ResolvesExactlyWhenAllDo(v, st.ctx, item);
  }

  lemma BeginGoes(run: Run, input: Option<Json>, st: St, node: Node, item: Json, steps: nat)
    requires Checked(run, input) && Kept(run, input, st) && Here(run, node, st.ctx, item)
    ensures Goes(run, input, st, Begin(run, st, node, item, steps))
  {
    PlacedFindsAll(run, input, st, node.id, item);
    match node
    case Action(_, _, args, _, _, _) =>
      SentResolves(run, st, node, item, Obj(args));
      BeginStandsStill(run, input, st, node, item, steps);
    case Query(_, _, args, _, _) =>
      SentResolves(run, st, node, item, Obj(args));
      BeginStandsStill(run, input, st, node, item, steps);
    case Wait(_, _) => BeginStandsStill(run, input, st, node, item, steps);
    case Condition(_, _, _, _, _) => QuietGoes(run, input, st, node, item, steps);
    case Notify(_, _, _) => QuietGoes(run, input, st, node, item, steps);
    case AwaitApproval(_, proposal, _, _, _) =>
      SentResolves(run, st, node, item, Str(proposal));
      AskGoes(run, input, st, node, item, steps, run.language.resolve(Str(proposal), st.ctx, item).value, run.maxPolls);
    case Parallel(_, _, _) => ForkGoes(run, input, st, node, item, steps);
    case Foreach(_, items, _, _, _, _) =>
      SentResolves(run, st, node, item, Str(items));
      BeginStandsStill(run, input, st, node, item, steps);
  }

  lemma BeginStandsStill(run: Run, input: Option<Json>, st: St, node: Node, item: Json, steps: nat)
    requires LetThrough(run.world) && Kept(run, input, st) && Here(run, node, st.ctx, item)
    requires node.Action? || node.Query? || node.Wait? || node.Foreach?
    requires node.Action? || node.Query? ==> run.language.resolve(Obj(node.args), st.ctx, item).Some?
    requires node.Foreach? ==> run.language.resolve(Str(node.items), st.ctx, item).Some?
    ensures Goes(run, input, st, Begin(run, st, node, item, steps))
  {
    var (st', t') := Begin(run, st, node, item, steps);
    StandsStill(run, input, st, st', t');
  }

  lemma ForkGoes(run: Run, input: Option<Json>, st: St, node: Node, item: Json, steps: nat)
    requires Kept(run, input, st) && Here(run, node, st.ctx, item) && node.Parallel?
    ensures Goes(run, input, st, Begin(run, st, node, item, steps))
  {
    var kids := Kids(node.branches);
    forall i | 0 <= i < |kids| ensures Sound(run, st.ctx, kids[i]) {
      Enters(run, st.ctx, node, item, node.branches[i], Null);
    }
    StandsStill(run, input, st, st, Forked(node, item, steps, kids));
  }

  lemma QuietGoes(run: Run, input: Option<Json>, st: St, node: Node, item: Json, steps: nat)
    requires Checked(run, input) && Kept(run, input, st) && Here(run, node, st.ctx, item)
    requires FindsAll(run, st.ctx, node.id, item) && (node.Condition? || node.Notify?)
    ensures Goes(run, input, st, Begin(run, st, node, item, steps))
  {
    if node.Notify? {
      SentResolves(run, st, node, item, Obj(node.message));
      var st1 := DoNotify(run, st, node, item).0;
      FinishGoes(run, input, st1, node, item, steps, Null);
    } else {
      var out := DoCondition(run, st, node, item).1;
      if out.Done? {
        FinishGoes(run, input, st, node, item, steps, out.value);
      } else {
        StandsStill(run, input, st, st, Stopped(Raised(BadGuard)));
      }
    }
  }

  lemma StartGoes(run: Run, input: Option<Json>, st: St, id: string, item: Json, steps: nat)
    requires Checked(run, input) && Kept(run, input, st) && (id in run.nodes ==> Placed(run, id, st.ctx, item))
    ensures Goes(run, input, st, Start(run, st, id, item, steps))
  {
    if steps < MAX_STEPS && id in run.nodes {
      var entered := Entered(st, id);
      StandsStill(run, input, st, entered, At(None, Null, 0));
      BeginGoes(run, input, entered, run.nodes[id], item, steps);
    }
  }

  lemma DeliverGoes(run: Run, input: Option<Json>, st: St, node: Node, item: Json, steps: nat, pending: Pending)
    requires Checked(run, input) && Kept(run, input, st) && Here(run, node, st.ctx, item) && Fits(node, pending)
    ensures Goes(run, input, st, Deliver(run, st, node, item, steps, pending))
  {
    match pending
    case Proposing(reply) => ProposalGoes(run, input, st, node, item, steps, reply);
    case Committing(id, outcome) =>
      if !outcome.Lost? {
        SettledIsRecorded(run, node, outcome, id);
        CommittedGoes(run, input, st, node, item, steps, StateOutput(outcome, id));
      }
    case Querying(data) => if !data.Lost? { FinishGoes(run, input, st, node, item, steps, data.data); }
    case Polling(_, answer, _) =>
      if !answer.Lost? && ApprovalRoute(answer.state).Some? {
        FinishGoes(run, input, st, node, item, steps, Str(ApprovalRoute(answer.state).value));
      }
    case Napping(proposal, pollsLeft) => AskGoes(run, input, st, node, item, steps, proposal, pollsLeft);
    case Sleeping => FinishGoes(run, input, st, node, item, steps, Null);
  }

  lemma ProposalGoes(run: Run, input: Option<Json>, st: St, node: Node, item: Json, steps: nat, reply: ProposeReply)
    requires Checked(run, input) && Kept(run, input, st) && Here(run, node, st.ctx, item) && node.Action?
    requires ProposeAnswer(reply)
    ensures Goes(run, input, st, Deliver(run, st, node, item, steps, Proposing(reply)))
  {
    if !reply.Lost? && (reply.isRefusal || reply.id == "") {
      RefusalGoes(run, input, st, node, item, steps, reply);
    } else {
      var (st', t') := Deliver(run, st, node, item, steps, Proposing(reply));
      StandsStill(run, input, st, st', t');
    }
  }

  lemma RefusalGoes(run: Run, input: Option<Json>, st: St, node: Node, item: Json, steps: nat, reply: ProposeReply)
    requires Checked(run, input) && Kept(run, input, st) && Here(run, node, st.ctx, item) && node.Action?
    requires reply.Proposal? && (reply.isRefusal || reply.id == "")
    ensures Goes(run, input, st, Deliver(run, st, node, item, steps, Proposing(reply)))
  {
    var code := if reply.code.Some? then reply.code.value else "UNKNOWN";
    if run.onError == Compensate {
      StandsStill(run, input, st, st, Stopped(Halted(node.id, code)));
    } else {
      RefusedIsRecorded(run, node, code);
      FinishGoes(run, input, st, node, item, steps, Refused(code));
    }
  }

  lemma SettledIsRecorded(run: Run, node: Node, reply: CommitReply, id: string)
    requires node.Action? && Settles(reply, id)
    ensures CanRecord(run.onError, node, StateOutput(reply, id))
  {
  }

  lemma RefusedIsRecorded(run: Run, node: Node, code: string)
    requires node.Action? && run.onError != Compensate
    ensures CanRecord(run.onError, node, Refused(code))
  {
  }

  /** Every move of every task keeps everything findable. */
  lemma {:induction false} MovesGo(run: Run, input: Option<Json>, st: St, t: Task, m: Move)
    requires Checked(run, input) && Kept(run, input, st) && Sound(run, st.ctx, t)
    ensures var r := Advance(run, st, t, m);
            r.Some? ==> Goes(run, input, st, r.value)
    decreases m
  {
    match t
    case Stopped(_) =>
    case At(id, item, steps) => if id.Some? { StartGoes(run, input, st, id.value, item, steps); }
    case Suspended(node, item, steps, pending) => DeliverGoes(run, input, st, node, item, steps, pending);
    case Looping(_, _, _, _, _, _) => LoopGoes(run, input, st, t, m);
    case Forked(_, _, _, _) => BranchesGo(run, input, st, t, m);
  }

  lemma {:induction false} LoopGoes(run: Run, input: Option<Json>, st: St, t: Task, m: Move)
    requires Checked(run, input) && Kept(run, input, st) && Sound(run, st.ctx, t) && t.Looping?
    ensures var r := Advance(run, st, t, m);
            r.Some? ==> Goes(run, input, st, r.value)
    decreases m, 0
  {
    if m.Child? {
      MovesGo(run, input, st, t.inner, m.move);
      var r := Advance(run, st, t.inner, m.move);
      if r.Some? {
        PlacedStays(run, t.node.id, st.ctx, r.value.0.ctx, t.item);
      }
    } else if t.left == [] {
      FinishGoes(run, input, st, t.node, t.item, t.steps, Counted(t.count));
    } else {
      Enters(run, st.ctx, t.node, t.item, t.node.body, Obj(map[t.node.binder := t.left[0]]));
    }
  }

  lemma {:induction false} BranchesGo(run: Run, input: Option<Json>, st: St, t: Task, m: Move)
    requires Checked(run, input) && Kept(run, input, st) && Sound(run, st.ctx, t) && t.Forked?
    ensures var r := Advance(run, st, t, m);
            r.Some? ==> Goes(run, input, st, r.value)
    decreases m, 0
  {
    if m.Go? {
      FinishGoes(run, input, st, t.node, t.item, t.steps, BranchNames(t.node.branches));
    } else if m.i < |t.kids| {
      MovesGo(run, input, st, t.kids[m.i], m.move);
      var r := Advance(run, st, t.kids[m.i], m.move);
      if r.Some? {
        var ctx' := r.value.0.ctx;
        PlacedStays(run, t.node.id, st.ctx, ctx', t.item);
        var kids' := t.kids[m.i := r.value.1];
        forall k | 0 <= k < |kids'| ensures Sound(run, ctx', kids'[k]) {
          if k != m.i {
            SoundStays(run, st.ctx, ctx', t.kids[k]);
          }
        }
      }
    }
  }

  lemma {:induction false} PlaysGo(run: Run, input: Option<Json>, st: St, t: Task, moves: seq<Move>)
    requires Checked(run, input) && Kept(run, input, st) && Sound(run, st.ctx, t) && Play(run, st, t, moves).Some?
    ensures Goes(run, input, st, Play(run, st, t, moves).value)
    decreases |moves|
  {
    if moves != [] {
      MovesGo(run, input, st, t, moves[0]);
      var (st1, t1) := Advance(run, st, t, moves[0]).value;
      PlaysGo(run, input, st1, t1, moves[1..]);
    }
  }

  // --- the theorem ------------------------------------------------------------------------------------

  // Each task about to start a node finds all that the node reads.
  ghost predicate AllReady(run: Run, ctx: Context, t: Task) {
    match t
    case At(id, item, _) => id.Some? ==> FindsAll(run, ctx, id.value, item)
    case Stopped(why) => why != Raised(UnresolvedReference)
    case Suspended(_, _, _, _) => true
    case Looping(_, _, _, _, _, inner) => AllReady(run, ctx, inner)
    case Forked(_, _, _, kids) => forall i :: 0 <= i < |kids| ==> AllReady(run, ctx, kids[i])
  }

  lemma {:induction false} SoundIsReady(run: Run, input: Option<Json>, st: St, t: Task)
    requires Checked(run, input) && Kept(run, input, st) && Sound(run, st.ctx, t)
    ensures AllReady(run, st.ctx, t)
    decreases t
  {
    match t
    case At(id, item, _) => if id.Some? { PlacedFindsAll(run, input, st, id.value, item); }
    case Looping(_, _, _, _, _, inner) => SoundIsReady(run, input, st, inner);
    case Forked(_, _, _, kids) =>
      forall i | 0 <= i < |kids| ensures AllReady(run, st.ctx, kids[i]) {
        SoundIsReady(run, input, st, kids[i]);
      }
    case _ =>
  }

  lemma EntryIsSound(run: Run, input: Option<Json>)
    requires Ordinary(run)
    ensures Kept(run, input, InitialSt(input)) && Sound(run, InitialSt(input).ctx, WholeRun(run))
  {
    var path := [run.entry];
    assert PathBetween(RunEdges(run.nodes), path, run.entry, run.entry);
    assert InLoop(run.nodes, path, None) && Binds(None, Null);
    assert Placed(run, run.entry, InitialSt(input).ctx, Null);
  }

  lemma UndoFindsItsArguments(run: Run, input: Option<Json>, st: St, id: string)
    requires Checked(run, input) && run.onError == Compensate && Kept(run, input, st)
    requires id in run.nodes && id in st.ctx && Located(run, id, st.ctx)
    ensures var (st', out) := UndoOne(run, st, id);
            out != Raised(UnresolvedReference) && st'.ctx == st.ctx && st'.committed == st.committed
  {
    var node := run.nodes[id];
    if node.Action? && node.undo.Some? {
      var args := Obj(node.undo.value.args);
      forall r | r in RefsIn(args) ensures Lookup(r, st.ctx, Null).Some? {
        assert r in UndoReads(node);
        UndoIsFound(run, input, st, id, r);
      }
      ResolvesExactlyWhenAllDo(args, st.ctx, Null);
    }
  }

  lemma {:induction false} UnwindFindsAll(run: Run, input: Option<Json>, st: St, left: seq<string>, undone: seq<string>)
    requires Checked(run, input) && run.onError == Compensate && Kept(run, input, st)
    requires forall id :: id in left ==> id in st.committed
    ensures Unwind(run, st, left, undone).1 != Raised(UnresolvedReference)
    decreases |left|
  {
    if left != [] {
      var id := left[|left| - 1];
      assert id in left && id in st.committed;
      UndoFindsItsArguments(run, input, st, id);
      var (st1, _) := UndoOne(run, st, id);
      assert Kept(run, input, st1);
      UnwindFindsAll(run, input, st1, left[..|left| - 1], undone + [id]);
    }
  }

  /** Where every reference is assured, none is ever missing: at every point of every schedule, whatever the
      adapter answers, each task about to start a node finds all that the node reads, no task has stopped
      for want of a reference, and what is committed by then can be unwound without missing one. */
  lemma AssuredReferencesAreFound(run: Run, input: Option<Json>, moves: seq<Move>)
    requires Checked(run, input) && Play(run, InitialSt(input), WholeRun(run), moves).Some?
    ensures var (st, t) := Play(run, InitialSt(input), WholeRun(run), moves).value;
            && AllReady(run, st.ctx, t)
            && (run.onError == Compensate ==> Unwind(run, st, st.committed, []).1 != Raised(UnresolvedReference))
  {
    EntryIsSound(run, input);
    PlaysGo(run, input, InitialSt(input), WholeRun(run), moves);
    var (st, t) := Play(run, InitialSt(input), WholeRun(run), moves).value;
    SoundIsReady(run, input, st, t);
    if run.onError == Compensate {
      UnwindFindsAll(run, input, st, st.committed, []);
    }
  }

  /** The validator scans a node for the sources of exactly the references that executing it reads, and of those
      that its guard only asks about. */
  lemma ReadsAreScanned(node: Node, source: string)
    ensures source in ReferenceSources(node) <==>
            (exists r :: r in Reads(node) && r.source == source) ||
            (node.Condition? && exists i :: 2 <= i < |node.guard| && Probed(node.guard, i) &&
                                            node.guard[i].ref.source == source)
  {
    match node
    case Condition(_, guard, _, _, _) =>
      forall i | 0 <= i < |guard| && guard[i].RefTok? && guard[i].ref.source == source
        ensures guard[i].ref in Reads(node) || (2 <= i && Probed(guard, i))
      {
      }
      forall i | 2 <= i < |guard| && Probed(guard, i) ensures guard[i].RefTok? {
        assert guard[i - 2..][2] == guard[i];
      }
    case _ =>
  }
}
