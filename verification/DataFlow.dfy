/** When a data reference finds the step it names: along every run, over the validator's order. */
module DataFlow {
  import opened Values
  import opened References
  import opened Graph
  import opened Kahn
  import opened Dsl
  import opened Validator
  import opened Executor

  // --- the edges a run can take ---------------------------------------------------------------------

  // Where the walk may go once the node's output is recorded.
  function WalkTargets(node: Node): seq<string> {
    match node
    case Condition(_, _, onTrue, onFalse, next) => [onTrue] + if onFalse.Some? then Listed(onFalse) else Listed(next)
    case AwaitApproval(_, _, onApproved, onRejected, onTimeout) => [onApproved] + Listed(onRejected) + Listed(onTimeout)
    case _ => Listed(node.next)
  }

  // Where nested walks start while the node is still executing.
  function EnterTargets(node: Node): seq<string> {
    match node
    case Parallel(_, branches, _) => branches
    case Foreach(_, _, _, body, _, _) => [body]
    case _ => []
  }

  function RunEdges(nodes: map<string, Node>): (e: Edges<string>)
    ensures e.Keys == nodes.Keys
  {
    map id | id in nodes :: WalkTargets(nodes[id]) + EnterTargets(nodes[id])
  }

  predicate Entering(nodes: map<string, Node>, a: string, b: string) {
    a in nodes && b in EnterTargets(nodes[a])
  }

  // Every node the path has left, other than into a nested walk, has its output in the context.
  ghost predicate Settled(nodes: map<string, Node>, path: seq<string>, ctx: Context) {
    forall i, j :: 0 <= i && j == i + 1 && j < |path| ==> path[i] in ctx || Entering(nodes, path[i], path[j])
  }

  ghost predicate OnSettledPath(run: Run, v: Visit) {
    exists path :: PathBetween(RunEdges(run.nodes), path, run.entry, v.node) && Settled(run.nodes, path, v.ctx)
  }

  // --- every visit lies on a settled path -------------------------------------------------------------

  ghost predicate Traced(run: Run, st: St, st': St) {
    && st.ctx.Keys <= st'.ctx.Keys
    && st.visits <= st'.visits
    && forall i :: |st.visits| <= i < |st'.visits| ==> OnSettledPath(run, st'.visits[i])
  }

  lemma NextIsWalkTarget(node: Node, output: Json)
    ensures NextAfter(node, output).Some? ==> NextAfter(node, output).value in WalkTargets(node)
  {
  }

  lemma StepAlong(run: Run, path: seq<string>, at: string, next: string, ctx: Context)
    requires PathBetween(RunEdges(run.nodes), path, run.entry, at) && Settled(run.nodes, path, ctx)
    requires at in run.nodes && next in WalkTargets(run.nodes[at]) + EnterTargets(run.nodes[at])
    requires at in ctx || next in EnterTargets(run.nodes[at])
    ensures PathBetween(RunEdges(run.nodes), path + [next], run.entry, next)
    ensures Settled(run.nodes, path + [next], ctx)
  {
    PathExtends(RunEdges(run.nodes), path, run.entry, at, next);
    SettledExtends(run.nodes, path, next, ctx);
  }

  lemma SettledExtends(nodes: map<string, Node>, path: seq<string>, next: string, ctx: Context)
    requires path != [] && Settled(nodes, path, ctx)
    requires path[|path| - 1] in ctx || Entering(nodes, path[|path| - 1], next)
    ensures Settled(nodes, path + [next], ctx)
  {
  }

  // --- which references are always found ------------------------------------------------------------

  // Every way a run can get to the consumer has, earlier, left the source with its output recorded.
  ghost predicate AlwaysBefore(nodes: map<string, Node>, entry: string, source: string, consumer: string) {
    forall path :: PathBetween(RunEdges(nodes), path, entry, consumer) ==> LeavesSettled(nodes, path, source)
  }

  ghost predicate LeavesSettled(nodes: map<string, Node>, path: seq<string>, source: string) {
    exists i, j :: 0 <= i && j == i + 1 && j < |path| && path[i] == source && !Entering(nodes, path[i], path[j])
  }

  lemma SettledSourceIsFound(run: Run, v: Visit, source: string)
    requires OnSettledPath(run, v) && AlwaysBefore(run.nodes, run.entry, source, v.node)
    ensures source in v.ctx
  {
    var path :| PathBetween(RunEdges(run.nodes), path, run.entry, v.node) && Settled(run.nodes, path, v.ctx);
    assert LeavesSettled(run.nodes, path, source);
  }

  // --- straight-line programs -------------------------------------------------------------------------

  // The only successor edges are `next`.
  predicate StraightLine(p: Program) {
    forall i :: 0 <= i < |p.pipeline| ==>
      var node := p.pipeline[i];
      match node
      case Action(_, _, _, _, errorTo, _) => errorTo.None?
      case Query(_, _, _, _, errorTo) => errorTo.None?
      case Wait(_, _) => true
      case Notify(_, _, _) => true
      case _ => false
  }

  lemma StraightEdges(p: Program)
    requires StraightLine(p) && NoDangling(p)
    ensures RunEdges(NodeMap(p)) == EdgesOf(p)
    ensures forall id :: id in EdgesOf(p) ==> |EdgesOf(p)[id]| <= 1
  {
    forall id | id in NodeIds(p) ensures RunEdges(NodeMap(p))[id] == EdgesOf(p)[id] {
      StraightEdge(p, id);
    }
    SameEdges(RunEdges(NodeMap(p)), EdgesOf(p), NodeIds(p));
    forall id | id in EdgesOf(p) ensures |EdgesOf(p)[id]| <= 1 {
      StraightEdge(p, id);
    }
  }

  lemma SameEdges<V>(a: Edges<V>, b: Edges<V>, nodes: set<V>)
    requires a.Keys == nodes && b.Keys == nodes && forall v :: v in nodes ==> a[v] == b[v]
    ensures a == b
  {
  }

  lemma StraightEdge(p: Program, id: string)
    requires StraightLine(p) && NoDangling(p) && id in NodeIds(p)
    ensures RunEdges(NodeMap(p))[id] == EdgesOf(p)[id] && |EdgesOf(p)[id]| <= 1
  {
    StraightNode(p, id);
    WithinAll(SuccessorTargets(NodeAt(p, id)), NodeIds(p));
  }

  lemma StraightNode(p: Program, id: string)
    requires StraightLine(p) && NoDangling(p) && id in NodeIds(p)
    ensures var node := NodeAt(p, id);
            && WalkTargets(node) + EnterTargets(node) == SuccessorTargets(node)
            && |SuccessorTargets(node)| <= 1 && EnterTargets(node) == []
            && forall t :: t in SuccessorTargets(node) ==> t in NodeIds(p)
  {
    assert p.pipeline[Position(p, id)] == NodeAt(p, id);
  }

  // Where everyone has at most one successor, two paths from the same node agree as far as both go.
  lemma {:induction false} PathsAgree<V>(e: Edges<V>, a: seq<V>, b: seq<V>, k: nat)
    requires IsPath(e, a) && IsPath(e, b) && a[0] == b[0] && k < |a| && k < |b|
    requires forall v :: v in e ==> |e[v]| <= 1
    ensures a[k] == b[k]
  {
    if k > 0 {
      PathsAgree(e, a, b, k - 1);
      assert Edge(e, a[k - 1], a[k]) && Edge(e, b[k - 1], b[k]);
    }
  }

  /** In an admitted straight-line program the topological order check is exact enough: the source of
      every reference to a defined step lies settled on every way to the consumer. */
  lemma SourceLiesBefore(p: Program, order: seq<string>, source: string, consumer: string)
    requires SchemaOk(p) && NoDangling(p) && AllReachable(p) && NoneMisplaced(p, order) && StraightLine(p)
    requires Members(order) == NodeIds(p) && Topological(EdgesOf(p), order)
    requires consumer in NodeIds(p) && source in ReferenceSources(NodeAt(p, consumer)) && source in NodeIds(p)
    ensures AlwaysBefore(NodeMap(p), p.entry, source, consumer)
  {
    StraightEdges(p);
    StepIdsAreNotBindings(p, source);
    if Reaches(EdgesOf(p), consumer, source) {
      ForwardReferenceVerdict(p, order, consumer, source);
      assert false;
    }
    var q :| PathBetween(EdgesOf(p), q, p.entry, source);
    forall path | PathBetween(EdgesOf(p), path, p.entry, consumer) ensures LeavesSettled(NodeMap(p), path, source) {
      EarlierOnThePath(p, q, path, source, consumer);
    }
  }

  lemma EarlierOnThePath(p: Program, q: seq<string>, path: seq<string>, source: string, consumer: string)
    requires StraightLine(p) && NoDangling(p) && source in NodeIds(p)
    requires forall id :: id in EdgesOf(p) ==> |EdgesOf(p)[id]| <= 1
    requires PathBetween(EdgesOf(p), q, p.entry, source) && PathBetween(EdgesOf(p), path, p.entry, consumer)
    requires !Reaches(EdgesOf(p), consumer, source)
    ensures LeavesSettled(NodeMap(p), path, source)
  {
    OnlyPathPasses(EdgesOf(p), q, path, p.entry, source, consumer);
    StraightNode(p, source);
    LeavesWithoutEntering(NodeMap(p), path, |q| - 1);
  }

  lemma LeavesWithoutEntering(nodes: map<string, Node>, path: seq<string>, i: nat)
    requires i + 1 < |path| && path[i] in nodes && EnterTargets(nodes[path[i]]) == []
    ensures LeavesSettled(nodes, path, path[i])
  {
    assert !Entering(nodes, path[i], path[i + 1]);
  }

  // Along single successors, the way to a node that cannot get to `source` passes through `source`.
  lemma OnlyPathPasses<V(!new)>(e: Edges<V>, q: seq<V>, path: seq<V>, entry: V, source: V, consumer: V)
    requires forall v :: v in e ==> |e[v]| <= 1
    requires PathBetween(e, q, entry, source) && PathBetween(e, path, entry, consumer)
    requires !Reaches(e, consumer, source)
    ensures |q| < |path| && path[|q| - 1] == source
  {
    if |q| < |path| {
      PathsAgree(e, path, q, |q| - 1);
    } else {
      PathsAgree(e, path, q, |path| - 1);
      assert PathBetween(e, q[|path| - 1..], consumer, source);
    }
  }

  lemma StepIdsAreNotBindings(p: Program, id: string)
    requires SchemaOk(p) && id in NodeIds(p)
    ensures id != "item" && id != "input"
  {
    assert IsStepId(p.pipeline[Position(p, id)].id);
  }
}
