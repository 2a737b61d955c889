/** The program AST: node shapes, the structural gate, successors and data-reference sources. */
module Dsl {
  import opened Values
  import opened References
  import opened Guards
  import opened Graph
  import opened Kahn

  const MAX_NODES := 256

  datatype OnError = Halt | Continue | Compensate

  datatype Compensation = Compensation(verb: string, args: map<string, Json>)

  // errorTo is the target of the node's error policy: an edge for the validator, never walked.
  datatype Node =
    | Action(id: string, verb: string, args: map<string, Json>, next: Option<string>, errorTo: Option<string>,
             undo: Option<Compensation>)
    | Query(id: string, verb: string, args: map<string, Json>, next: Option<string>, errorTo: Option<string>)
    | Condition(id: string, guard: seq<Tok>, onTrue: string, onFalse: Option<string>, next: Option<string>)
    | Parallel(id: string, branches: seq<string>, next: Option<string>)
    | Foreach(id: string, items: string, binder: string, body: string, maxItems: nat, next: Option<string>)
    | AwaitApproval(id: string, proposal: string, onApproved: string, onRejected: Option<string>,
                    onTimeout: Option<string>)
    | Wait(id: string, next: Option<string>)
    | Notify(id: string, message: map<string, Json>, next: Option<string>)

  datatype Program = Program(entry: string, pipeline: seq<Node>, onError: OnError)

  function Ids(p: Program): (ids: seq<string>)
    ensures |ids| == |p.pipeline|
    ensures forall i :: 0 <= i < |ids| ==> ids[i] == p.pipeline[i].id
  {
    seq(|p.pipeline|, i requires 0 <= i < |p.pipeline| => p.pipeline[i].id)
  }

  function NodeIds(p: Program): set<string> {
    Members(Ids(p))
  }

  // The structural gate V1, as far as the later passes and the executor rely on it.
  predicate SchemaOk(p: Program) {
    && 1 <= |p.pipeline| <= MAX_NODES
    && Distinct(Ids(p))
    && forall i :: 0 <= i < |p.pipeline| ==> IsStepId(p.pipeline[i].id)
  }

  function Listed(o: Option<string>): seq<string> {
    if o.Some? then [o.value] else []
  }

  // The control-flow targets a node names, in the order they are collected.
  function SuccessorTargets(node: Node): seq<string> {
    match node
    case Action(_, _, _, next, errorTo, _) => Listed(next) + Listed(errorTo)
    case Query(_, _, _, next, errorTo) => Listed(next) + Listed(errorTo)
    case Condition(_, _, onTrue, onFalse, next) => Listed(next) + [onTrue] + Listed(onFalse)
    case Parallel(_, branches, next) => Listed(next) + branches
    case Foreach(_, _, _, body, _, next) => Listed(next) + [body]
    case AwaitApproval(_, _, onApproved, onRejected, onTimeout) => [onApproved] + Listed(onRejected) + Listed(onTimeout)
    case Wait(_, next) => Listed(next)
    case Notify(_, _, next) => Listed(next)
  }

  function Within(targets: seq<string>, ids: set<string>): (r: seq<string>)
    ensures forall t :: t in r <==> t in targets && t in ids
  {
    if targets == [] then []
    else if targets[0] in ids then [targets[0]] + Within(targets[1..], ids)
    else Within(targets[1..], ids)
  }

  lemma {:induction false} WithinAll(targets: seq<string>, ids: set<string>)
    requires forall t :: t in targets ==> t in ids
    ensures Within(targets, ids) == targets
  {
    if targets != [] {
      assert targets[0] in targets;
      WithinAll(targets[1..], ids);
    }
  }

  // The position of an id in the pipeline.
  function Position(p: Program, id: string): (i: nat)
    requires id in NodeIds(p)
    ensures i < |p.pipeline| && p.pipeline[i].id == id
  {
    FirstAt(p.pipeline, id)
  }

  function FirstAt(nodes: seq<Node>, id: string): (i: nat)
    requires exists k :: 0 <= k < |nodes| && nodes[k].id == id
    ensures i < |nodes| && nodes[i].id == id
  {
    if nodes[0].id == id then 0 else 1 + FirstAt(nodes[1..], id)
  }

  function NodeAt(p: Program, id: string): (node: Node)
    requires id in NodeIds(p)
    ensures node.id == id && node in p.pipeline
  {
    p.pipeline[Position(p, id)]
  }

  lemma NodeAtIsUnique(p: Program, i: nat)
    requires Distinct(Ids(p)) && i < |p.pipeline|
    ensures p.pipeline[i].id in NodeIds(p) && NodeAt(p, p.pipeline[i].id) == p.pipeline[i]
  {
    var ids := Ids(p);
    assert ids[i] in ids;
    assert ids[Position(p, ids[i])] == ids[i];
  }

  // The graph the passes work on: edges to undefined nodes are dropped.
  function EdgesOf(p: Program): (e: Edges<string>)
    ensures e.Keys == NodeIds(p)
  {
    map id | id in NodeIds(p) :: Within(SuccessorTargets(NodeAt(p, id)), NodeIds(p))
  }

  lemma EdgesAreClosed(p: Program)
    ensures Closed(EdgesOf(p), NodeIds(p))
  {
  }

  // The steps whose outputs a node's data references read.
  function ReferenceSources(node: Node): set<string> {
    match node
    case Action(_, _, args, _, _, _) => Sources(RefsIn(Obj(args)))
    case Query(_, _, args, _, _) => Sources(RefsIn(Obj(args)))
    case Condition(_, guard, _, _, _) => set i | 0 <= i < |guard| && guard[i].RefTok? :: guard[i].ref.source
    case Foreach(_, items, _, _, _, _) => Sources(RefsIn(Str(items)))
    case AwaitApproval(_, proposal, _, _, _) => Sources(RefsIn(Str(proposal)))
    case Notify(_, message, _) => Sources(RefsIn(Obj(message)))
    case Parallel(_, _, _) => {}
    case Wait(_, _) => {}
  }

  function Sources(refs: set<Reference>): set<string> {
    set r | r in refs :: r.source
  }

  // node_map: id -> node.
  function NodeMap(p: Program): (m: map<string, Node>)
    ensures m.Keys == NodeIds(p)
    ensures forall id :: id in m ==> m[id] == NodeAt(p, id)
  {
    map id | id in NodeIds(p) :: NodeAt(p, id)
  }

  // The node names the target as the one after it, or as the one its error policy goes to.
  predicate GoesOnTo(node: Node, t: string) {
    || (!node.AwaitApproval? && node.next == Some(t))
    || ((node.Action? || node.Query?) && node.errorTo == Some(t))
  }

  // Or as one of its branches.
  predicate BranchesTo(node: Node, t: string) {
    || (node.Condition? && (node.onTrue == t || node.onFalse == Some(t)))
    || (node.Parallel? && t in node.branches)
    || (node.Foreach? && node.body == t)
    || (node.AwaitApproval? && (node.onApproved == t || node.onRejected == Some(t) || node.onTimeout == Some(t)))
  }

  /** The targets of a node are those it names, whatever it names them for. */
  lemma TargetsAreThoseNamed(node: Node, t: string)
    ensures t in SuccessorTargets(node) <==> GoesOnTo(node, t) || BranchesTo(node, t)
  {
  }
}
