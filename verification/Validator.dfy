/** The admission passes over the program graph: reference integrity (V2), acyclicity (V3),
    reachability, terminality and forward references (V6). */
module Validator {
  import opened Graph
  import opened Kahn
  import opened Dsl

  datatype Diag =
    | Schema
    | DanglingEntry
    | DanglingRef(node: string, target: string)
    | Cycle(leftOver: set<string>)
    | Unreachable(node: string)
    | NoTerminal
    | ForwardRef(node: string, source: string)

  // --- V2 ---------------------------------------------------------------------------------------

  predicate NoDangling(p: Program) {
    && p.entry in NodeIds(p)
    && forall i :: 0 <= i < |p.pipeline| ==>
         forall t :: t in SuccessorTargets(p.pipeline[i]) ==> t in NodeIds(p)
  }

  // One of the first k nodes is n and names the undefined target t.
  ghost predicate Dangles(p: Program, k: nat, n: string, t: string)
    requires k <= |p.pipeline|
  {
    exists i :: 0 <= i < k && p.pipeline[i].id == n && t in SuccessorTargets(p.pipeline[i]) && t !in NodeIds(p)
  }

  method CheckReferences(p: Program) returns (diags: seq<Diag>)
    ensures DanglingEntry in diags <==> p.entry !in NodeIds(p)
    ensures forall n, t :: DanglingRef(n, t) in diags <==> Dangles(p, |p.pipeline|, n, t)
    ensures forall d :: d in diags ==> d.DanglingEntry? || d.DanglingRef?
    ensures diags == [] <==> NoDangling(p)
  {
    diags := if p.entry in NodeIds(p) then [] else [DanglingEntry];
    for i := 0 to |p.pipeline|
      invariant DanglingEntry in diags <==> p.entry !in NodeIds(p)
      invariant forall d :: d in diags ==> d.DanglingEntry? || d.DanglingRef?
      invariant forall n, t :: DanglingRef(n, t) in diags <==> Dangles(p, i, n, t)
    {
      var more := DanglingFrom(p.pipeline[i], NodeIds(p));
      MoreDangling(p, i, diags, more);
      diags := diags + more;
    }
    NothingDangles(p, diags);
  }

  lemma MoreDangling(p: Program, k: nat, diags: seq<Diag>, more: seq<Diag>)
    requires k < |p.pipeline| && forall n, t :: DanglingRef(n, t) in diags <==> Dangles(p, k, n, t)
    requires forall d :: d in more ==> d.DanglingRef? && d.node == p.pipeline[k].id
    requires forall t :: DanglingRef(p.pipeline[k].id, t) in more <==>
               t in SuccessorTargets(p.pipeline[k]) && t !in NodeIds(p)
    ensures forall n, t :: DanglingRef(n, t) in diags + more <==> Dangles(p, k + 1, n, t)
  {
    forall n, t ensures DanglingRef(n, t) in diags + more <==> Dangles(p, k + 1, n, t) {
      assert DanglingRef(n, t) in diags + more <==> DanglingRef(n, t) in diags || DanglingRef(n, t) in more;
      assert Dangles(p, k + 1, n, t) <==>
             Dangles(p, k, n, t) || (p.pipeline[k].id == n && t in SuccessorTargets(p.pipeline[k]) && t !in NodeIds(p));
    }
  }

  lemma NothingDangles(p: Program, diags: seq<Diag>)
    requires DanglingEntry in diags <==> p.entry !in NodeIds(p)
    requires forall d :: d in diags ==> d.DanglingEntry? || d.DanglingRef?
    requires forall n, t :: DanglingRef(n, t) in diags <==> Dangles(p, |p.pipeline|, n, t)
    ensures diags == [] <==> NoDangling(p)
  {
    if diags != [] && p.entry in NodeIds(p) {
      var d := diags[0];
      assert DanglingRef(d.node, d.target) in diags;
      assert Dangles(p, |p.pipeline|, d.node, d.target);
    }
    if !NoDangling(p) && p.entry in NodeIds(p) {
      var i, t :| 0 <= i < |p.pipeline| && t in SuccessorTargets(p.pipeline[i]) && t !in NodeIds(p);
      assert Dangles(p, |p.pipeline|, p.pipeline[i].id, t);
    }
  }

  method DanglingFrom(node: Node, ids: set<string>) returns (diags: seq<Diag>)
    ensures forall d :: d in diags ==> d.DanglingRef? && d.node == node.id
    ensures forall t :: DanglingRef(node.id, t) in diags <==> t in SuccessorTargets(node) && t !in ids
  {
    diags := [];
    var targets := SuccessorTargets(node);
    for j := 0 to |targets|
      invariant forall d :: d in diags ==> d.DanglingRef? && d.node == node.id
      invariant forall t :: DanglingRef(node.id, t) in diags <==> t in targets[..j] && t !in ids
    {
      assert targets[..j + 1] == targets[..j] + [targets[j]];
      if targets[j] !in ids {
        diags := diags + [DanglingRef(node.id, targets[j])];
      }
    }
    assert targets[..|targets|] == targets;
  }

  // --- V3 ---------------------------------------------------------------------------------------

  ghost predicate Cyclic(p: Program) {
    exists v :: v in NodeIds(p) && OnCycle(EdgesOf(p), v)
  }

  // The nodes that lie on a cycle or are reachable from one.
  ghost predicate Downstream(p: Program, v: string) {
    exists c :: c in NodeIds(p) && OnCycle(EdgesOf(p), c) && Reaches(EdgesOf(p), c, v)
  }

  method CheckAcyclicity(p: Program) returns (order: seq<string>, acyclic: bool, diags: seq<Diag>)
    requires Distinct(Ids(p))
    ensures acyclic <==> !Cyclic(p)
    ensures acyclic ==> diags == [] && Members(order) == NodeIds(p) && Topological(EdgesOf(p), order)
    ensures !acyclic ==> |diags| == 1 && diags[0].Cycle? && diags[0].leftOver != {}
    ensures !acyclic ==> forall v :: v in diags[0].leftOver <==> v in NodeIds(p) && Downstream(p, v)
  {
    EdgesAreClosed(p);
    order := TopologicalSort(Ids(p), EdgesOf(p));
    SortDecides(p, order);
    acyclic := |order| == |NodeIds(p)|;
    diags := if acyclic then [] else [Cycle(NodeIds(p) - Members(order))];
  }

  lemma SortDecides(p: Program, order: seq<string>)
    requires Distinct(order) && Members(order) <= NodeIds(p) && PredecessorsFirst(EdgesOf(p), order)
    requires forall n :: n in NodeIds(p) && n !in order ==> n in Bag(EdgesOf(p), NodeIds(p) - Members(order))
    ensures Topological(EdgesOf(p), order)
    ensures |order| == |NodeIds(p)| <==> NodeIds(p) - Members(order) == {}
    ensures |order| == |NodeIds(p)| <==> Members(order) == NodeIds(p)
    ensures |order| == |NodeIds(p)| <==> !Cyclic(p)
    ensures forall v :: v in NodeIds(p) - Members(order) <==> v in NodeIds(p) && Downstream(p, v)
  {
    LeftOverIsDownstream(p, order);
    OrderIsTopological(p, order);
    ShortMeansLeftOver(order, NodeIds(p));
    NoneDownstream(p, NodeIds(p) - Members(order));
  }

  lemma NoneDownstream(p: Program, left: set<string>)
    requires forall v :: v in left <==> v in NodeIds(p) && Downstream(p, v)
    ensures left == {} <==> !Cyclic(p)
  {
    CyclicMeansDownstream(p);
  }

  lemma LeftOverIsDownstream(p: Program, order: seq<string>)
    requires Distinct(order) && Members(order) <= NodeIds(p) && PredecessorsFirst(EdgesOf(p), order)
    requires forall n :: n in NodeIds(p) && n !in order ==> n in Bag(EdgesOf(p), NodeIds(p) - Members(order))
    ensures forall v :: v in NodeIds(p) - Members(order) <==> v in NodeIds(p) && Downstream(p, v)
  {
    EdgesAreClosed(p);
    forall v | v in NodeIds(p) ensures v in Members(order) <==> !Downstream(p, v) {
      LeftOverExactly(EdgesOf(p), NodeIds(p), order, v);
    }
  }

  lemma OrderIsTopological(p: Program, order: seq<string>)
    requires Distinct(order) && Members(order) <= NodeIds(p) && PredecessorsFirst(EdgesOf(p), order)
    ensures Topological(EdgesOf(p), order)
  {
    EdgesAreClosed(p);
    forall v | v in order ensures v in EdgesOf(p) { assert v in Members(order); }
    ProcessedIsTopological(EdgesOf(p), order);
  }

  lemma CyclicMeansDownstream(p: Program)
    ensures Cyclic(p) <==> exists v :: v in NodeIds(p) && Downstream(p, v)
  {
    if Cyclic(p) {
      var v :| v in NodeIds(p) && OnCycle(EdgesOf(p), v);
      ReachesSelf(EdgesOf(p), v);
      assert Downstream(p, v);
    }
  }

  // Comparing lengths, as the pass does, tells whether something was left over.
  lemma ShortMeansLeftOver<V>(order: seq<V>, nodes: set<V>)
    requires Distinct(order) && Members(order) <= nodes
    ensures |order| == |nodes| <==> nodes - Members(order) == {}
  {
    DistinctCount(order);
    var left := nodes - Members(order);
    assert nodes == Members(order) + left;
  }

  lemma OneMember<V>(init: seq<V>, last: V)
    ensures Members(init + [last]) == Members(init) + {last}
  {
    forall x ensures x in Members(init + [last]) <==> x in Members(init) + {last} {}
  }

  lemma {:induction false} DistinctCount<V>(s: seq<V>)
    requires Distinct(s)
    ensures |Members(s)| == |s|
  {
    if s != [] {
      var init, last := s[..|s| - 1], s[|s| - 1];
      DistinctCount(init);
      assert s == init + [last];
      OneMember(init, last);
      assert last !in Members(init);
    }
  }

  // --- V6 ---------------------------------------------------------------------------------------

  ghost predicate ReachableFromEntry(p: Program, v: string) {
    p.entry in NodeIds(p) && Reaches(EdgesOf(p), p.entry, v)
  }

  method ReachableSet(p: Program) returns (reachable: set<string>)
    ensures forall v :: v in reachable <==> ReachableFromEntry(p, v)
  {
    var e := EdgesOf(p);
    EdgesAreClosed(p);
    reachable := {};
    if p.entry in NodeIds(p) {
      reachable := Explore(e, NodeIds(p), p.entry);
    }
  }

  method Explore(e: Edges<string>, nodes: set<string>, entry: string) returns (reachable: set<string>)
    requires e.Keys == nodes && Closed(e, nodes) && entry in nodes
    ensures forall v :: v in reachable <==> Reaches(e, entry, v)
  {
    reachable := {};
    var frontier := [entry];
    ReachesSelf(e, entry);
    while frontier != []
      invariant reachable <= nodes && forall v :: v in frontier ==> v in nodes
      invariant forall v :: v in reachable || v in frontier ==> Reaches(e, entry, v)
      invariant entry in reachable || entry in frontier
      invariant forall a, b {:trigger Edge(e, a, b)} :: a in reachable && Edge(e, a, b) ==>
                  b in reachable || b in frontier
      decreases nodes - reachable, |frontier|
    {
      var nid := frontier[|frontier| - 1];
      ghost var before := frontier;
      frontier := frontier[..|frontier| - 1];
      assert before == frontier + [nid];
      if nid !in reachable {
        reachable := reachable + {nid};
        forall t | t in e[nid] ensures t in nodes && Reaches(e, entry, t) {
          assert Edge(e, nid, t);
          ReachesSelf(e, t);
          EdgeThenReaches(e, nid, t, t);
          ReachesTransitive(e, entry, nid, t);
        }
        frontier := frontier + e[nid];
      }
    }
    forall v | Reaches(e, entry, v) ensures v in reachable {
      var path :| PathBetween(e, path, entry, v);
      ClosedUnderPaths(e, reachable, path);
    }
  }

  lemma {:induction false} ClosedUnderPaths(e: Edges<string>, S: set<string>, path: seq<string>)
    requires IsPath(e, path) && path[0] in S
    requires forall a, b {:trigger Edge(e, a, b)} :: a in S && Edge(e, a, b) ==> b in S
    ensures path[|path| - 1] in S
  {
    if |path| > 1 {
      ClosedUnderPaths(e, S, path[..|path| - 1]);
      assert Edge(e, path[|path| - 2], path[|path| - 1]);
    }
  }

  predicate EndsWalk(p: Program, v: string)
    requires v in NodeIds(p)
  {
    SuccessorTargets(NodeAt(p, v)) == []
  }

  // Exactly which V6 diagnostics are due.
  ghost predicate ReachabilityVerdict(p: Program, order: seq<string>, acyclic: bool, diags: seq<Diag>) {
    && (forall v :: Unreachable(v) in diags <==> v in NodeIds(p) && !ReachableFromEntry(p, v))
    && (NoTerminal in diags <==> NeverEnds(p))
    && (forall n, s :: ForwardRef(n, s) in diags <==> acyclic && Misplaced(p, order, n, s))
    && (forall d :: d in diags ==> d.Unreachable? || d.NoTerminal? || d.ForwardRef?)
  }

  method CheckReachability(p: Program, order: seq<string>, acyclic: bool) returns (diags: seq<Diag>)
    requires Distinct(Ids(p))
    requires acyclic ==> Distinct(order) && Members(order) == NodeIds(p)
    ensures ReachabilityVerdict(p, order, acyclic, diags)
  {
    diags := CheckReachable(p);
    if acyclic {
      var forward := ForwardReferences(p, order);
      diags := diags + forward;
    }
  }

  method CheckReachable(p: Program) returns (diags: seq<Diag>)
    ensures forall v :: Unreachable(v) in diags <==> v in NodeIds(p) && !ReachableFromEntry(p, v)
    ensures NoTerminal in diags <==> NeverEnds(p)
    ensures forall d :: d in diags ==> d.Unreachable? || d.NoTerminal?
  {
    var reachable := ReachableSet(p);
    ReachableFacts(p, reachable);
    var missing := UnreachableOnes(NodeIds(p) - reachable);
    var ends := reachable == {} || SomeEnds(p, reachable);
    diags := if ends then missing else missing + [NoTerminal];
    BothVerdicts(p, reachable, missing, ends, diags);
  }

  lemma BothVerdicts(p: Program, reachable: set<string>, missing: seq<Diag>, ends: bool, diags: seq<Diag>)
    requires reachable <= NodeIds(p) && forall v :: v in reachable <==> ReachableFromEntry(p, v)
    requires !ends <==> NeverEnds(p)
    requires forall d :: d in missing ==> d.Unreachable?
    requires forall v {:trigger Unreachable(v)} :: Unreachable(v) in missing <==> v in NodeIds(p) - reachable
    requires diags == if ends then missing else missing + [NoTerminal]
    ensures forall v :: Unreachable(v) in diags <==> v in NodeIds(p) && !ReachableFromEntry(p, v)
    ensures NoTerminal in diags <==> NeverEnds(p)
    ensures forall d :: d in diags ==> d.Unreachable? || d.NoTerminal?
  {
    Appended(missing, NoTerminal);
  }

  lemma Appended(diags: seq<Diag>, last: Diag)
    ensures forall d :: d in diags + [last] <==> d in diags || d == last
  {
  }

  predicate SomeEnds(p: Program, reachable: set<string>)
    requires reachable <= NodeIds(p)
  {
    exists v :: v in reachable && EndsWalk(p, v)
  }

  // The entry is defined and no node the walk can get to is without successors.
  ghost predicate NeverEnds(p: Program) {
    && p.entry in NodeIds(p)
    && forall v :: v in NodeIds(p) && ReachableFromEntry(p, v) ==> !EndsWalk(p, v)
  }

  lemma ReachableFacts(p: Program, reachable: set<string>)
    requires forall v :: v in reachable <==> ReachableFromEntry(p, v)
    ensures reachable <= NodeIds(p)
    ensures reachable != {} && !SomeEnds(p, reachable) <==> NeverEnds(p)
  {
    EdgesAreClosed(p);
    forall v | v in reachable ensures v in NodeIds(p) {
      ReachesStaysIn(EdgesOf(p), NodeIds(p), p.entry, v);
    }
    if p.entry in NodeIds(p) {
      ReachesSelf(EdgesOf(p), p.entry);
      assert p.entry in reachable;
    }
  }

  method UnreachableOnes(missing: set<string>) returns (diags: seq<Diag>)
    ensures forall d :: d in diags ==> d.Unreachable?
    ensures forall v {:trigger Unreachable(v)} :: Unreachable(v) in diags <==> v in missing
  {
    diags := [];
    var left := missing;
    while left != {}
      invariant left <= missing
      invariant forall d :: d in diags ==> d.Unreachable?
      invariant forall v :: Unreachable(v) in diags <==> v in missing && v !in left
      decreases left
    {
      var v :| v in left;
      left := left - {v};
      diags := diags + [Unreachable(v)];
    }
  }

  // The consumer does not come after its source in the order.
  ghost predicate Misplaced(p: Program, order: seq<string>, consumer: string, source: string) {
    && consumer in NodeIds(p) && source in ReferenceSources(NodeAt(p, consumer))
    && source != "item" && source != "input" && source in order
    && exists i, j :: 0 <= j <= i < |order| && order[i] == source && order[j] == consumer
  }

  method ForwardReferences(p: Program, order: seq<string>) returns (diags: seq<Diag>)
    requires Distinct(Ids(p)) && Distinct(order) && Members(order) == NodeIds(p)
    ensures forall d :: d in diags ==> d.ForwardRef?
    ensures forall n, s :: ForwardRef(n, s) in diags <==> Misplaced(p, order, n, s)
  {
    diags := [];
    for k := 0 to |p.pipeline|
      invariant forall d :: d in diags ==> d.ForwardRef?
      invariant forall n, s :: ForwardRef(n, s) in diags <==> Misplaced(p, order, n, s) && Position(p, n) < k
    {
      NodeAtIsUnique(p, k);
      var more := ForwardReferencesOf(p, order, p.pipeline[k]);
      PositionOf(p, k);
      diags := diags + more;
    }
  }

  lemma PositionOf(p: Program, k: nat)
    requires Distinct(Ids(p)) && k < |p.pipeline|
    ensures forall id :: id in NodeIds(p) ==> (Position(p, id) == k <==> id == p.pipeline[k].id)
  {
    var ids := Ids(p);
    forall id | id in NodeIds(p) ensures Position(p, id) == k <==> id == p.pipeline[k].id {
      assert ids[Position(p, id)] == id && ids[k] == p.pipeline[k].id;
    }
  }

  method ForwardReferencesOf(p: Program, order: seq<string>, node: Node) returns (diags: seq<Diag>)
    requires Distinct(order) && Members(order) == NodeIds(p)
    requires node.id in NodeIds(p) && NodeAt(p, node.id) == node
    ensures forall d :: d in diags ==> d.ForwardRef? && d.node == node.id
    ensures forall s :: ForwardRef(node.id, s) in diags <==> Misplaced(p, order, node.id, s)
  {
    diags := [];
    var sources := ReferenceSources(node);
    var left := sources;
    while left != {}
      invariant left <= sources
      invariant forall d :: d in diags ==> d.ForwardRef? && d.node == node.id
      invariant forall s :: ForwardRef(node.id, s) in diags <==> s !in left && Misplaced(p, order, node.id, s)
      decreases left
    {
      var source :| source in left;
      left := left - {source};
      if source != "item" && source != "input" && source in order {
        var i, j := IndexIn(order, source), IndexIn(order, node.id);
        if i >= j {
          diags := diags + [ForwardRef(node.id, source)];
        }
      }
    }
  }

  function IndexIn(order: seq<string>, v: string): (i: nat)
    requires v in order
    ensures i < |order| && order[i] == v
  {
    if order[0] == v then 0 else 1 + IndexIn(order[1..], v)
  }

  lemma MisplacedByIndex(p: Program, order: seq<string>, consumer: string, source: string)
    requires Distinct(order) && consumer in order && source in order && consumer in NodeIds(p)
    requires source in ReferenceSources(NodeAt(p, consumer)) && source != "item" && source != "input"
    ensures Misplaced(p, order, consumer, source) <==> IndexIn(order, consumer) <= IndexIn(order, source)
  {
    var i, j := IndexIn(order, source), IndexIn(order, consumer);
    assert order[i] == source && order[j] == consumer;
  }

  /** A reference to the consumer itself or to a step downstream of it is always reported, and one to
      a strict ancestor never is, whichever topological order the sort came up with. */
  lemma ForwardReferenceVerdict(p: Program, order: seq<string>, consumer: string, source: string)
    requires Members(order) == NodeIds(p) && Topological(EdgesOf(p), order)
    requires consumer in NodeIds(p) && source in NodeIds(p)
    requires source in ReferenceSources(NodeAt(p, consumer)) && source != "item" && source != "input"
    ensures Reaches(EdgesOf(p), consumer, source) ==> Misplaced(p, order, consumer, source)
    ensures StrictlyReaches(EdgesOf(p), source, consumer) ==> !Misplaced(p, order, consumer, source)
  {
    InOrder(p, order);
    MisplacedByIndex(p, order, consumer, source);
    if Reaches(EdgesOf(p), consumer, source) && consumer != source {
      ReachesAnother(EdgesOf(p), consumer, source);
      AncestorsComeFirst(p, order, consumer, source);
    }
    if StrictlyReaches(EdgesOf(p), source, consumer) {
      AncestorsComeFirst(p, order, source, consumer);
    }
  }

  lemma ReachesAnother(e: Edges<string>, a: string, b: string)
    requires Reaches(e, a, b) && a != b
    ensures StrictlyReaches(e, a, b)
  {
    var path :| PathBetween(e, path, a, b);
    assert |path| >= 2;
  }

  lemma AncestorsComeFirst(p: Program, order: seq<string>, earlier: string, later: string)
    requires Members(order) == NodeIds(p) && Topological(EdgesOf(p), order)
    requires earlier in order && later in order && StrictlyReaches(EdgesOf(p), earlier, later)
    ensures IndexIn(order, earlier) < IndexIn(order, later)
  {
    EdgesAreClosed(p);
    InOrder(p, order);
    OrderFollowsReach(EdgesOf(p), order, NodeIds(p), IndexIn(order, earlier), IndexIn(order, later));
  }

  lemma InOrder(p: Program, order: seq<string>)
    requires Members(order) == NodeIds(p)
    ensures forall v :: v in order <==> v in NodeIds(p)
  {
    forall v ensures v in order <==> v in NodeIds(p) {
      assert v in Members(order) <==> v in order;
    }
  }

  ghost function ReachableNodes(p: Program): set<string> {
    set v | v in NodeIds(p) && ReachableFromEntry(p, v)
  }

  function Onward(p: Program, v: string): string {
    if v in NodeIds(p) && SuccessorTargets(NodeAt(p, v)) != [] then SuccessorTargets(NodeAt(p, v))[0] else v
  }

  /** With every target defined and no cycle, the terminality diagnostic can never be raised:
      if everyone reachable had a successor, walking onward would never stop. */
  lemma AcyclicProgramsEnd(p: Program)
    requires NoDangling(p) && !Cyclic(p)
    ensures !NeverEnds(p)
  {
    if NeverEnds(p) {
      EntryIsReachable(p);
      var onward := (v: string) => Onward(p, v);
      forall v {:trigger onward(v)} | v in ReachableNodes(p)
        ensures onward(v) in ReachableNodes(p) && Edge(EdgesOf(p), v, onward(v))
      {
        StepStaysReachable(p, v, Onward(p, v));
      }
      var c := CycleDownstream(EdgesOf(p), ReachableNodes(p), onward, p.entry);
    }
  }

  lemma EntryIsReachable(p: Program)
    requires p.entry in NodeIds(p)
    ensures p.entry in ReachableNodes(p)
  {
    ReachesSelf(EdgesOf(p), p.entry);
  }

  lemma StepStaysReachable(p: Program, v: string, w: string)
    requires NoDangling(p) && v in NodeIds(p) && ReachableFromEntry(p, v)
    requires w in SuccessorTargets(NodeAt(p, v))
    ensures w in NodeIds(p) && ReachableFromEntry(p, w) && Edge(EdgesOf(p), v, w)
  {
    var e := EdgesOf(p);
    assert w in e[v];
    ReachesSelf(e, w);
    EdgeThenReaches(e, v, w, w);
    ReachesTransitive(e, p.entry, v, w);
  }

  // The complete verdict of these passes.
  ghost predicate AllReachable(p: Program) {
    forall v :: v in NodeIds(p) ==> ReachableFromEntry(p, v)
  }

  ghost predicate NoneMisplaced(p: Program, order: seq<string>) {
    forall n, s :: !Misplaced(p, order, n, s)
  }

  method Validate(p: Program) returns (diags: seq<Diag>, order: seq<string>)
    ensures diags == [] <==>
            SchemaOk(p) && NoDangling(p) && !Cyclic(p) && AllReachable(p) && NoneMisplaced(p, order)
    ensures SchemaOk(p) && !Cyclic(p) ==> Members(order) == NodeIds(p) && Topological(EdgesOf(p), order)
    ensures !SchemaOk(p) ==> diags == [Schema]
    ensures SchemaOk(p) ==> (NoTerminal in diags <==> NeverEnds(p))
  {
    if !SchemaOk(p) {
      return [Schema], [];
    }
    var dangling := CheckReferences(p);
    var cycles, reach;
    order, cycles, reach := CheckGraph(p);
    diags := dangling + cycles + reach;
    InThree(dangling, cycles, reach, NoTerminal);
    assert NoTerminal !in dangling by { NoTerminalElsewhere(dangling); }
    if NoDangling(p) && !Cyclic(p) {
      AcyclicProgramsEnd(p);
    }
  }

  // V3 and V6: the verdict of the reachability pass, with what it rests on.
  method CheckGraph(p: Program) returns (order: seq<string>, cycles: seq<Diag>, reach: seq<Diag>)
    requires Distinct(Ids(p))
    ensures !Cyclic(p) ==> Members(order) == NodeIds(p) && Topological(EdgesOf(p), order)
    ensures cycles == [] <==> !Cyclic(p)
    ensures NoTerminal !in cycles && (NoTerminal in reach <==> NeverEnds(p))
    ensures !Cyclic(p) ==> (reach == [] <==> AllReachable(p) && !NeverEnds(p) && NoneMisplaced(p, order))
  {
    var acyclic;
    order, acyclic, cycles := CheckAcyclicity(p);
    reach := CheckReachability(p, order, acyclic);
    VerdictIsComplete(p, order, acyclic, reach);
    assert NoTerminal !in cycles by { OnlyACycle(cycles); }
  }

  lemma OnlyACycle(diags: seq<Diag>)
    requires diags == [] || (|diags| == 1 && diags[0].Cycle?)
    ensures NoTerminal !in diags
  {
  }

  lemma NoTerminalElsewhere(diags: seq<Diag>)
    requires forall d :: d in diags ==> d.DanglingEntry? || d.DanglingRef?
    ensures NoTerminal !in diags
  {
  }

  lemma InThree(a: seq<Diag>, b: seq<Diag>, c: seq<Diag>, d: Diag)
    ensures d in a + b + c <==> d in a || d in b || d in c
  {
  }

  lemma VerdictIsComplete(p: Program, order: seq<string>, acyclic: bool, reach: seq<Diag>)
    requires ReachabilityVerdict(p, order, acyclic, reach)
    ensures NoTerminal in reach <==> NeverEnds(p)
    ensures acyclic ==> (reach == [] <==> AllReachable(p) && !NeverEnds(p) && NoneMisplaced(p, order))
  {
    if reach != [] {
      var d := reach[0];
      if d.Unreachable? {
        assert Unreachable(d.node) in reach;
      } else if d.ForwardRef? {
        assert ForwardRef(d.node, d.source) in reach;
      }
    } else {
      forall v | v in NodeIds(p) ensures ReachableFromEntry(p, v) {
        assert Unreachable(v) !in reach;
      }
      forall n, s ensures acyclic ==> !Misplaced(p, order, n, s) {
        assert ForwardRef(n, s) !in reach;
      }
    }
  }

  /** The walk can end at a node exactly when it names nothing to go on to. */
  lemma EndsWhereNothingIsNamed(p: Program, v: string)
    requires v in NodeIds(p)
    ensures EndsWalk(p, v) <==> forall t :: !GoesOnTo(NodeAt(p, v), t) && !BranchesTo(NodeAt(p, v), t)
  {
    var node := NodeAt(p, v);
    if !EndsWalk(p, v) {
      TargetsAreThoseNamed(node, SuccessorTargets(node)[0]);
    }
    forall t | t in SuccessorTargets(node) ensures GoesOnTo(node, t) || BranchesTo(node, t) {
      TargetsAreThoseNamed(node, t);
    }
    forall t | GoesOnTo(node, t) || BranchesTo(node, t) ensures t in SuccessorTargets(node) {
      TargetsAreThoseNamed(node, t);
    }
  }
}
