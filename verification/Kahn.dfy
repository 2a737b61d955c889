/** The validator's topological sort: Kahn's algorithm on a multigraph. */
module Kahn {
  import opened Graph

  // All targets of all edges leaving `srcs`, with multiplicity.
  ghost function Bag<V>(e: Edges<V>, srcs: set<V>): multiset<V> {
    if srcs == {} then multiset{}
    else
      var s :| s in srcs;
      multiset(Succ(e, s)) + Bag(e, srcs - {s})
  }

  lemma {:induction false} BagWithout<V>(e: Edges<V>, srcs: set<V>, s: V)
    requires s in srcs
    ensures Bag(e, srcs) == multiset(Succ(e, s)) + Bag(e, srcs - {s})
  {
    var t :| t in srcs && Bag(e, srcs) == multiset(Succ(e, t)) + Bag(e, srcs - {t});
    if t != s {
      BagWithout(e, srcs - {t}, s);
      BagWithout(e, srcs - {s}, t);
      assert srcs - {t} - {s} == srcs - {s} - {t};
    }
  }

  // A node is counted in the bag exactly when one of the sources points at it.
  ghost function SourceOf<V>(e: Edges<V>, srcs: set<V>, t: V): (s: V)
    requires t in Bag(e, srcs)
    ensures s in srcs && Edge(e, s, t)
  {
    var s :| s in srcs && Bag(e, srcs) == multiset(Succ(e, s)) + Bag(e, srcs - {s});
    if Edge(e, s, t) then s else SourceOf(e, srcs - {s}, t)
  }

  lemma InBag<V>(e: Edges<V>, srcs: set<V>, s: V, t: V)
    requires s in srcs && Edge(e, s, t)
    ensures t in Bag(e, srcs)
  {
    BagWithout(e, srcs, s);
    assert t in multiset(Succ(e, s));
  }

  lemma EmptyBag<V>(e: Edges<V>)
    ensures Bag(e, {}) == multiset{}
  {
  }

  function Members<V(==)>(s: seq<V>): set<V> {
    set x | x in s
  }

  // The number of edges into each node, counted over the adjacency lists.
  method CountIncoming<V>(ids: seq<V>, e: Edges<V>) returns (inDegree: map<V, int>)
    requires Distinct(ids) && e.Keys == Members(ids) && Closed(e, Members(ids))
    ensures inDegree.Keys == Members(ids)
    ensures forall n :: n in inDegree ==> inDegree[n] == Bag(e, Members(ids))[n]
  {
    inDegree := map n | n in ids :: 0;
    EmptyBag(e);
    assert ids[..0] == [];
    for k := 0 to |ids|
      invariant inDegree.Keys == Members(ids)
      invariant forall n :: n in inDegree ==> inDegree[n] == Bag(e, Members(ids[..k]))[n]
    {
      OneMoreSource(ids, e, k);
      assert ids[k] in Members(ids);
      forall t | t in e[ids[k]] ensures t in inDegree {
        assert Edge(e, ids[k], t);
      }
      inDegree := AddTargets(inDegree, e[ids[k]]);
    }
    assert ids[..|ids|] == ids;
  }

  lemma OneMoreSource<V>(ids: seq<V>, e: Edges<V>, k: nat)
    requires Distinct(ids) && k < |ids| && ids[k] in e
    ensures Bag(e, Members(ids[..k + 1])) == multiset(e[ids[k]]) + Bag(e, Members(ids[..k]))
  {
    assert ids[..k + 1] == ids[..k] + [ids[k]];
    BagWithout(e, Members(ids[..k + 1]), ids[k]);
    assert Members(ids[..k + 1]) - {ids[k]} == Members(ids[..k]);
  }

  method AddTargets<V>(counts: map<V, int>, targets: seq<V>) returns (inDegree: map<V, int>)
    requires forall t :: t in targets ==> t in counts
    ensures inDegree.Keys == counts.Keys
    ensures forall n :: n in inDegree ==> inDegree[n] == counts[n] + multiset(targets)[n]
  {
    inDegree := counts;
    for j := 0 to |targets|
      invariant inDegree.Keys == counts.Keys
      invariant forall n :: n in inDegree ==> inDegree[n] == counts[n] + multiset(targets[..j])[n]
    {
      assert targets[..j + 1] == targets[..j] + [targets[j]];
      inDegree := inDegree[targets[j] := inDegree[targets[j]] + 1];
    }
    assert targets[..|targets|] == targets;
  }

  // The ids with nothing pointing at them, in whatever order the set yields them.
  method Roots<V>(ids: seq<V>, inDegree: map<V, int>) returns (queue: seq<V>)
    requires inDegree.Keys == Members(ids)
    ensures Distinct(queue)
    ensures forall n :: n in queue <==> n in inDegree && inDegree[n] == 0
  {
    queue := [];
    var left := Members(ids);
    while left != {}
      invariant Distinct(queue) && left <= Members(ids)
      invariant forall n :: n in queue <==> n in inDegree && n !in left && inDegree[n] == 0
      decreases left
    {
      var n :| n in left;
      left := left - {n};
      if inDegree[n] == 0 {
        queue := queue + [n];
      }
    }
  }

  // What holds of the sort between two rounds: `order` is processed, `queue` is ready, every node
  // with no pending edge is in one of them, and whatever is ready or processed has all of its
  // predecessors processed before it.
  ghost predicate Sorting<V>(e: Edges<V>, nodes: set<V>, order: seq<V>, queue: seq<V>,
                          inDegree: map<V, int>, pending: multiset<V>)
  {
    && Distinct(order + queue)
    && Members(order + queue) <= nodes
    && inDegree.Keys == nodes
    && (forall n :: n in nodes ==> inDegree[n] == pending[n])
    && (forall n :: n in nodes ==> (inDegree[n] == 0 <==> n in order + queue))
  }

  ghost predicate PredecessorsFirst<V>(e: Edges<V>, order: seq<V>) {
    forall i, s {:trigger Edge(e, s, order[i])} ::
      0 <= i < |order| && s in e && Edge(e, s, order[i]) ==> s in order[..i]
  }

  lemma StillPending<V>(pending: multiset<V>, targets: seq<V>, j: nat)
    requires multiset(targets) <= pending && j < |targets|
    ensures (pending - multiset(targets[..j]))[targets[j]] >= 1
    ensures pending - multiset(targets[..j]) - multiset{targets[j]} == pending - multiset(targets[..j + 1])
  {
    assert targets[..j + 1] == targets[..j] + [targets[j]];
    assert targets == targets[..j + 1] + targets[j + 1..];
  }

  lemma OneStruckOff<V>(e: Edges<V>, nodes: set<V>, order: seq<V>, queue: seq<V>, inDegree: map<V, int>,
                        pending: multiset<V>, t: V)
    requires Sorting(e, nodes, order, queue, inDegree, pending) && t in nodes && pending[t] >= 1
    ensures Sorting(e, nodes, order, if inDegree[t] == 1 then queue + [t] else queue,
                    inDegree[t := inDegree[t] - 1], pending - multiset{t})
  {
    assert t !in order + queue;
    assert order + (queue + [t]) == (order + queue) + [t];
  }

  // Strikes off the edges of a node just processed, queueing each target whose last edge that was.
  method StrikeOff<V>(e: Edges<V>, ghost nodes: set<V>, ghost order: seq<V>, q: seq<V>,
                   degrees: map<V, int>, ghost pending: multiset<V>, targets: seq<V>)
    returns (queue: seq<V>, inDegree: map<V, int>)
    requires Sorting(e, nodes, order, q, degrees, pending)
    requires multiset(targets) <= pending && Members(targets) <= nodes
    ensures Sorting(e, nodes, order, queue, inDegree, pending - multiset(targets))
  {
    queue, inDegree := q, degrees;
    for j := 0 to |targets|
      invariant Sorting(e, nodes, order, queue, inDegree, pending - multiset(targets[..j]))
    {
      var t := targets[j];
      StillPending(pending, targets, j);
      assert t in Members(targets);
      OneStruckOff(e, nodes, order, queue, inDegree, pending - multiset(targets[..j]), t);
      inDegree := inDegree[t := inDegree[t] - 1];
      if inDegree[t] == 0 {
        queue := queue + [t];
      }
    }
    assert targets[..|targets|] == targets;
  }

  method TopologicalSort<V>(ids: seq<V>, e: Edges<V>) returns (order: seq<V>)
    requires Distinct(ids) && e.Keys == Members(ids) && Closed(e, Members(ids))
    ensures Distinct(order) && Members(order) <= Members(ids)
    ensures PredecessorsFirst(e, order)
    ensures forall n :: n in ids && n !in order ==> n in Bag(e, Members(ids) - Members(order))
  {
    ghost var nodes := Members(ids);
    var inDegree := CountIncoming(ids, e);
    var queue := Roots(ids, inDegree);
    order := [];
    assert order + queue == queue;
    assert nodes - Members(order) == nodes;
    while queue != []
      invariant Sorting(e, nodes, order, queue, inDegree, Bag(e, nodes - Members(order)))
      invariant PredecessorsFirst(e, order)
      decreases |nodes| - |order|
    {
      var nid := queue[|queue| - 1];
      ghost var pending := Bag(e, nodes - Members(order));
      OneMoreFits(e, nodes, order, queue, inDegree, pending);
      ReadyHasNothingPending(e, nodes, order, queue, inDegree, pending, nid);
      NextLeavesQueue(e, nodes, order, queue, inDegree, pending, nid);
      NextHasPredecessors(e, nodes, order, nid);
      TargetsOfNext(e, nodes, nodes - Members(order), nid);
      OneLessLeft(nodes, order, nid);
      queue := queue[..|queue| - 1];
      order := order + [nid];
      queue, inDegree := StrikeOff(e, nodes, order, queue, inDegree, pending, e[nid]);
    }
    assert order + queue == order;
  }

  lemma TargetsOfNext<V>(e: Edges<V>, nodes: set<V>, left: set<V>, nid: V)
    requires e.Keys == nodes && Closed(e, nodes) && nid in left && left <= nodes
    ensures Members(e[nid]) <= nodes
    ensures multiset(e[nid]) <= Bag(e, left)
    ensures Bag(e, left - {nid}) == Bag(e, left) - multiset(e[nid])
  {
    BagWithout(e, left, nid);
    forall t | t in Members(e[nid]) ensures t in nodes {
      assert Edge(e, nid, t);
    }
  }

  lemma ReadyHasNothingPending<V>(e: Edges<V>, nodes: set<V>, order: seq<V>, queue: seq<V>,
                               inDegree: map<V, int>, pending: multiset<V>, nid: V)
    requires Sorting(e, nodes, order, queue, inDegree, pending)
    requires queue != [] && nid == queue[|queue| - 1]
    ensures nid in nodes && nid !in order && pending[nid] == 0
  {
    assert (order + queue)[|order| + |queue| - 1] == nid;
    assert nid in order + queue;
    assert nid in Members(order + queue);
    forall i | 0 <= i < |order| ensures order[i] != nid {
      assert (order + queue)[i] == order[i];
    }
  }

  lemma OneLessLeft<V>(nodes: set<V>, order: seq<V>, nid: V)
    ensures nodes - Members(order + [nid]) == nodes - Members(order) - {nid}
  {
  }

  lemma NextLeavesQueue<V>(e: Edges<V>, nodes: set<V>, order: seq<V>, queue: seq<V>,
                        inDegree: map<V, int>, pending: multiset<V>, nid: V)
    requires Sorting(e, nodes, order, queue, inDegree, pending)
    requires queue != [] && nid == queue[|queue| - 1]
    ensures Sorting(e, nodes, order + [nid], queue[..|queue| - 1], inDegree, pending)
  {
    assert order + queue == order + (queue[..|queue| - 1] + [nid]);
    assert (order + [nid])[..|order + [nid]| - 1] == order;
    MoveToOrder(order + queue, order + [nid], queue[..|queue| - 1], nid);
  }

  lemma NextHasPredecessors<V>(e: Edges<V>, nodes: set<V>, order: seq<V>, nid: V)
    requires e.Keys == nodes && PredecessorsFirst(e, order)
    requires Bag(e, nodes - Members(order))[nid] == 0
    ensures PredecessorsFirst(e, order + [nid])
  {
    forall s | s in e && Edge(e, s, nid) ensures s in order {
      if s !in order {
        InBag(e, nodes - Members(order), s, nid);
      }
    }
    var grown := order + [nid];
    forall i, s | 0 <= i < |grown| && s in e && Edge(e, s, grown[i]) ensures s in grown[..i] {
      if i < |order| {
        assert grown[..i] == order[..i];
      } else {
        assert grown[..i] == order;
      }
    }
  }

  lemma OneMoreFits<V>(e: Edges<V>, nodes: set<V>, order: seq<V>, queue: seq<V>,
                    inDegree: map<V, int>, pending: multiset<V>)
    requires Sorting(e, nodes, order, queue, inDegree, pending) && queue != []
    ensures |order| < |nodes|
  {
    DistinctFits(order + queue, nodes);
  }

  lemma MoveToOrder<V>(before: seq<V>, order: seq<V>, queue: seq<V>, nid: V)
    requires order != [] && order[|order| - 1] == nid
    requires before == order[..|order| - 1] + (queue + [nid])
    requires Distinct(before)
    ensures Distinct(order + queue)
    ensures forall n :: n in order + queue <==> n in before
  {
    var after := order + queue;
    var k := |order| - 1;
    forall i, j | 0 <= i < j < |after| ensures after[i] != after[j] {
      var i' := if i == k then |before| - 1 else if i < k then i else i - 1;
      var j' := if j == k then |before| - 1 else if j < k then j else j - 1;
      assert before[i'] == after[i] && before[j'] == after[j];
    }
    forall n | n in before ensures n in after {
      var i :| 0 <= i < |before| && before[i] == n;
      assert after[if i == |before| - 1 then k else if i < k then i else i + 1] == n;
    }
    forall n | n in after ensures n in before {
      var i :| 0 <= i < |after| && after[i] == n;
      assert before[if i == k then |before| - 1 else if i < k then i else i - 1] == n;
    }
  }

  // --- what the sort decides ----------------------------------------------------------------------

  // Every processed node has its predecessors before it, so edges between processed nodes go forward.
  lemma ProcessedIsTopological<V>(e: Edges<V>, order: seq<V>)
    requires Distinct(order) && PredecessorsFirst(e, order)
    requires forall v :: v in order ==> v in e
    ensures Topological(e, order)
  {
    forall i, j | 0 <= i < |order| && 0 <= j < |order| && Edge(e, order[i], order[j]) ensures i < j {
      assert order[i] in order[..j];
    }
  }

  // Nothing that can reach a processed node was left over.
  lemma {:induction false} ProcessedHasAncestors<V>(e: Edges<V>, order: seq<V>, p: seq<V>)
    requires PredecessorsFirst(e, order) && IsPath(e, p) && p[|p| - 1] in order
    requires forall i :: 0 <= i < |p| ==> p[i] in e
    ensures p[0] in order
  {
    if |p| > 1 {
      var k :| 0 <= k < |order| && order[k] == p[|p| - 1];
      assert Edge(e, p[|p| - 2], p[|p| - 1]);
      assert p[|p| - 2] in order[..k];
      ProcessedHasAncestors(e, order, p[..|p| - 1]);
    }
  }

  // A processed node lies on no cycle.
  lemma ProcessedIsOffCycles<V(!new)>(e: Edges<V>, nodes: set<V>, order: seq<V>, v: V)
    requires e.Keys == nodes && Closed(e, nodes) && Distinct(order) && Members(order) <= nodes
    requires PredecessorsFirst(e, order) && v in order
    ensures !OnCycle(e, v)
  {
    if OnCycle(e, v) {
      var p :| PathBetween(e, p, v, v) && |p| >= 2;
      forall i | 0 <= i < |p| ensures p[i] in e {
        PathStaysIn(e, nodes, p, i);
      }
      forall i | 0 <= i < |p| ensures p[i] in order {
        forall k | 0 <= k < |p[i..]| ensures p[i..][k] in e { assert p[i..][k] == p[i + k]; }
        ProcessedHasAncestors(e, order, p[i..]);
      }
      ProcessedIsTopological(e, order);
      var k :| 0 <= k < |order| && order[k] == v;
      OrderFollowsPath(e, order, p, k, k);
    }
  }

  /** A node is left over exactly when it lies on a cycle or can be reached from one. */
  lemma LeftOverExactly<V(!new)>(e: Edges<V>, nodes: set<V>, order: seq<V>, v: V)
    requires e.Keys == nodes && Closed(e, nodes) && Distinct(order) && Members(order) <= nodes
    requires PredecessorsFirst(e, order)
    requires forall n :: n in nodes && n !in order ==> n in Bag(e, nodes - Members(order))
    requires v in nodes
    ensures v !in order <==> exists c :: c in nodes && OnCycle(e, c) && Reaches(e, c, v)
  {
    var R := nodes - Members(order);
    if v !in order {
      var pred := (b: V) => if b in Bag(e, R) then SourceOf(e, R, b) else b;
      var c := CycleUpstream(e, R, pred, v);
      assert c in nodes && OnCycle(e, c) && Reaches(e, c, v);
    } else {
      forall c | c in nodes && OnCycle(e, c) && Reaches(e, c, v) ensures false {
        var p :| PathBetween(e, p, c, v);
        forall i | 0 <= i < |p| ensures p[i] in e {
          PathStaysIn(e, nodes, p, i);
        }
        ProcessedHasAncestors(e, order, p);
        ProcessedIsOffCycles(e, nodes, order, c);
      }
    }
  }

  // No edge leads from a node on a cycle to one that is on none.
  ghost predicate CyclesKeepToThemselves<V(!new)>(e: Edges<V>) {
    forall a, b {:trigger Edge(e, a, b)} :: OnCycle(e, a) && Edge(e, a, b) ==> OnCycle(e, b)
  }

  lemma {:induction false} CyclesReachOnlyCycles<V(!new)>(e: Edges<V>, p: seq<V>)
    requires CyclesKeepToThemselves(e) && IsPath(e, p) && OnCycle(e, p[0])
    ensures OnCycle(e, p[|p| - 1])
  {
    if |p| > 1 {
      CyclesReachOnlyCycles(e, p[..|p| - 1]);
      assert Edge(e, p[|p| - 2], p[|p| - 1]);
    }
  }

  /** What can be reached from cycles lies itself on cycles exactly when no edge leads off them. */
  lemma DownstreamIsCyclic<V(!new)>(e: Edges<V>, nodes: set<V>)
    requires e.Keys == nodes && Closed(e, nodes)
    ensures (forall c, v :: c in nodes && OnCycle(e, c) && Reaches(e, c, v) ==> OnCycle(e, v)) <==>
            CyclesKeepToThemselves(e)
  {
    if CyclesKeepToThemselves(e) {
      forall c, v | c in nodes && OnCycle(e, c) && Reaches(e, c, v) ensures OnCycle(e, v) {
        var p :| PathBetween(e, p, c, v);
        CyclesReachOnlyCycles(e, p);
      }
    }
    if forall c, v :: c in nodes && OnCycle(e, c) && Reaches(e, c, v) ==> OnCycle(e, v) {
      forall a, b {:trigger Edge(e, a, b)} | OnCycle(e, a) && Edge(e, a, b) ensures OnCycle(e, b) {
        ReachesSelf(e, b);
        EdgeThenReaches(e, a, b, b);
        assert Reaches(e, a, b);
      }
    }
  }
}
