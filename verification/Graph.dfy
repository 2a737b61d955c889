/** Directed multigraphs over V ids: the vocabulary in which the validator's and the
    planner's claims about cycles, reachability and orderings are stated. */
module Graph {

  // A multigraph as an adjacency list: the same target may be listed twice, or be its own source.
  type Edges<V> = map<V, seq<V>>

  function Succ<V>(e: Edges<V>, v: V): seq<V> {
    if v in e then e[v] else []
  }

  predicate Edge<V>(e: Edges<V>, a: V, b: V) {
    b in Succ(e, a)
  }

  ghost predicate IsPath<V>(e: Edges<V>, p: seq<V>) {
    && p != []
    && forall i, j :: 0 <= i && j == i + 1 && j < |p| ==> Edge(e, p[i], p[j])
  }

  ghost predicate PathBetween<V>(e: Edges<V>, p: seq<V>, a: V, b: V) {
    IsPath(e, p) && p[0] == a && p[|p| - 1] == b
  }

  // b can be reached from a along zero or more edges.
  ghost predicate Reaches<V(!new)>(e: Edges<V>, a: V, b: V) {
    exists p :: PathBetween(e, p, a, b)
  }

  // b can be reached from a along at least one edge.
  ghost predicate StrictlyReaches<V(!new)>(e: Edges<V>, a: V, b: V) {
    exists p :: PathBetween(e, p, a, b) && |p| >= 2
  }

  ghost predicate OnCycle<V(!new)>(e: Edges<V>, v: V) {
    StrictlyReaches(e, v, v)
  }

  predicate Distinct<V(==)>(s: seq<V>) {
    forall i, j :: 0 <= i < j < |s| ==> s[i] != s[j]
  }

  // Every edge between listed nodes goes from an earlier position to a later one.
  ghost predicate Topological<V>(e: Edges<V>, order: seq<V>) {
    && Distinct(order)
    && forall i, j :: 0 <= i < |order| && 0 <= j < |order| && Edge(e, order[i], order[j]) ==> i < j
  }

  // Every target an edge names is itself one of the nodes.
  predicate Closed<V>(e: Edges<V>, nodes: set<V>) {
    forall a :: a in nodes ==> forall b :: b in Succ(e, a) ==> b in nodes
  }

  lemma ReachesSelf<V(!new)>(e: Edges<V>, a: V)
    ensures Reaches(e, a, a)
  {
    assert PathBetween(e, [a], a, a);
  }

  lemma EdgeThenReaches<V(!new)>(e: Edges<V>, a: V, b: V, c: V)
    requires Edge(e, a, b) && Reaches(e, b, c)
    ensures StrictlyReaches(e, a, c)
  {
    var p :| PathBetween(e, p, b, c);
    assert PathBetween(e, [a] + p, a, c);
  }

  lemma ReachesTransitive<V(!new)>(e: Edges<V>, a: V, b: V, c: V)
    requires Reaches(e, a, b) && Reaches(e, b, c)
    ensures Reaches(e, a, c)
    ensures StrictlyReaches(e, a, b) || StrictlyReaches(e, b, c) ==> StrictlyReaches(e, a, c)
  {
    var p :| PathBetween(e, p, a, b) && (StrictlyReaches(e, a, b) ==> |p| >= 2);
    var q :| PathBetween(e, q, b, c) && (StrictlyReaches(e, b, c) ==> |q| >= 2);
    var r := p + q[1..];
    assert PathBetween(e, r, a, c);
  }

  lemma PathExtends<V>(e: Edges<V>, p: seq<V>, a: V, b: V, c: V)
    requires PathBetween(e, p, a, b) && Edge(e, b, c)
    ensures PathBetween(e, p + [c], a, c)
  {
  }

  // Reaching by at least one edge is one edge, then reaching.
  lemma ReachesFirstStep<V(!new)>(e: Edges<V>, a: V, b: V) returns (mid: V)
    requires StrictlyReaches(e, a, b)
    ensures Edge(e, a, mid) && Reaches(e, mid, b)
  {
    var p :| PathBetween(e, p, a, b) && |p| >= 2;
    mid := p[1];
    assert PathBetween(e, p[1..], mid, b);
  }

  lemma {:induction false} PathStaysIn<V>(e: Edges<V>, nodes: set<V>, p: seq<V>, k: nat)
    requires IsPath(e, p) && p[0] in nodes && k < |p|
    requires Closed(e, nodes)
    ensures p[k] in nodes
  {
    if k > 0 {
      PathStaysIn(e, nodes, p, k - 1);
      assert Edge(e, p[k - 1], p[k]);
    }
  }

  lemma ReachesStaysIn<V(!new)>(e: Edges<V>, nodes: set<V>, a: V, b: V)
    requires Reaches(e, a, b) && a in nodes && Closed(e, nodes)
    ensures b in nodes
  {
    var p :| PathBetween(e, p, a, b);
    PathStaysIn(e, nodes, p, |p| - 1);
  }

  lemma {:induction false} DistinctFits<T>(s: seq<T>, S: set<T>)
    requires Distinct(s) && forall x :: x in s ==> x in S
    ensures |s| <= |S|
  {
    if s != [] {
      var last := s[|s| - 1];
      forall x | x in s[..|s| - 1] ensures x in S - {last} {}
      DistinctFits(s[..|s| - 1], S - {last});
    }
  }

  // pred picks, for every node of R, one of its predecessors inside R.
  ghost predicate PredecessorsWithin<V>(e: Edges<V>, R: set<V>, pred: V -> V) {
    forall b {:trigger pred(b)} :: b in R ==> pred(b) in R && Edge(e, pred(b), b)
  }

  // From a set in which everyone has a predecessor one can walk backwards for ever.
  lemma {:induction false} BackwardPath<V>(e: Edges<V>, R: set<V>, pred: V -> V, n: V, len: nat)
    returns (p: seq<V>)
    requires n in R && len >= 1
    requires PredecessorsWithin(e, R, pred)
    ensures IsPath(e, p) && |p| == len && p[len - 1] == n
    ensures forall v :: v in p ==> v in R
    decreases len
  {
    if len == 1 {
      p := [n];
    } else {
      var a := pred(n);
      var q := BackwardPath(e, R, pred, a, len - 1);
      p := q + [n];
    }
  }

  // Pigeonhole: such a backward walk must revisit a node, so a cycle lies upstream of every node.
  lemma CycleUpstream<V(!new)>(e: Edges<V>, R: set<V>, pred: V -> V, n: V) returns (c: V)
    requires n in R
    requires PredecessorsWithin(e, R, pred)
    ensures c in R && OnCycle(e, c) && Reaches(e, c, n)
  {
    var p := BackwardPath(e, R, pred, n, |R| + 1);
    if Distinct(p) {
      DistinctFits(p, R);
      assert false;
    }
    var i, j :| 0 <= i < j < |p| && p[i] == p[j];
    c := p[i];
    assert PathBetween(e, p[i..j + 1], c, c);
    assert PathBetween(e, p[i..], c, n);
  }

  // The same forwards: from a set in which everyone has a successor one runs into a cycle.
  lemma {:induction false} ForwardPath<V>(e: Edges<V>, R: set<V>, succ: V -> V, n: V, len: nat) returns (p: seq<V>)
    requires n in R && len >= 1
    requires forall a {:trigger succ(a)} :: a in R ==> succ(a) in R && Edge(e, a, succ(a))
    ensures IsPath(e, p) && |p| == len
    ensures forall v :: v in p ==> v in R
    decreases len
  {
    if len == 1 {
      p := [n];
    } else {
      var q := ForwardPath(e, R, succ, n, len - 1);
      var last := q[|q| - 1];
      p := q + [succ(last)];
    }
  }

  lemma CycleDownstream<V(!new)>(e: Edges<V>, R: set<V>, succ: V -> V, n: V) returns (c: V)
    requires n in R
    requires forall a {:trigger succ(a)} :: a in R ==> succ(a) in R && Edge(e, a, succ(a))
    ensures c in R && OnCycle(e, c)
  {
    var p := ForwardPath(e, R, succ, n, |R| + 1);
    if Distinct(p) {
      DistinctFits(p, R);
      assert false;
    }
    var i, j :| 0 <= i < j < |p| && p[i] == p[j];
    c := p[i];
    assert PathBetween(e, p[i..j + 1], c, c);
  }

  // In a topological listing positions grow along paths.
  lemma {:induction false} OrderFollowsPath<V>(e: Edges<V>, order: seq<V>, p: seq<V>, i: nat, j: nat)
    requires Topological(e, order) && IsPath(e, p) && |p| >= 2
    requires forall v :: v in p ==> v in order
    requires i < |order| && j < |order| && order[i] == p[0] && order[j] == p[|p| - 1]
    ensures i < j
    decreases |p|
  {
    assert p[|p| - 2] in order;
    var k :| 0 <= k < |order| && order[k] == p[|p| - 2];
    assert Edge(e, p[|p| - 2], p[|p| - 1]);
    if |p| > 2 {
      OrderFollowsPath(e, order, p[..|p| - 1], i, k);
    }
  }

  lemma OrderFollowsReach<V(!new)>(e: Edges<V>, order: seq<V>, nodes: set<V>, i: nat, j: nat)
    requires Topological(e, order) && Closed(e, nodes)
    requires forall v :: v in order <==> v in nodes
    requires i < |order| && j < |order| && StrictlyReaches(e, order[i], order[j])
    ensures i < j
  {
    var p :| PathBetween(e, p, order[i], order[j]) && |p| >= 2;
    forall v | v in p ensures v in order {
      var k :| 0 <= k < |p| && p[k] == v;
      PathStaysIn(e, nodes, p, k);
    }
    OrderFollowsPath(e, order, p, i, j);
  }

  // A graph that can be listed topologically has no cycle.
  lemma TopologicalIsAcyclic<V(!new)>(e: Edges<V>, order: seq<V>, nodes: set<V>, v: V)
    requires Topological(e, order) && Closed(e, nodes)
    requires forall w :: w in order <==> w in nodes
    requires v in nodes
    ensures !OnCycle(e, v)
  {
    if OnCycle(e, v) {
      var i :| 0 <= i < |order| && order[i] == v;
      OrderFollowsReach(e, order, nodes, i, i);
    }
  }
}
