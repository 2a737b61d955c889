/** What the validator says about cycles, and when it is right. */
module CycleMessages {
  import opened Values
  import opened Graph
  import opened Kahn
  import opened Dsl
  import opened Validator

  /** The message of V3_CYCLE, which calls all the left-over nodes "in a cycle", is right exactly when no
      edge leads from a node on a cycle to a node that is on none. */
  lemma CycleMessageIsRight(p: Program, leftOver: set<string>)
    requires forall v :: v in leftOver <==> v in NodeIds(p) && Downstream(p, v)
    ensures (forall v :: v in leftOver ==> OnCycle(EdgesOf(p), v)) <==> CyclesKeepToThemselves(EdgesOf(p))
  {
    var e := EdgesOf(p);
    EdgesAreClosed(p);
    DownstreamIsCyclic(e, NodeIds(p));
    if forall v :: v in leftOver ==> OnCycle(e, v) {
      forall c, v | c in NodeIds(p) && OnCycle(e, c) && Reaches(e, c, v) ensures OnCycle(e, v) {
        ReachesStaysIn(e, NodeIds(p), c, v);
        assert Downstream(p, v);
      }
    }
  }

  // a and b lead to each other, and a also to c, where the walk ends.
  function Escaping(a: string, b: string, c: string): Program {
    Program(a, [Parallel(a, [b, c], None), Wait(b, Some(a)), Wait(c, None)], Halt)
  }

  /** Such a program: c is left over, and on no cycle. */
  lemma NodeOffTheCycle(a: string, b: string, c: string)
    requires a != b && a != c && b != c
    ensures Downstream(Escaping(a, b, c), c) && c in NodeIds(Escaping(a, b, c))
    ensures !OnCycle(EdgesOf(Escaping(a, b, c)), c)
  {
    EscapingIds(a, b, c);
    EscapingEdges(a, b, c);
    OffTheCycle(EdgesOf(Escaping(a, b, c)), a, b, c);
  }

  lemma OffTheCycle<V(!new)>(e: Edges<V>, a: V, b: V, c: V)
    requires a in e && b in e && c in e && e[a] == [b, c] && e[b] == [a] && e[c] == []
    ensures OnCycle(e, a) && Reaches(e, a, c) && !OnCycle(e, c)
  {
    assert PathBetween(e, [a, b, a], a, a);
    assert PathBetween(e, [a, c], a, c);
    forall path | PathBetween(e, path, c, c) ensures |path| < 2 {
      if |path| >= 2 {
        PathLeaves(e, path);
      }
    }
  }

  lemma PathLeaves<V>(e: Edges<V>, p: seq<V>)
    requires IsPath(e, p) && |p| >= 2
    ensures Succ(e, p[0]) != []
  {
    assert Edge(e, p[0], p[1]);
  }

  lemma EscapingIds(a: string, b: string, c: string)
    requires a != b && a != c && b != c
    ensures var p := Escaping(a, b, c);
            && NodeIds(p) == {a, b, c} && NodeAt(p, a) == Parallel(a, [b, c], None)
            && NodeAt(p, b) == Wait(b, Some(a)) && NodeAt(p, c) == Wait(c, None)
  {
    var p := Escaping(a, b, c);
    var ids := [a, b, c];
    assert Ids(p) == ids;
    assert ids[0] in ids && ids[1] in ids && ids[2] in ids;
    NodeAtIsUnique(p, 0);
    NodeAtIsUnique(p, 1);
    NodeAtIsUnique(p, 2);
  }

  lemma EscapingEdges(a: string, b: string, c: string)
    requires a != b && a != c && b != c
    ensures var e := EdgesOf(Escaping(a, b, c));
            a in e && b in e && c in e && e[a] == [b, c] && e[b] == [a] && e[c] == []
  {
    EscapingIds(a, b, c);
    EdgesAt(Escaping(a, b, c), a, [b, c]);
    EdgesAt(Escaping(a, b, c), b, [a]);
    EdgesAt(Escaping(a, b, c), c, []);
  }

  lemma EdgesAt(p: Program, id: string, targets: seq<string>)
    requires id in NodeIds(p) && SuccessorTargets(NodeAt(p, id)) == targets
    requires forall t :: t in targets ==> t in NodeIds(p)
    ensures EdgesOf(p)[id] == targets
  {
    WithinAll(targets, NodeIds(p));
  }
}
