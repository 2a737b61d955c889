/** The prerequisite planner: a depth-first walk over the verbs a goal transitively needs. */
module Prerequisites {
  import opened Graph

  // How a created record's field reaches the dependent step: the argument it fills, the field it is.
  datatype Carry = Carry(target: string, field: string)

  datatype Prereq = Prereq(entity: string, createVerb: string, carry: Carry)

  datatype PlanStep = PlanStep(verb: string, entity: string, carry: Carry)

  type Declared = map<string, seq<Prereq>>

  // The declared graph together with the host's answer to "does it already exist?".
  datatype World = World(declared: Declared, satisfied: Prereq -> bool)

  function DeclaredBy(w: World, verb: string): seq<Prereq> {
    if verb in w.declared then w.declared[verb] else []
  }

  // The prerequisites of the verb that still have to be created.
  function Unmet(w: World, verb: string): seq<Prereq> {
    OnlyUnmet(w, DeclaredBy(w, verb))
  }

  function OnlyUnmet(w: World, ps: seq<Prereq>): (r: seq<Prereq>)
    ensures forall p :: p in r <==> p in ps && !w.satisfied(p)
  {
    if ps == [] then []
    else if w.satisfied(ps[0]) then OnlyUnmet(w, ps[1..])
    else [ps[0]] + OnlyUnmet(w, ps[1..])
  }

  function StepOf(p: Prereq): PlanStep {
    PlanStep(p.createVerb, p.entity, p.carry)
  }

  // The dependency graph on verbs: from a verb to the verbs that create what it lacks.
  function Needs(w: World): (e: Edges<string>)
    ensures e.Keys == w.declared.Keys
  {
    map verb | verb in w.declared ::
      seq(|Unmet(w, verb)|, i requires 0 <= i < |Unmet(w, verb)| => Unmet(w, verb)[i].createVerb)
  }

  lemma NeedsEdge(w: World, verb: string, other: string)
    ensures Edge(Needs(w), verb, other) <==> exists p :: p in Unmet(w, verb) && p.createVerb == other
  {
    if verb in w.declared {
      var s := Needs(w)[verb];
      forall i | 0 <= i < |s| ensures s[i] == Unmet(w, verb)[i].createVerb {}
      if exists p :: p in Unmet(w, verb) && p.createVerb == other {
        var p :| p in Unmet(w, verb) && p.createVerb == other;
        var i :| 0 <= i < |Unmet(w, verb)| && Unmet(w, verb)[i] == p;
        assert s[i] == other;
      }
    }
  }

  ghost predicate CycleBelow(w: World, verb: string) {
    exists c :: Reaches(Needs(w), verb, c) && OnCycle(Needs(w), c)
  }

  // p is an unmet prerequisite of some verb the given one transitively needs.
  ghost predicate Needed(w: World, verb: string, p: Prereq) {
    exists v :: Reaches(Needs(w), verb, v) && p in Unmet(w, v)
  }

  function Entities(order: seq<PlanStep>): set<string> {
    set i | 0 <= i < |order| :: order[i].entity
  }

  // No entity is created twice.
  ghost predicate EachOnce(order: seq<PlanStep>) {
    forall i, j :: 0 <= i < j < |order| ==> order[i].entity != order[j].entity
  }

  // Every step comes after the entities its own verb still needs.
  ghost predicate DependenciesFirst(w: World, order: seq<PlanStep>) {
    forall i, p :: 0 <= i < |order| && p in Unmet(w, order[i].verb) ==> p.entity in Entities(order[..i])
  }

  lemma EntitiesGrow(order: seq<PlanStep>, s: PlanStep)
    ensures Entities(order + [s]) == Entities(order) + {s.entity}
  {
    var longer := order + [s];
    assert longer[|order|] == s;
    forall e | e in Entities(order) ensures e in Entities(longer) {
      var i :| 0 <= i < |order| && order[i].entity == e;
      assert longer[i].entity == e;
    }
  }

  // Every verb the walk can meet.
  function Universe(w: World, goal: string): set<string> {
    {goal} + w.declared.Keys + set v, i | v in w.declared && 0 <= i < |w.declared[v]| :: w.declared[v][i].createVerb
  }

  class Planner {
    const world: World
    ghost const universe: set<string>
    var order: seq<PlanStep>
    var placed: set<string>
    var visiting: set<string>

    constructor (world: World, goal: string)
      ensures this.world == world && universe == Universe(world, goal)
      ensures order == [] && placed == {} && visiting == {}
    {
      this.world, universe := world, Universe(world, goal);
      order, placed, visiting := [], {}, {};
    }

    ghost predicate Valid()
      reads this
    {
      && placed == Entities(order) && EachOnce(order) && DependenciesFirst(world, order)
      && visiting <= universe
      && forall v :: v in world.declared ==> forall p :: p in world.declared[v] ==> p.createVerb in universe
    }

    // False is PrerequisiteCycle; what the object holds afterwards is then of no interest.
    method Visit(verb: string) returns (ok: bool)
      requires Valid() && verb in universe
      requires LeadsTo(world, visiting, verb)
      modifies this
      ensures Valid()
      ensures ok <==> !CycleBelow(world, verb)
      ensures ok ==> visiting == old(visiting) && Extends(world, verb, old(order), order)
      ensures ok ==> forall p :: Needed(world, verb, p) ==> p.entity in placed
      decreases universe - visiting, 0
    {
      if verb in visiting {
        ReachesSelf(Needs(world), verb);
        assert CycleBelow(world, verb);
        return false;
      }
      visiting := visiting + {verb};
      ok := RequireAll(verb);
      if ok {
        visiting := visiting - {verb};
        AllNeeded(world, verb, placed);
      }
    }

    method RequireAll(verb: string) returns (ok: bool)
      requires Valid()
      requires LeadsTo(world, visiting - {verb}, verb)
      modifies this
      ensures Valid()
      ensures !ok ==> CycleBelow(world, verb)
      ensures ok ==> visiting == old(visiting) && Extends(world, verb, old(order), order)
      ensures ok ==> forall p :: p in Unmet(world, verb) ==> Handled(world, placed, p)
      decreases universe - visiting, 3
    {
      var prereqs := DeclaredBy(world, verb);
      for k := 0 to |prereqs|
        invariant Valid() && visiting == old(visiting) && Extends(world, verb, old(order), order)
        invariant HandledBefore(world, placed, prereqs, k)
      {
        ok := RequireNext(verb, k, old(order));
        if !ok {
          return;
        }
      }
      ok := true;
      AllHandled(world, placed, verb);
    }

    method RequireNext(verb: string, k: nat, ghost start: seq<PlanStep>) returns (ok: bool)
      requires Valid() && Extends(world, verb, start, order)
      requires k < |DeclaredBy(world, verb)| && HandledBefore(world, placed, DeclaredBy(world, verb), k)
      requires LeadsTo(world, visiting - {verb}, verb)
      modifies this
      ensures Valid()
      ensures !ok ==> CycleBelow(world, verb)
      ensures ok ==> visiting == old(visiting) && Extends(world, verb, start, order)
      ensures ok ==> HandledBefore(world, placed, DeclaredBy(world, verb), k + 1)
      decreases universe - visiting, 2
    {
      var prereqs := DeclaredBy(world, verb);
      if world.satisfied(prereqs[k]) {
        return true;
      }
      ok := Require(prereqs[k], verb);
      if ok {
        StillHandled(world, old(placed), placed, prereqs, k);
        ExtendsTransitive(world, verb, start, old(order), order);
      }
    }

    // One unmet prerequisite: first what its create verb needs, then itself, unless already planned.
    method Require(prereq: Prereq, verb: string) returns (ok: bool)
      requires Valid() && prereq in Unmet(world, verb)
      requires LeadsTo(world, visiting - {verb}, verb)
      modifies this
      ensures Valid()
      ensures !ok ==> CycleBelow(world, verb)
      ensures ok ==> visiting == old(visiting) && Extends(world, verb, old(order), order)
      ensures ok ==> old(placed) <= placed && Handled(world, placed, prereq)
      decreases universe - visiting, 1
    {
      NeedsEdge(world, verb, prereq.createVerb);
      OneStepFurther(world, visiting, verb, prereq.createVerb);
      ok := Visit(prereq.createVerb);
      if !ok {
        CycleAbove(world, verb, prereq.createVerb);
        return;
      }
      StillCreated(world, verb, prereq);
      assert old(placed) <= placed by { PrefixEntities(old(order), order); }
      if prereq.entity !in placed {
        Place(prereq, verb);
      }
    }

    method Place(prereq: Prereq, ghost verb: string)
      requires Valid() && prereq.entity !in placed && prereq in Unmet(world, verb)
      requires forall p :: p in Unmet(world, prereq.createVerb) ==> p.entity in placed
      modifies this`order, this`placed
      ensures Valid() && order == old(order) + [StepOf(prereq)] && placed == old(placed) + {prereq.entity}
      ensures Created(world, verb, StepOf(prereq))
    {
      EntitiesGrow(order, StepOf(prereq));
      ghost var before := order;
      order := order + [StepOf(prereq)];
      placed := placed + {prereq.entity};
      forall i, p | 0 <= i < |order| && p in Unmet(world, order[i].verb) ensures p.entity in Entities(order[..i]) {
        assert order[..i] == before[..i];
        if i == |before| { assert order[..i] == before; }
      }
      assert EachOnce(order) by {
        forall i | 0 <= i < |before| ensures before[i].entity != prereq.entity {}
      }
      ReachesSelf(Needs(world), verb);
    }
  }

  // A step the plan for this verb may contain: the creation of something needed.
  ghost predicate Created(w: World, verb: string, s: PlanStep) {
    exists p :: Needed(w, verb, p) && s == StepOf(p)
  }

  // The verbs on the current path all lead to the verb being visited.
  ghost predicate LeadsTo(w: World, path: set<string>, verb: string) {
    forall u :: u in path ==> StrictlyReaches(Needs(w), u, verb)
  }

  // The plan was only added to, and only with steps this verb needs.
  ghost predicate Extends(w: World, verb: string, before: seq<PlanStep>, after: seq<PlanStep>) {
    before <= after && forall i :: |before| <= i < |after| ==> Created(w, verb, after[i])
  }

  // An unmet prerequisite is dealt with: planned, with all it needs, and clear of cycles.
  ghost predicate Handled(w: World, placed: set<string>, p: Prereq) {
    && p.entity in placed && !CycleBelow(w, p.createVerb)
    && forall q :: Needed(w, p.createVerb, q) ==> q.entity in placed
  }

  ghost predicate HandledBefore(w: World, placed: set<string>, ps: seq<Prereq>, k: nat)
    requires k <= |ps|
  {
    forall j :: 0 <= j < k && !w.satisfied(ps[j]) ==> Handled(w, placed, ps[j])
  }

  lemma StillHandled(w: World, before: set<string>, after: set<string>, ps: seq<Prereq>, k: nat)
    requires k <= |ps| && HandledBefore(w, before, ps, k) && before <= after
    ensures HandledBefore(w, after, ps, k)
  {
  }

  lemma AllHandled(w: World, placed: set<string>, verb: string)
    requires HandledBefore(w, placed, DeclaredBy(w, verb), |DeclaredBy(w, verb)|)
    ensures forall p :: p in Unmet(w, verb) ==> Handled(w, placed, p)
  {
  }

  lemma ExtendsTransitive(w: World, verb: string, a: seq<PlanStep>, b: seq<PlanStep>, c: seq<PlanStep>)
    requires Extends(w, verb, a, b) && Extends(w, verb, b, c)
    ensures Extends(w, verb, a, c)
  {
  }

  lemma PrefixEntities(a: seq<PlanStep>, b: seq<PlanStep>)
    requires a <= b
    ensures Entities(a) <= Entities(b)
  {
    forall e | e in Entities(a) ensures e in Entities(b) {
      var i :| 0 <= i < |a| && a[i].entity == e;
      assert b[i] == a[i];
    }
  }

  lemma OneStepFurther(w: World, visiting: set<string>, verb: string, next: string)
    requires Edge(Needs(w), verb, next)
    requires LeadsTo(w, visiting - {verb}, verb)
    ensures LeadsTo(w, visiting, next)
  {
    ReachesSelf(Needs(w), next);
    EdgeThenReaches(Needs(w), verb, next, next);
    forall u | u in visiting ensures StrictlyReaches(Needs(w), u, next) {
      if u != verb {
        assert u in visiting - {verb};
        ReachesTransitive(Needs(w), u, verb, next);
      }
    }
  }

  lemma CycleAbove(w: World, verb: string, next: string)
    requires Edge(Needs(w), verb, next) && CycleBelow(w, next)
    ensures CycleBelow(w, verb)
  {
    var c :| Reaches(Needs(w), next, c) && OnCycle(Needs(w), c);
    EdgeThenReaches(Needs(w), verb, next, c);
    assert Reaches(Needs(w), verb, c);
  }

  // What the create verb needs, the verb needs; so steps made for the one are steps for the other.
  lemma StillCreated(w: World, verb: string, prereq: Prereq)
    requires prereq in Unmet(w, verb)
    ensures forall p :: Needed(w, prereq.createVerb, p) ==> Needed(w, verb, p)
    ensures forall p :: p in Unmet(w, prereq.createVerb) ==> Needed(w, prereq.createVerb, p)
  {
    NeedsEdge(w, verb, prereq.createVerb);
    forall p | Needed(w, prereq.createVerb, p) ensures Needed(w, verb, p) {
      var v :| Reaches(Needs(w), prereq.createVerb, v) && p in Unmet(w, v);
      EdgeThenReaches(Needs(w), verb, prereq.createVerb, v);
      assert Reaches(Needs(w), verb, v);
    }
    ReachesSelf(Needs(w), prereq.createVerb);
  }

  // With every direct prerequisite handled, nothing below the verb is missing and nothing is cyclic.
  lemma AllNeeded(w: World, verb: string, placed: set<string>)
    requires forall q :: q in Unmet(w, verb) ==> Handled(w, placed, q)
    ensures !CycleBelow(w, verb)
    ensures forall p :: Needed(w, verb, p) ==> p.entity in placed
  {
    var e := Needs(w);
    forall mid | Edge(e, verb, mid)
      ensures !CycleBelow(w, mid) && forall p :: Needed(w, mid, p) ==> p.entity in placed
    {
      NeedsEdge(w, verb, mid);
      var q :| q in Unmet(w, verb) && q.createVerb == mid;
      assert Handled(w, placed, q);
    }
    forall p | Needed(w, verb, p) ensures p.entity in placed {
      var v :| Reaches(e, verb, v) && p in Unmet(w, v);
      if v == verb {
        assert Handled(w, placed, p);
      } else {
        var path :| PathBetween(e, path, verb, v);
        var mid := ReachesFirstStep(e, verb, v);
        assert Needed(w, mid, p);
      }
    }
    if CycleBelow(w, verb) {
      var mid := CycleOneStepOn(w, verb);
    }
  }

  // A cycle below a verb, even one through the verb itself, is below one of its direct needs.
  lemma CycleOneStepOn(w: World, verb: string) returns (mid: string)
    requires CycleBelow(w, verb)
    ensures Edge(Needs(w), verb, mid) && CycleBelow(w, mid)
  {
    var e := Needs(w);
    var c :| Reaches(e, verb, c) && OnCycle(e, c);
    ReachesTransitive(e, verb, c, c);
    mid := ReachesFirstStep(e, verb, c);
  }

  // The planner's guarantee, as its caller sees it: each needed entity is created
  // once, after everything its own verb still needs, and nothing else is.
  ghost predicate GoodPlan(w: World, goal: string, plan: seq<PlanStep>) {
    && EachOnce(plan) && DependenciesFirst(w, plan)
    && (forall p :: Needed(w, goal, p) ==> p.entity in Entities(plan))
    && (forall i :: 0 <= i < |plan| ==> Created(w, goal, plan[i]))
  }

  datatype Plan = Cycle | Order(steps: seq<PlanStep>)

  /** The plan: refused exactly when a cycle of unmet prerequisites can be reached from the goal, and
      otherwise creating each needed entity once, each after everything its own verb still needs. */
  method PlanPrerequisites(goal: string, world: World) returns (plan: Plan)
    ensures plan.Cycle? <==> CycleBelow(world, goal)
    ensures plan.Order? ==> GoodPlan(world, goal, plan.steps)
  {
    var planner := new Planner(world, goal);
    var ok := planner.Visit(goal);
    plan := if ok then Order(planner.order) else Cycle;
  }

  /** A planned step creates the entity of a needed prerequisite by its verb, and carries on what it says. */
  lemma PlannedAsDeclared(w: World, verb: string, before: seq<PlanStep>, after: seq<PlanStep>, i: nat)
    returns (p: Prereq)
    requires Extends(w, verb, before, after) && |before| <= i < |after|
    ensures Needed(w, verb, p) && after[i].verb == p.createVerb && after[i].entity == p.entity &&
            after[i].carry == p.carry
  {
    assert Created(w, verb, after[i]);
    p :| Needed(w, verb, p) && after[i] == StepOf(p);
  }
}
