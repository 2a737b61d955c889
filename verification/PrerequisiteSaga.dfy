/** Executing a prerequisite plan: one call per step, each created id carried into the calls after it. */
module PrerequisiteSaga {
  import opened Values
  import opened Graph
  import opened Prerequisites

  datatype Reply = Failed | Made(record: Json)

  type Args = map<string, Json>

  // The host: what running a verb answers, which may depend on how many were run before, and how the
  // new record's id is read off.
  datatype Host = Host(create: (nat, string, Args) -> Reply, idOf: (Json, string) -> Json)

  datatype Ran = Ran(verb: string, args: Args)

  datatype Outcome = Outcome(completed: bool, committed: seq<PlanStep>, calls: seq<Ran>)

  // A saga under way: the ids carried so far and the calls made so far.
  datatype Progress = Progress(carried: Args, calls: seq<Ran>)

  function StepCall(plan: seq<PlanStep>, p: Progress, k: nat): Ran
    requires k < |plan|
  {
    Ran(plan[k].verb, p.carried)
  }

  function ReplyTo(host: Host, p: Progress, call: Ran): Reply {
    host.create(|p.calls|, call.verb, call.args)
  }

  function Called(p: Progress, call: Ran): Progress {
    p.(calls := p.calls + [call])
  }

  function Carried(host: Host, p: Progress, step: PlanStep, record: Json): Progress {
    p.(carried := p.carried[step.carry.target := host.idOf(record, step.carry.field)])
  }

  // The saga from the point where k steps have committed.
  function SagaFrom(host: Host, goal: Ran, plan: seq<PlanStep>, k: nat, p: Progress): Outcome
    requires k <= |plan|
    decreases |plan| - k
  {
    if k == |plan| then
      var last := Ran(goal.verb, goal.args + p.carried);
      Outcome(ReplyTo(host, p, last).Made?, plan, p.calls + [last])
    else
      var call := StepCall(plan, p, k);
      match ReplyTo(host, p, call)
      case Failed => Outcome(false, plan[..k], p.calls + [call])
      case Made(record) => SagaFrom(host, goal, plan, k + 1, Carried(host, Called(p, call), plan[k], record))
  }

  const START := Progress(map[], [])

  method RunSaga(host: Host, goal: Ran, plan: seq<PlanStep>) returns (r: Outcome)
    ensures r == SagaFrom(host, goal, plan, 0, START)
  {
    var carried: Args := map[];
    var committed: seq<PlanStep> := [];
    var calls: seq<Ran> := [];
    for k := 0 to |plan|
      invariant committed == plan[..k]
      invariant SagaFrom(host, goal, plan, k, Progress(carried, calls)) == SagaFrom(host, goal, plan, 0, START)
    {
      var reply := host.create(|calls|, plan[k].verb, carried);
      calls := calls + [Ran(plan[k].verb, carried)];
      if reply.Failed? {
        return Outcome(false, committed, calls);
      }
      carried := carried[plan[k].carry.target := host.idOf(reply.record, plan[k].carry.field)];
      committed := committed + [plan[k]];
    }
    var args := goal.args + carried;
    var reply := host.create(|calls|, goal.verb, args);
    r := Outcome(reply.Made?, committed, calls + [Ran(goal.verb, args)]);
  }

  // --- what the calls carry ---------------------------------------------------------------------

  function VerbAt(goal: string, plan: seq<PlanStep>, j: nat): string {
    if j < |plan| then plan[j].verb else goal
  }

  // The record the k-th step makes (Null when it makes none), and the ids in hand before that step.
  function RecordAt(host: Host, plan: seq<PlanStep>, k: nat): Json
    requires k < |plan|
    decreases k, 1
  {
    var reply := host.create(k, plan[k].verb, Hand(host, plan, k));
    if reply.Made? then reply.record else Null
  }

  function Hand(host: Host, plan: seq<PlanStep>, k: nat): Args
    requires k <= |plan|
    decreases k, 0
  {
    if k == 0 then map[]
    else
      var step := plan[k - 1];
      Hand(host, plan, k - 1)[step.carry.target := host.idOf(RecordAt(host, plan, k - 1), step.carry.field)]
  }

  function CallAt(host: Host, goal: Ran, plan: seq<PlanStep>, j: nat): Ran
    requires j <= |plan|
  {
    if j < |plan| then Ran(plan[j].verb, Hand(host, plan, j)) else Ran(goal.verb, goal.args + Hand(host, plan, j))
  }

  // The first k calls of the saga, all answered with a record.
  ghost predicate UnderWay(host: Host, goal: Ran, plan: seq<PlanStep>, k: nat, calls: seq<Ran>)
    requires k <= |plan|
  {
    && |calls| == k
    && forall j :: 0 <= j < k ==>
         calls[j] == CallAt(host, goal, plan, j) && host.create(j, calls[j].verb, calls[j].args).Made?
  }

  /** A saga makes one call a step, in the plan's order, and then the goal's, up to the first that fails;
      the steps before that one are the ones committed. */
  lemma {:induction false} SagaFollowsThePlan(host: Host, goal: Ran, plan: seq<PlanStep>, k: nat, p: Progress)
    requires k <= |plan| && UnderWay(host, goal, plan, k, p.calls) && p.carried == Hand(host, plan, k)
    ensures var r := SagaFrom(host, goal, plan, k, p);
            && k <= |r.committed| <= |plan| && r.committed == plan[..|r.committed|] && |r.calls| == |r.committed| + 1
            && (forall j :: 0 <= j < |r.calls| ==> r.calls[j] == CallAt(host, goal, plan, j))
            && UnderWay(host, goal, plan, |r.committed|, r.calls[..|r.committed|])
            && (r.completed <==>
                  |r.committed| == |plan| && ReplyTo(host, p.(calls := r.calls[..|plan|]), r.calls[|plan|]).Made?)
    decreases |plan| - k
  {
    var call := CallAt(host, goal, plan, k);
    assert (p.calls + [call])[..k] == p.calls;
    if k < |plan| {
      var reply := ReplyTo(host, p, call);
      if reply.Made? {
        SagaFollowsThePlan(host, goal, plan, k + 1, Carried(host, Called(p, call), plan[k], reply.record));
      }
    }
  }

  // The j-th call hands over, for the prerequisite, the id of the record made for its entity.
  ghost predicate Delivers(host: Host, goal: Ran, plan: seq<PlanStep>, j: nat, q: Prereq)
    requires j <= |plan|
  {
    var args := CallAt(host, goal, plan, j).args;
    exists i :: 0 <= i < j && plan[i].entity == q.entity && q.carry.target in args &&
                args[q.carry.target] == host.idOf(RecordAt(host, plan, i), q.carry.field)
  }

  // Everything the j-th call's verb still needed is delivered.
  ghost predicate FullyDelivers(w: World, host: Host, goal: Ran, plan: seq<PlanStep>, j: nat)
    requires j <= |plan|
  {
    forall q :: q in Unmet(w, VerbAt(goal.verb, plan, j)) ==> Delivers(host, goal, plan, j, q)
  }

  // The entity is planned before the call under the name and the field that this dependent asks for, and
  // nothing planned between them takes that name.
  predicate Wired(plan: seq<PlanStep>, j: nat, q: Prereq)
    requires j <= |plan|
  {
    exists i :: 0 <= i < j && plan[i].entity == q.entity && plan[i].carry == q.carry && NameKept(plan, i, j)
  }

  predicate NameKept(plan: seq<PlanStep>, i: nat, j: nat)
    requires i < j <= |plan|
  {
    forall m :: i < m < j ==> plan[m].carry.target != plan[i].carry.target
  }

  predicate WellWired(w: World, goal: string, plan: seq<PlanStep>) {
    forall j, q :: 0 <= j <= |plan| && q in Unmet(w, VerbAt(goal, plan, j)) ==> Wired(plan, j, q)
  }

  // The last of the first k steps that fills this argument.
  function LastFor(plan: seq<PlanStep>, k: nat, target: string): (r: Option<nat>)
    requires k <= |plan|
    ensures r.Some? ==> r.value < k && plan[r.value].carry.target == target && NameKept(plan, r.value, k)
    ensures r.None? ==> forall i :: 0 <= i < k ==> plan[i].carry.target != target
  {
    if k == 0 then None
    else if plan[k - 1].carry.target == target then Some(k - 1)
    else LastFor(plan, k - 1, target)
  }

  lemma {:induction false} HandHoldsTheLast(host: Host, plan: seq<PlanStep>, k: nat, target: string)
    requires k <= |plan|
    ensures target in Hand(host, plan, k) <==> LastFor(plan, k, target).Some?
    ensures var i := LastFor(plan, k, target);
            i.Some? ==>
              Hand(host, plan, k)[target] == host.idOf(RecordAt(host, plan, i.value), plan[i.value].carry.field)
  {
    if k > 0 {
      HandHoldsTheLast(host, plan, k - 1, target);
    }
  }

  lemma WiredIsDelivered(host: Host, goal: Ran, plan: seq<PlanStep>, j: nat, q: Prereq)
    requires j <= |plan| && Wired(plan, j, q)
    ensures Delivers(host, goal, plan, j, q)
  {
    var i :| 0 <= i < j && plan[i].entity == q.entity && plan[i].carry == q.carry && NameKept(plan, i, j);
    HandHoldsTheLast(host, plan, j, q.carry.target);
    assert LastFor(plan, j, q.carry.target) == Some(i);
  }

  /** When the plan is wired as its dependents ask, then whatever the host answers each call made, the
      goal's included, carries the id of every record that its verb needed. */
  lemma SagaCarriesEverything(w: World, host: Host, goal: Ran, plan: seq<PlanStep>)
    requires WellWired(w, goal.verb, plan)
    ensures var r := SagaFrom(host, goal, plan, 0, START);
            && |r.calls| == |r.committed| + 1 && |r.committed| <= |plan|
            && forall j :: 0 <= j < |r.calls| ==>
                 r.calls[j] == CallAt(host, goal, plan, j) && FullyDelivers(w, host, goal, plan, j)
  {
    SagaFollowsThePlan(host, goal, plan, 0, START);
    forall j, q | 0 <= j <= |plan| && q in Unmet(w, VerbAt(goal.verb, plan, j))
      ensures Delivers(host, goal, plan, j, q)
    {
      WiredIsDelivered(host, goal, plan, j, q);
    }
  }

  // A host that never fails and whose ids tell the step, the field and a salt.
  function Telling(salt: int): Host {
    Host((n, verb, args) => Made(Int(n)), (record, field) => Arr([record, Str(field), Int(salt)]))
  }

  // A salt by which this argument of the goal's own is none of the host's ids.
  function SaltAgainst(args: Args, target: string): int {
    if target in args && args[target].Arr? && |args[target].items| == 3 && args[target].items[2] == Int(0) then 1 else 0
  }

  lemma DeliveredIsWired(goal: Ran, plan: seq<PlanStep>, j: nat, q: Prereq, salt: int)
    requires j <= |plan| && salt == SaltAgainst(goal.args, q.carry.target)
    requires Delivers(Telling(salt), goal, plan, j, q)
    ensures Wired(plan, j, q)
  {
    var host, target := Telling(salt), q.carry.target;
    var args := CallAt(host, goal, plan, j).args;
    var i :| 0 <= i < j && plan[i].entity == q.entity && target in args &&
             args[target] == host.idOf(RecordAt(host, plan, i), q.carry.field);
    HandHoldsTheLast(host, plan, j, target);
    var id := Arr([Int(i), Str(q.carry.field), Int(salt)]);
    assert args[target] == id && id.items[2] == Int(salt);
    var last := LastFor(plan, j, target);
    if last.Some? {
      assert args[target] == Arr([Int(last.value), Str(plan[last.value].carry.field), Int(salt)]);
      assert args[target].items == id.items && id.items[0] == Int(i) && id.items[1] == Str(q.carry.field);
      assert plan[i].carry == q.carry;
    }
  }

  /** And otherwise not: some host answers every call with a record, and yet some call goes out without the
      id of a record its verb needed. */
  lemma MiswiredSagaMisdelivers(w: World, goal: Ran, plan: seq<PlanStep>) returns (host: Host, j: nat)
    requires !WellWired(w, goal.verb, plan)
    ensures var r := SagaFrom(host, goal, plan, 0, START);
            && r.completed && |r.calls| == |plan| + 1
            && j <= |plan| && r.calls[j] == CallAt(host, goal, plan, j) && !FullyDelivers(w, host, goal, plan, j)
  {
    var q: Prereq;
    j, q :| 0 <= j <= |plan| && q in Unmet(w, VerbAt(goal.verb, plan, j)) && !Wired(plan, j, q);
    var salt := SaltAgainst(goal.args, q.carry.target);
    host := Telling(salt);
    SagaFollowsThePlan(host, goal, plan, 0, START);
    TellingSagaCompletes(goal, plan, salt);
    if Delivers(host, goal, plan, j, q) {
      DeliveredIsWired(goal, plan, j, q, salt);
    }
  }

  lemma TellingSagaCompletes(goal: Ran, plan: seq<PlanStep>, salt: int)
    ensures SagaFrom(Telling(salt), goal, plan, 0, START).completed
  {
    TellingSagaGoesOn(goal, plan, salt, 0, START);
  }

  lemma {:induction false} TellingSagaGoesOn(goal: Ran, plan: seq<PlanStep>, salt: int, k: nat, p: Progress)
    requires k <= |plan|
    ensures SagaFrom(Telling(salt), goal, plan, k, p).completed
    decreases |plan| - k
  {
    if k < |plan| {
      var host := Telling(salt);
      var call := StepCall(plan, p, k);
      TellingSagaGoesOn(goal, plan, salt, k + 1,
                        Carried(host, Called(p, call), plan[k], ReplyTo(host, p, call).record));
    }
  }

  // --- plans the planner makes that are not wired -------------------------------------------------

  // Two dependents of one entity that call it differently: the goal and the verb that makes b.
  function Disagreeing(a: Prereq, aAgain: Prereq, b: Prereq, goal: string): World {
    World(map[goal := [b, aAgain], b.createVerb := [a]], p => false)
  }

  lemma DisagreeingNeeds(a: Prereq, aAgain: Prereq, b: Prereq, goal: string)
    requires goal != a.createVerb && goal != b.createVerb && a.createVerb != b.createVerb
    ensures var w := Disagreeing(a, aAgain, b, goal);
            Unmet(w, a.createVerb) == [] && Unmet(w, b.createVerb) == [a] && Unmet(w, goal) == [b, aAgain]
  {
    OneUnmet(Disagreeing(a, aAgain, b, goal), a);
    TwoUnmet(Disagreeing(a, aAgain, b, goal), b, aAgain);
  }

  /** The shared entity is planned once, under its first dependent's argument name, and the goal is not
      given it under the name it asks for. */
  lemma SharedEntityLosesItsSecondName(a: Prereq, aAgain: Prereq, b: Prereq, goal: string)
    requires a.entity == aAgain.entity != b.entity && a.createVerb == aAgain.createVerb
    requires goal != a.createVerb && goal != b.createVerb && a.createVerb != b.createVerb
    requires aAgain.carry != a.carry
    ensures var (w, plan) := (Disagreeing(a, aAgain, b, goal), [StepOf(a), StepOf(b)]);
            GoodPlan(w, goal, plan) && aAgain in Unmet(w, goal) && !Wired(plan, 2, aAgain)
  {
    var (w, plan) := (Disagreeing(a, aAgain, b, goal), [StepOf(a), StepOf(b)]);
    DisagreeingNeeds(a, aAgain, b, goal);
    TwoStepsAreGood(w, goal, a, b, [b, aAgain]);
  }

  // Two steps, where only the second's verb and the goal need anything.
  lemma TwoStepsAreGood(w: World, goal: string, a: Prereq, b: Prereq, wants: seq<Prereq>)
    requires Unmet(w, a.createVerb) == [] && Unmet(w, b.createVerb) == [a] && Unmet(w, goal) == wants
    requires a.entity != b.entity && b in wants
    requires forall p :: p in wants ==> (p.entity == a.entity && p.createVerb == a.createVerb) || p == b
    ensures GoodPlan(w, goal, [StepOf(a), StepOf(b)])
  {
    var plan := [StepOf(a), StepOf(b)];
    TwoCover(w, goal, a, b, wants);
    CreatedBelow(w, goal, b, a);
    TwoFirst(w, StepOf(a), StepOf(b));
    GoodBecause(w, goal, plan);
  }

  lemma TwoCover(w: World, goal: string, a: Prereq, b: Prereq, wants: seq<Prereq>)
    requires Unmet(w, a.createVerb) == [] && Unmet(w, b.createVerb) == [a] && Unmet(w, goal) == wants
    requires forall p :: p in wants ==> (p.entity == a.entity && p.createVerb == a.createVerb) || p == b
    ensures Covers(w, goal, [StepOf(a), StepOf(b)])
  {
    var plan := [StepOf(a), StepOf(b)];
    Names(plan);
    assert a.entity == plan[0].entity && b.entity == plan[1].entity;
    CoversNeeds(w, goal, {goal, a.createVerb, b.createVerb}, plan);
  }

  ghost predicate Covers(w: World, goal: string, plan: seq<PlanStep>) {
    forall p :: Needed(w, goal, p) ==> p.entity in Entities(plan)
  }

  lemma GoodBecause(w: World, goal: string, plan: seq<PlanStep>)
    requires Covers(w, goal, plan) && EachOnce(plan) && DependenciesFirst(w, plan)
    requires forall s :: s in plan ==> Created(w, goal, s)
    ensures GoodPlan(w, goal, plan)
  {
  }

  lemma OneUnmet(w: World, p: Prereq)
    requires !w.satisfied(p)
    ensures OnlyUnmet(w, [p]) == [p]
  {
    assert [p][1..] == [];
  }

  lemma TwoUnmet(w: World, p: Prereq, q: Prereq)
    requires !w.satisfied(p) && !w.satisfied(q)
    ensures OnlyUnmet(w, [p, q]) == [p, q]
  {
    assert [p, q][1..] == [q];
    OneUnmet(w, q);
  }

  lemma Names(plan: seq<PlanStep>)
    ensures forall i :: 0 <= i < |plan| ==> plan[i].entity in Entities(plan)
  {
  }

  lemma CreatedDirectly(w: World, goal: string, p: Prereq)
    requires p in Unmet(w, goal)
    ensures Needed(w, goal, p) && Created(w, goal, StepOf(p))
  {
    ReachesSelf(Needs(w), goal);
  }

  lemma CreatedBelow(w: World, goal: string, p: Prereq, q: Prereq)
    requires p in Unmet(w, goal) && q in Unmet(w, p.createVerb)
    ensures Created(w, goal, StepOf(p)) && Created(w, goal, StepOf(q))
  {
    CreatedDirectly(w, goal, p);
    StillCreated(w, goal, p);
  }

  lemma TwoFirst(w: World, s: PlanStep, t: PlanStep)
    requires Unmet(w, s.verb) == [] && forall p :: p in Unmet(w, t.verb) ==> p.entity == s.entity
    ensures DependenciesFirst(w, [s, t])
  {
    assert [s, t][..1][0] == s;
    Names([s, t][..1]);
  }

  lemma ThreeFirst(w: World, s: PlanStep, t: PlanStep, u: PlanStep)
    requires Unmet(w, s.verb) == [] && Unmet(w, t.verb) == []
    requires forall p :: p in Unmet(w, u.verb) ==> p.entity == t.entity
    ensures DependenciesFirst(w, [s, t, u])
  {
    assert [s, t, u][..2][1] == t;
    Names([s, t, u][..2]);
  }

  // These needs are planned, and made by verbs of the set.
  predicate Settled(verbs: set<string>, plan: seq<PlanStep>, needs: seq<Prereq>) {
    forall p :: p in needs ==> p.createVerb in verbs && p.entity in Entities(plan)
  }

  // A plan with everything that the verbs of a closed set still need has everything that is needed.
  lemma CoversNeeds(w: World, goal: string, verbs: set<string>, plan: seq<PlanStep>)
    requires goal in verbs
    requires forall v :: v in verbs ==> Settled(verbs, plan, Unmet(w, v))
    ensures Covers(w, goal, plan)
  {
    forall v, t | v in verbs && t in Succ(Needs(w), v) ensures t in verbs {
      assert Edge(Needs(w), v, t);
      NeedsEdge(w, v, t);
    }
    forall p | Needed(w, goal, p) ensures p.entity in Entities(plan) {
      var v :| Reaches(Needs(w), goal, v) && p in Unmet(w, v);
      var path :| PathBetween(Needs(w), path, goal, v);
      PathStaysIn(Needs(w), verbs, path, |path| - 1);
    }
  }

  // Two entities whose dependents call them by one name: the goal's own, and the one its other need needs.
  function Overwriting(own: Prereq, other: Prereq, deep: Prereq, goal: string): World {
    World(map[goal := [own, other], other.createVerb := [deep]], p => false)
  }

  lemma OverwritingNeeds(own: Prereq, other: Prereq, deep: Prereq, goal: string)
    requires goal !in {own.createVerb, other.createVerb, deep.createVerb}
    requires own.createVerb != other.createVerb && other.createVerb != deep.createVerb
    ensures var w := Overwriting(own, other, deep, goal);
            && Unmet(w, own.createVerb) == [] && Unmet(w, deep.createVerb) == []
            && Unmet(w, other.createVerb) == [deep] && Unmet(w, goal) == [own, other]
  {
    OneUnmet(Overwriting(own, other, deep, goal), deep);
    TwoUnmet(Overwriting(own, other, deep, goal), own, other);
  }

  /** Everyone may agree on the names and the goal still be handed the wrong record: what is planned last
      under a name stays under it. */
  lemma LaterEntityTakesTheName(own: Prereq, other: Prereq, deep: Prereq, goal: string)
    requires own.entity != other.entity && own.entity != deep.entity && other.entity != deep.entity
    requires goal !in {own.createVerb, other.createVerb, deep.createVerb}
    requires own.createVerb != other.createVerb && other.createVerb != deep.createVerb
    requires own.carry.target == deep.carry.target
    ensures var (w, plan) := (Overwriting(own, other, deep, goal), [StepOf(own), StepOf(deep), StepOf(other)]);
            GoodPlan(w, goal, plan) && own in Unmet(w, goal) && !Wired(plan, 3, own)
  {
    var (w, plan) := (Overwriting(own, other, deep, goal), [StepOf(own), StepOf(deep), StepOf(other)]);
    OverwritingNeeds(own, other, deep, goal);
    ThreeStepsAreGood(w, goal, own, other, deep);
    NameIsTaken(plan, own);
  }

  lemma NameIsTaken(plan: seq<PlanStep>, own: Prereq)
    requires |plan| == 3 && plan[1].carry.target == own.carry.target
    requires plan[1].entity != own.entity && plan[2].entity != own.entity
    ensures !Wired(plan, 3, own)
  {
  }

  lemma ThreeStepsAreGood(w: World, goal: string, own: Prereq, other: Prereq, deep: Prereq)
    requires Unmet(w, own.createVerb) == [] && Unmet(w, deep.createVerb) == []
    requires Unmet(w, other.createVerb) == [deep] && Unmet(w, goal) == [own, other]
    requires own.entity != other.entity && own.entity != deep.entity && other.entity != deep.entity
    ensures GoodPlan(w, goal, [StepOf(own), StepOf(deep), StepOf(other)])
  {
    var plan := [StepOf(own), StepOf(deep), StepOf(other)];
    ThreeCover(w, goal, own, other, deep);
    ThreeCreated(w, goal, own, other, deep);
    ThreeFirst(w, StepOf(own), StepOf(deep), StepOf(other));
    GoodBecause(w, goal, plan);
  }

  lemma ThreeCreated(w: World, goal: string, own: Prereq, other: Prereq, deep: Prereq)
    requires Unmet(w, other.createVerb) == [deep] && Unmet(w, goal) == [own, other]
    ensures forall s :: s in [StepOf(own), StepOf(deep), StepOf(other)] ==> Created(w, goal, s)
  {
    assert own in [own, other] && other in [own, other];
    CreatedDirectly(w, goal, own);
    CreatedBelow(w, goal, other, deep);
  }

  lemma ThreeCover(w: World, goal: string, own: Prereq, other: Prereq, deep: Prereq)
    requires Unmet(w, own.createVerb) == [] && Unmet(w, deep.createVerb) == []
    requires Unmet(w, other.createVerb) == [deep] && Unmet(w, goal) == [own, other]
    ensures Covers(w, goal, [StepOf(own), StepOf(deep), StepOf(other)])
  {
    var plan := [StepOf(own), StepOf(deep), StepOf(other)];
    Names(plan);
    assert own.entity == plan[0].entity && deep.entity == plan[1].entity && other.entity == plan[2].entity;
    CoversNeeds(w, goal, {goal, own.createVerb, other.createVerb, deep.createVerb}, plan);
  }
}
