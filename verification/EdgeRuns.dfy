/** What every run of the edge keeps: one write per idempotency key, each numbered, previewed and
    inside the declared skeleton. */
module EdgeRuns {
  import opened Values
  import opened Edge
  import Store

  // --- counting -------------------------------------------------------------------------------------

  ghost function Total(m: map<string, nat>): nat {
    if m == map[] then 0
    else
      var k :| k in m;
      m[k] + Total(m - {k})
  }

  lemma {:induction false} TotalWithout(m: map<string, nat>, k: string)
    requires k in m
    ensures Total(m) == m[k] + Total(m - {k})
    decreases |m|
  {
    var c :| c in m && Total(m) == m[c] + Total(m - {c});
    if c != k {
      TotalWithout(m - {c}, k);
      TotalWithout(m - {k}, c);
      assert m - {c} - {k} == m - {k} - {c};
    }
  }

  lemma TotalAfterOneMore(m: map<string, nat>, k: string)
    ensures Total(m[k := (if k in m then m[k] else 0) + 1]) == Total(m) + 1
  {
    var m' := m[k := (if k in m then m[k] else 0) + 1];
    TotalWithout(m', k);
    if k in m {
      TotalWithout(m, k);
      assert m' - {k} == m - {k};
    } else {
      assert m' - {k} == m;
    }
  }

  // The numbers one workspace's events were sent under, in order.
  function NumbersOf(events: seq<Event>, workspace: string): seq<nat> {
    if events == [] then []
    else
      var last := events[|events| - 1];
      NumbersOf(events[..|events| - 1], workspace) + if last.workspace == workspace then [last.number] else []
  }

  function FirstNumbers(n: nat): seq<nat> {
    seq(n, i => i + 1)
  }

  function LastNumber(sequence: map<string, nat>, workspace: string): nat {
    if workspace in sequence then sequence[workspace] else 0
  }

  // --- the invariant --------------------------------------------------------------------------------

  function OpIn(a: Adapter, p: Proposal): Op {
    match p
    case Generic(op, _) => op
    case Specific(name, _) => if name in a.verbs then a.verbs[name].op else Create
  }

  function TargetOf(a: Adapter, p: Proposal): string {
    match p
    case Generic(_, args) => TargetIn(args)
    case Specific(name, _) => if name in a.verbs then a.verbs[name].doctype else ""
  }

  // A proposal that committing can always make sense of, inside the skeleton.
  ghost predicate Sound(a: Adapter, p: Proposal) {
    match p
    case Generic(op, args) =>
      && Declared(a, TargetIn(args))
      && (op != Create ==> Truthy(FieldOr(args, "id", Null)))
      && (op != Delete ==> FieldOr(args, "data", Null).Obj?)
    case Specific(name, args) => name in a.verbs && Supplied(a.verbs[name], args)
  }

  ghost predicate SoundUndo(a: Adapter, u: Undo) {
    match u
    case GenericUndo(op, args) => Sound(a, Generic(op, args))
    case SpecificUndo(name, entity) => name in a.reversals && entity != ""
  }

  // Each workspace's events are numbered 1, 2, 3, ...
  ghost predicate Numbered(events: seq<Event>, sequence: map<string, nat>) {
    forall w :: NumbersOf(events, w) == FirstNumbers(LastNumber(sequence, w))
  }

  // No key wrote twice, and the ledger remembers what each wrote.
  ghost predicate OncePerKey(ledger: map<string, Receipt>, writes: seq<Write>) {
    && |writes| == |ledger|
    && (forall i, j :: 0 <= i < j < |writes| ==> writes[i].key != writes[j].key)
    && (forall i :: 0 <= i < |writes| ==> Recorded(ledger, writes[i]))
  }

  predicate Recorded(ledger: map<string, Receipt>, w: Write) {
    w.key in ledger && ledger[w.key].proposal == w.proposal && ledger[w.key].target == w.target
  }

  // The write executed a proposal still on record, as that proposal said, inside the skeleton.
  ghost predicate Authorised(a: Adapter, proposals: map<string, Proposal>, executed: set<string>, w: Write) {
    && w.proposal in proposals && w.proposal in executed
    && w.op == OpIn(a, proposals[w.proposal]) && w.target == TargetOf(a, proposals[w.proposal])
    && Declared(a, w.target)
  }

  ghost predicate AllAuthorised(a: Adapter, proposals: map<string, Proposal>, executed: set<string>,
                                writes: seq<Write>) {
    && (forall i :: 0 <= i < |writes| ==> Authorised(a, proposals, executed, writes[i]))
    && (forall pid :: pid in executed ==> CarriedOut(writes, pid))
  }

  // Some write executed the proposal.
  ghost predicate CarriedOut(writes: seq<Write>, pid: string) {
    exists i :: 0 <= i < |writes| && writes[i].proposal == pid
  }

  ghost predicate AllSound(a: Adapter, proposals: map<string, Proposal>, undos: map<string, Undo>) {
    && (forall pid :: pid in proposals ==> Sound(a, proposals[pid]))
    && (forall token :: token in undos ==> SoundUndo(a, undos[token]))
  }

  ghost predicate Counted(writes: seq<Write>, events: seq<Event>, sequence: map<string, nat>) {
    |writes| == |events| == Total(sequence)
  }

  // The books balance: as many mutations as ledger keys, as events, as the workspace counters sum to.
  ghost predicate Balanced(st: State) {
    && Counted(st.writes, st.events, st.sequence)
    && Numbered(st.events, st.sequence)
    && OncePerKey(st.ledger, st.writes)
  }

  ghost predicate Governed(a: Adapter, st: State) {
    && Store.Keyed(st.docs)
    && AllAuthorised(a, st.proposals, st.executed, st.writes)
    && AllSound(a, st.proposals, st.undos)
  }

  ghost predicate Inv(a: Adapter, st: State) {
    Balanced(st) && Governed(a, st)
  }

  // The ids minted for a request are not in use yet.
  ghost predicate Minted(st: State, luck: Luck) {
    luck.uuid !in st.proposals && luck.uuid !in st.undos
  }

  // --- effects --------------------------------------------------------------------------------------

  ghost predicate SoundEffect(a: Adapter, p: Proposal, e: Effect) {
    && !e.KeyError?
    && (e.Effect? ==>
          && Store.Keyed(e.docs) && e.op == OpIn(a, p) && e.target == TargetOf(a, p) && Declared(a, e.target)
          && (e.undo.Some? ==> SoundUndo(a, e.undo.value)))
  }

  // The synthesized reversals say what they are meant to.
  lemma ReversalArgs(a: Adapter, target: string, id: string, data: Store.Fields)
    ensures TargetIn(DeleteArgs(target, id)) == TargetIn(UpdateArgs(target, id, data)) ==
            TargetIn(CreateArgs(target, data)) == target
    ensures IdIn(a, DeleteArgs(target, id)) == IdIn(a, UpdateArgs(target, id, data)) == id
    ensures DataIn(UpdateArgs(target, id, data)) == DataIn(CreateArgs(target, data)) == data
    ensures Declared(a, target) && id != "" ==>
              && Sound(a, Generic(Delete, DeleteArgs(target, id)))
              && Sound(a, Generic(Update, UpdateArgs(target, id, data)))
    ensures Declared(a, target) ==> Sound(a, Generic(Create, CreateArgs(target, data)))
  {
  }

  lemma GenericCreateIsSound(a: Adapter, docs: Store.Docs, args: Store.Fields, luck: Luck)
    requires Store.Keyed(docs) && Sound(a, Generic(Create, args))
    ensures SoundEffect(a, Generic(Create, args), GenericEffect(a, docs, Create, args, luck))
  {
    var r := Store.Create(docs, TargetIn(args), DataIn(args), luck.picked);
    if r.Written? {
      Store.WritesKeepKeys(docs, TargetIn(args), "", DataIn(args), luck.picked);
      ReversalArgs(a, TargetIn(args), r.id, map[]);
    }
  }

  lemma GenericChangeIsSound(a: Adapter, docs: Store.Docs, op: Op, args: Store.Fields, rid: string, luck: Luck)
    requires Store.Keyed(docs) && Sound(a, Generic(op, args)) && op != Create
    ensures SoundEffect(a, Generic(op, args), GenericChange(a, docs, op, TargetIn(args), rid, DataIn(args), luck))
  {
    Store.WritesKeepKeys(docs, TargetIn(args), rid, DataIn(args), luck.picked);
    ReversalArgs(a, TargetIn(args), rid, Before(docs, TargetIn(args), rid, luck));
    KeptUnderAnId(docs, TargetIn(args), rid);
  }

  lemma KeptUnderAnId(docs: Store.Docs, target: string, id: string)
    requires Store.Keyed(docs)
    ensures Store.Key(target, id) in docs ==> id != ""
  {
  }

  lemma SpecificEffectIsSound(a: Adapter, docs: Store.Docs, name: string, args: Store.Fields, luck: Luck)
    requires Consistent(a) && Store.Keyed(docs) && Sound(a, Specific(name, args))
    ensures SoundEffect(a, Specific(name, args), SpecificEffect(a, docs, name, args, luck))
  {
    var v := a.verbs[name];
    Store.WritesKeepKeys(docs, v.doctype, ResolvedOrRaw(a, docs, v, args, luck),
                         a.overlay(name, v.native(args).value), luck.picked);
  }

  lemma EffectsAreSound(a: Adapter, docs: Store.Docs, p: Proposal, luck: Luck)
    requires Consistent(a) && Store.Keyed(docs) && Sound(a, p)
    ensures SoundEffect(a, p, EffectOf(a, docs, p, luck))
  {
    match p
    case Generic(op, args) =>
      if op == Create {
        GenericCreateIsSound(a, docs, args, luck);
      } else {
        var rid := ResolveId(a, docs, luck, TargetIn(args), IdIn(a, args));
        if rid.Some? {
          GenericChangeIsSound(a, docs, op, args, rid.value, luck);
        }
      }
    case Specific(name, args) => SpecificEffectIsSound(a, docs, name, args, luck);
  }

  // --- settling an effect -----------------------------------------------------------------------------

  lemma OneMoreEvent(events: seq<Event>, sequence: map<string, nat>, e: Event)
    requires Numbered(events, sequence) && e.number == LastNumber(sequence, e.workspace) + 1
    ensures Numbered(events + [e], sequence[e.workspace := e.number])
  {
    assert (events + [e])[..|events|] == events;
    forall w ensures NumbersOf(events + [e], w) == FirstNumbers(LastNumber(sequence[e.workspace := e.number], w)) {
      assert NumbersOf(events, w) == FirstNumbers(LastNumber(sequence, w));
      if w == e.workspace {
        assert FirstNumbers(e.number) == FirstNumbers(LastNumber(sequence, w)) + [e.number];
      }
    }
  }

  lemma OneMoreKey(ledger: map<string, Receipt>, writes: seq<Write>, w: Write, r: Receipt)
    requires OncePerKey(ledger, writes) && w.key !in ledger && r.proposal == w.proposal && r.target == w.target
    ensures OncePerKey(ledger[w.key := r], writes + [w])
  {
    forall i | 0 <= i < |writes| ensures writes[i].key != w.key && Recorded(ledger[w.key := r], writes[i]) {
      assert Recorded(ledger, writes[i]);
    }
    assert |ledger[w.key := r]| == |ledger| + 1;
  }

  lemma OneMoreWrite(a: Adapter, proposals: map<string, Proposal>, executed: set<string>, writes: seq<Write>, w: Write)
    requires AllAuthorised(a, proposals, executed, writes)
    requires w.proposal in proposals && Declared(a, w.target)
    requires w.op == OpIn(a, proposals[w.proposal]) && w.target == TargetOf(a, proposals[w.proposal])
    ensures AllAuthorised(a, proposals, executed + {w.proposal}, writes + [w])
  {
    var writes', executed' := writes + [w], executed + {w.proposal};
    forall i | 0 <= i < |writes'| ensures Authorised(a, proposals, executed', writes'[i]) {
      if i < |writes| {
        assert Authorised(a, proposals, executed, writes[i]);
      }
    }
    forall pid | pid in executed' ensures CarriedOut(writes', pid) {
      if pid in executed {
        assert CarriedOut(writes, pid);
        var i :| 0 <= i < |writes| && writes[i].proposal == pid;
        assert writes'[i].proposal == pid;
      } else {
        assert writes'[|writes|].proposal == pid;
      }
    }
  }

  lemma OneMoreCount(writes: seq<Write>, events: seq<Event>, sequence: map<string, nat>, w: Write, e: Event)
    requires Counted(writes, events, sequence) && e.number == LastNumber(sequence, e.workspace) + 1
    ensures Counted(writes + [w], events + [e], sequence[e.workspace := e.number])
  {
    TotalAfterOneMore(sequence, e.workspace);
  }

  lemma SettleBalances(st: State, workspace: string, key: string, pid: string, e: Effect, uuid: string)
    requires Balanced(st) && key !in st.ledger && e.Effect?
    ensures Balanced(Settle(st, workspace, key, pid, e, uuid).0)
  {
    var st' := Settle(st, workspace, key, pid, e, uuid).0;
    var write, event := Write(key, pid, e.op, e.target), Event(workspace, NextNumber(st, workspace), pid);
    OneMoreCount(st.writes, st.events, st.sequence, write, event);
    OneMoreEvent(st.events, st.sequence, event);
    OneMoreKey(st.ledger, st.writes, write, st'.ledger[key]);
  }

  lemma SettleIsGoverned(a: Adapter, st: State, workspace: string, key: string, pid: string, e: Effect, uuid: string)
    requires Governed(a, st) && pid in st.proposals
    requires e.Effect? && SoundEffect(a, st.proposals[pid], e)
    ensures Governed(a, Settle(st, workspace, key, pid, e, uuid).0)
  {
    OneMoreWrite(a, st.proposals, st.executed, st.writes, Write(key, pid, e.op, e.target));
  }

  lemma ConcludeKeepsInv(a: Adapter, st: State, workspace: string, key: string, pid: string, e: Effect, uuid: string)
    requires Inv(a, st) && key !in st.ledger && pid in st.proposals
    requires SoundEffect(a, st.proposals[pid], e)
    ensures Inv(a, Conclude(st, workspace, key, pid, e, uuid).0)
    ensures !Conclude(st, workspace, key, pid, e, uuid).1.Crashed?
  {
    if e.Effect? {
      SettleBalances(st, workspace, key, pid, e, uuid);
      SettleIsGoverned(a, st, workspace, key, pid, e, uuid);
    }
  }

  // --- requests -------------------------------------------------------------------------------------

  lemma PreviewKeepsInv(a: Adapter, st: State, id: string, p: Proposal)
    requires Inv(a, st) && id !in st.proposals && Sound(a, p)
    ensures Inv(a, Previewed(st, id, p).0)
  {
    forall i | 0 <= i < |st.writes| ensures Authorised(a, st.proposals[id := p], st.executed, st.writes[i]) {
      assert Authorised(a, st.proposals, st.executed, st.writes[i]);
    }
  }

  lemma CommitKeepsInv(a: Adapter, st: State, workspace: string, key: string, pid: string, luck: Luck)
    requires Consistent(a) && Inv(a, st)
    ensures Inv(a, Commit(a, st, workspace, key, pid, luck).0)
    ensures !Commit(a, st, workspace, key, pid, luck).1.Crashed?
  {
    if key !in st.ledger && pid in st.proposals {
      EffectsAreSound(a, st.docs, st.proposals[pid], luck);
      ConcludeKeepsInv(a, st, workspace, key, pid, EffectOf(a, st.docs, st.proposals[pid], luck), luck.uuid);
    }
  }

  lemma ProposeKeepsInv(a: Adapter, st: State, verb: Verb, args: Store.Fields, luck: Luck)
    requires Inv(a, st) && Minted(st, luck)
    ensures Inv(a, Propose(a, st, verb, args, luck).0)
  {
    match verb
    case Resource(Some(op)) =>
      if ResourceComplaint(a, op, args, luck).None? { PreviewKeepsInv(a, st, luck.uuid, Generic(op, args)); }
    case Named(name) =>
      if NamedComplaint(a, name, args, luck).None? { PreviewKeepsInv(a, st, luck.uuid, Specific(name, args)); }
    case _ =>
  }

  lemma RollbackKeepsInv(a: Adapter, st: State, token: string, luck: Luck)
    requires Consistent(a) && Inv(a, st) && Minted(st, luck)
    ensures Inv(a, Rollback(a, st, token, luck).0)
    ensures Rollback(a, st, token, luck).1 != Refused(Irreversible)
  {
    if token in st.undos {
      assert SoundUndo(a, st.undos[token]);
      match st.undos[token]
      case GenericUndo(op, args) => PreviewKeepsInv(a, st, luck.uuid, Generic(op, args));
      case SpecificUndo(name, entity) =>
        PreviewKeepsInv(a, st, luck.uuid, Specific(a.reversals[name].verb, a.reversals[name].args(entity)));
    }
  }

  /** Every request keeps the invariant; no commit meets a proposal it cannot make sense of, and no
      minted token turns out to be irreversible. */
  lemma ServeKeepsInv(a: Adapter, st: State, request: Request, luck: Luck)
    requires Consistent(a) && Inv(a, st) && Minted(st, luck)
    ensures Inv(a, Serve(a, st, request, luck).0)
    ensures request.CommitRequest? ==> !Serve(a, st, request, luck).1.Crashed?
    ensures request.RollbackRequest? ==> Serve(a, st, request, luck).1 != Refused(Irreversible)
  {
    match request
    case ProposeRequest(verb, args) => ProposeKeepsInv(a, st, verb, args, luck);
    case CommitRequest(workspace, key, pid) => CommitKeepsInv(a, st, workspace, key, pid, luck);
    case RollbackRequest(token) => RollbackKeepsInv(a, st, token, luck);
    case _ =>
  }

  // --- runs -----------------------------------------------------------------------------------------

  datatype Moment = Moment(request: Request, luck: Luck)

  function ReplyAt(a: Adapter, m: Moment, st: State): Reply {
    Serve(a, st, m.request, m.luck).1
  }

  ghost predicate Served(a: Adapter, m: Moment, st: State, st': State) {
    Minted(st, m.luck) && st' == Serve(a, st, m.request, m.luck).0
  }

  // A run from a store with some content: any requests, in any order, meeting any luck.
  ghost predicate IsRun(a: Adapter, docs: Store.Docs, script: seq<Moment>, states: seq<State>) {
    && Consistent(a)
    && |states| == |script| + 1
    && Store.Keyed(docs) && states[0] == Fresh(docs)
    && forall i, j {:trigger Served(a, script[i], states[i], states[j])} ::
         0 <= i < |script| && j == i + 1 ==> Served(a, script[i], states[i], states[j])
  }

  lemma StepOf(a: Adapter, docs: Store.Docs, script: seq<Moment>, states: seq<State>, i: nat)
    requires IsRun(a, docs, script, states) && i < |script|
    ensures Served(a, script[i], states[i], states[i + 1])
  {
  }

  lemma StartsInOrder(a: Adapter, docs: Store.Docs)
    requires Store.Keyed(docs)
    ensures Inv(a, Fresh(docs))
  {
    var st := Fresh(docs);
    forall w ensures NumbersOf(st.events, w) == FirstNumbers(LastNumber(st.sequence, w)) {
      assert NumbersOf(st.events, w) == [] == FirstNumbers(LastNumber(st.sequence, w));
    }
  }

  /** In every reachable state the books balance: mutations = ledger keys = events = the sum of the
      workspace counters, with each workspace's events numbered 1, 2, 3, ... */
  lemma {:induction false} RunsKeepInv(a: Adapter, docs: Store.Docs, script: seq<Moment>, states: seq<State>, i: nat)
    requires IsRun(a, docs, script, states) && i <= |script|
    ensures Inv(a, states[i])
  {
    if i == 0 {
      StartsInOrder(a, docs);
    } else {
      RunsKeepInv(a, docs, script, states, i - 1);
      StepOf(a, docs, script, states, i - 1);
      ServeKeepsInv(a, states[i - 1], script[i - 1].request, script[i - 1].luck);
    }
  }

  // --- the records only grow --------------------------------------------------------------------------

  ghost predicate Keeps<T>(m: map<string, T>, m': map<string, T>) {
    forall k :: k in m ==> k in m' && m'[k] == m[k]
  }

  ghost predicate Grows(st: State, st': State) {
    && Keeps(st.proposals, st'.proposals) && Keeps(st.ledger, st'.ledger) && Keeps(st.undos, st'.undos)
    && st.executed <= st'.executed
    && st.writes <= st'.writes && st.events <= st'.events
  }

  lemma GrowsTransitive(a: State, b: State, c: State)
    requires Grows(a, b) && Grows(b, c)
    ensures Grows(a, c)
  {
  }

  lemma ConcludeGrows(st: State, workspace: string, key: string, pid: string, e: Effect, luck: Luck)
    requires Minted(st, luck) && key !in st.ledger
    ensures Grows(st, Conclude(st, workspace, key, pid, e, luck.uuid).0)
    ensures Conclude(st, workspace, key, pid, e, luck.uuid).0.proposals == st.proposals
  {
  }

  lemma PreviewGrows(st: State, id: string, p: Proposal)
    requires id !in st.proposals
    ensures Grows(st, Previewed(st, id, p).0)
    ensures forall pid :: pid in Previewed(st, id, p).0.proposals ==>
              pid in st.proposals || Previewed(st, id, p).1 == Preview(pid, Previewed(st, id, p).0.proposals[pid])
  {
  }

  // Nothing is forgotten or overwritten, and a proposal that is new was previewed in the reply.
  lemma ServeGrows(a: Adapter, st: State, request: Request, luck: Luck)
    requires Minted(st, luck)
    ensures Grows(st, Serve(a, st, request, luck).0)
    ensures var (st', r) := Serve(a, st, request, luck);
            forall pid :: pid in st'.proposals ==> pid in st.proposals || r == Preview(pid, st'.proposals[pid])
  {
    match request
    case CommitRequest(workspace, key, pid) =>
      if key !in st.ledger && pid in st.proposals {
        ConcludeGrows(st, workspace, key, pid, EffectOf(a, st.docs, st.proposals[pid], luck), luck);
      }
    case ProposeRequest(Resource(Some(op)), args) => PreviewGrows(st, luck.uuid, Generic(op, args));
    case ProposeRequest(Named(name), args) => PreviewGrows(st, luck.uuid, Specific(name, args));
    case RollbackRequest(token) =>
      if token in st.undos {
        match st.undos[token]
        case GenericUndo(op, args) => PreviewGrows(st, luck.uuid, Generic(op, args));
        case SpecificUndo(name, entity) =>
          if name in a.reversals {
            PreviewGrows(st, luck.uuid, Specific(a.reversals[name].verb, a.reversals[name].args(entity)));
          }
      }
    case _ =>
  }

  lemma {:induction false} RunsGrow(a: Adapter, docs: Store.Docs, script: seq<Moment>, states: seq<State>, i: nat,
                                    j: nat)
    requires IsRun(a, docs, script, states) && i <= j <= |script|
    ensures Grows(states[i], states[j])
    decreases j
  {
    if i < j {
      RunsGrow(a, docs, script, states, i, j - 1);
      StepOf(a, docs, script, states, j - 1);
      ServeGrows(a, states[j - 1], script[j - 1].request, script[j - 1].luck);
      GrowsTransitive(states[i], states[j - 1], states[j]);
    }
  }

  // --- what a run's caller can rely on ----------------------------------------------------------------

  lemma ExecutedIsRecorded(a: Adapter, st: State, workspace: string, key: string, pid: string, luck: Luck)
    ensures var (st', r) := Commit(a, st, workspace, key, pid, luck);
            r.Executed? ==> key in st'.ledger && st'.ledger[key] == r.receipt
  {
  }

  /** Once a commit was executed under a key, every later commit under that key, whatever proposal it
      names, changes nothing at all and is answered with the original receipt. */
  lemma ReplaysChangeNothing(a: Adapter, docs: Store.Docs, script: seq<Moment>, states: seq<State>, i: nat, j: nat)
    requires IsRun(a, docs, script, states) && i < j < |script|
    requires script[i].request.CommitRequest? && script[j].request.CommitRequest?
    requires script[i].request.key == script[j].request.key
    requires ReplyAt(a, script[i], states[i]).Executed?
    ensures states[j + 1] == states[j]
    ensures ReplyAt(a, script[j], states[j]) == Replayed(ReplyAt(a, script[i], states[i]).receipt)
  {
    var first := script[i].request;
    StepOf(a, docs, script, states, i);
    ExecutedIsRecorded(a, states[i], first.workspace, first.key, first.proposal, script[i].luck);
    assert first.key in states[i + 1].ledger;
    RunsGrow(a, docs, script, states, i + 1, j);
    StepOf(a, docs, script, states, j);
  }

  // Some earlier request of the run was answered with a preview of this proposal.
  ghost predicate PreviewedBefore(a: Adapter, script: seq<Moment>, states: seq<State>, i: nat, pid: string, p: Proposal)
    requires i <= |script| < |states|
  {
    exists j :: 0 <= j < i && ReplyAt(a, script[j], states[j]) == Preview(pid, p)
  }

  lemma {:induction false} ProposalsWerePreviewed(a: Adapter, docs: Store.Docs, script: seq<Moment>, states: seq<State>,
                                                  i: nat, pid: string)
    requires IsRun(a, docs, script, states) && i <= |script|
    requires pid in states[i].proposals
    ensures PreviewedBefore(a, script, states, i, pid, states[i].proposals[pid])
  {
    if i > 0 {
      StepOf(a, docs, script, states, i - 1);
      ServeGrows(a, states[i - 1], script[i - 1].request, script[i - 1].luck);
      if pid in states[i - 1].proposals {
        ProposalsWerePreviewed(a, docs, script, states, i - 1, pid);
        var j :| 0 <= j < i - 1 && ReplyAt(a, script[j], states[j]) == Preview(pid, states[i - 1].proposals[pid]);
        assert ReplyAt(a, script[j], states[j]) == Preview(pid, states[i].proposals[pid]);
      } else {
        assert ReplyAt(a, script[i - 1], states[i - 1]) == Preview(pid, states[i].proposals[pid]);
      }
    }
  }

  // Outside one collection the store is as it was.
  ghost predicate OnlyIn(target: string, docs: Store.Docs, docs': Store.Docs) {
    forall k: Store.Key :: k.target != target ==> Store.At(docs, k) == Store.At(docs', k)
  }

  lemma EffectsStayInTheirTarget(a: Adapter, docs: Store.Docs, p: Proposal, luck: Luck)
    ensures var e := EffectOf(a, docs, p, luck); e.Effect? ==> OnlyIn(TargetOf(a, p), docs, e.docs)
  {
  }

  // The request wrote: one write more, for this commit, of a proposal on record, in its collection.
  ghost predicate WroteOnce(a: Adapter, st: State, st': State, request: Request) {
    && request.CommitRequest? && request.proposal in st.proposals
    && var p := st.proposals[request.proposal];
       && st'.writes == st.writes + [Write(request.key, request.proposal, OpIn(a, p), TargetOf(a, p))]
       && OnlyIn(TargetOf(a, p), st.docs, st'.docs)
  }

  lemma ConcludeWritesOnce(a: Adapter, st: State, request: Request, e: Effect, uuid: string)
    requires request.CommitRequest? && request.proposal in st.proposals
    requires SoundEffect(a, st.proposals[request.proposal], e)
    requires e.Effect? ==> OnlyIn(TargetOf(a, st.proposals[request.proposal]), st.docs, e.docs)
    ensures var st' := Conclude(st, request.workspace, request.key, request.proposal, e, uuid).0;
            (st'.docs == st.docs && st'.writes == st.writes) || WroteOnce(a, st, st', request)
  {
  }

  lemma CommitWritesOnce(a: Adapter, st: State, request: Request, luck: Luck)
    requires Consistent(a) && Governed(a, st)
    requires request.CommitRequest?
    ensures var st' := Commit(a, st, request.workspace, request.key, request.proposal, luck).0;
            (st'.docs == st.docs && st'.writes == st.writes) || WroteOnce(a, st, st', request)
  {
    if request.key !in st.ledger && request.proposal in st.proposals {
      var p := st.proposals[request.proposal];
      EffectsAreSound(a, st.docs, p, luck);
      EffectsStayInTheirTarget(a, st.docs, p, luck);
      ConcludeWritesOnce(a, st, request, EffectOf(a, st.docs, p, luck), luck.uuid);
    }
  }

  lemma OthersWriteNothing(a: Adapter, st: State, request: Request, luck: Luck)
    requires !request.CommitRequest?
    ensures var st' := Serve(a, st, request, luck).0; st'.docs == st.docs && st'.writes == st.writes
  {
  }

  lemma SoundIsDeclared(a: Adapter, p: Proposal)
    requires Sound(a, p)
    ensures Declared(a, TargetOf(a, p))
  {
  }

  /** No silent write: whenever the store changes, the request was a COMMIT of a proposal that an
      earlier reply of the same run previewed in full, the change is the one previewed, and it stays
      within one collection that DESCRIBE advertises. */
  lemma NoSilentWrite(a: Adapter, docs: Store.Docs, script: seq<Moment>, states: seq<State>, i: nat)
    requires IsRun(a, docs, script, states) && i < |script|
    requires states[i + 1].docs != states[i].docs || states[i + 1].writes != states[i].writes
    ensures WroteOnce(a, states[i], states[i + 1], script[i].request)
    ensures var pid := script[i].request.proposal;
            var p := states[i].proposals[pid];
            Declared(a, TargetOf(a, p)) && PreviewedBefore(a, script, states, i, pid, p)
  {
    RunsKeepInv(a, docs, script, states, i);
    StepOf(a, docs, script, states, i);
    if script[i].request.CommitRequest? {
      CommitWritesOnce(a, states[i], script[i].request, script[i].luck);
    } else {
      OthersWriteNothing(a, states[i], script[i].request, script[i].luck);
    }
    SoundIsDeclared(a, states[i].proposals[script[i].request.proposal]);
    ProposalsWerePreviewed(a, docs, script, states, i, script[i].request.proposal);
  }

  /** STATUS tells the truth: executed exactly when some write carried the proposal out, and pending
      exactly when none did but an earlier reply previewed it. */
  lemma StatusIsTruthful(a: Adapter, docs: Store.Docs, script: seq<Moment>, states: seq<State>, i: nat, pid: string)
    requires IsRun(a, docs, script, states) && i <= |script|
    ensures StandingOf(states[i], pid) == Done <==> CarriedOut(states[i].writes, pid)
    ensures StandingOf(states[i], pid) == Pending <==>
            !CarriedOut(states[i].writes, pid) && exists p :: PreviewedBefore(a, script, states, i, pid, p)
  {
    RunsKeepInv(a, docs, script, states, i);
    if CarriedOut(states[i].writes, pid) {
      var k :| 0 <= k < |states[i].writes| && states[i].writes[k].proposal == pid;
      assert Authorised(a, states[i].proposals, states[i].executed, states[i].writes[k]);
    }
    if pid in states[i].proposals {
      ProposalsWerePreviewed(a, docs, script, states, i, pid);
    } else if exists p :: PreviewedBefore(a, script, states, i, pid, p) {
      var p :| PreviewedBefore(a, script, states, i, pid, p);
      PreviewedIsOnRecord(a, docs, script, states, i, pid, p);
    }
  }

  lemma PreviewedIsOnRecord(a: Adapter, docs: Store.Docs, script: seq<Moment>, states: seq<State>, i: nat, pid: string,
                            p: Proposal)
    requires IsRun(a, docs, script, states) && i <= |script|
    requires PreviewedBefore(a, script, states, i, pid, p)
    ensures pid in states[i].proposals && states[i].proposals[pid] == p
  {
    var j :| 0 <= j < i && ReplyAt(a, script[j], states[j]) == Preview(pid, p);
    StepOf(a, docs, script, states, j);
    PreviewIsStored(a, states[j], script[j].request, script[j].luck);
    RunsGrow(a, docs, script, states, j + 1, i);
  }

  lemma PreviewIsStored(a: Adapter, st: State, request: Request, luck: Luck)
    ensures var (st', r) := Serve(a, st, request, luck);
            r.Preview? ==> r.id in st'.proposals && st'.proposals[r.id] == r.proposal
  {
  }
}
