/** The edge as the program it is: handlers that update the shim's state and call the system client in
    order, each proved to do what the request's function of the state says. */
module EdgeService {
  import opened Values
  import opened Edge
  import Store

  class SystemClient {
    var docs: Store.Docs

    constructor (docs: Store.Docs)
      ensures this.docs == docs
    {
      this.docs := docs;
    }

    // A mutation is refused (SystemError) by the backend's luck or by its own rules.
    method Create(target: string, doc: Store.Fields, luck: Luck) returns (id: Option<string>)
      modifies this
      ensures var r := Store.Create(old(docs), target, doc, luck.picked);
              if luck.accepts && r.Written? then docs == r.docs && id == Some(r.id)
              else docs == old(docs) && id == None
    {
      var key := if "id" in doc then doc["id"] else Str(luck.picked);
      if !luck.accepts || !key.Str? || key.s == "" || Store.Key(target, key.s) in docs {
        return None;
      }
      docs := docs[Store.Key(target, key.s) := doc["id" := key]];
      id := Some(key.s);
    }

    method Update(target: string, recordId: string, changes: Store.Fields, luck: Luck) returns (id: Option<string>)
      modifies this
      ensures var r := Store.Update(old(docs), target, recordId, changes);
              if luck.accepts && r.Written? then docs == r.docs && id == Some(r.id)
              else docs == old(docs) && id == None
    {
      var k := Store.Key(target, recordId);
      if !luck.accepts || k !in docs {
        return None;
      }
      var merged := docs[k] + changes;
      if "id" in changes && changes["id"] != Str(recordId) {
        var moved := changes["id"];
        if !moved.Str? || moved.s == "" || Store.Key(target, moved.s) in docs {
          return None;
        }
        docs := (docs - {k})[Store.Key(target, moved.s) := merged];
        id := Some(moved.s);
      } else {
        docs := docs[k := merged];
        id := Some(recordId);
      }
    }

    method Delete(target: string, recordId: string, luck: Luck) returns (id: Option<string>)
      modifies this
      ensures var r := Store.Delete(old(docs), target, recordId);
              if luck.accepts && r.Written? then docs == r.docs && id == Some(r.id)
              else docs == old(docs) && id == None
    {
      if !luck.accepts || Store.Key(target, recordId) !in docs {
        return None;
      }
      docs := docs - {Store.Key(target, recordId)};
      id := Some(recordId);
    }

    method Get(target: string, recordId: string, seen: bool) returns (r: Option<Store.Fields>)
      ensures r == Read(docs, Store.Key(target, recordId), seen)
    {
      var k := Store.Key(target, recordId);
      r := if seen && k in docs then Some(docs[k]) else None;
    }
  }

  class ShimState {
    var proposals: map<string, Proposal>
    var ledger: map<string, Receipt>
    var executed: set<string>
    var undos: map<string, Undo>
    var sequence: map<string, nat>

    constructor ()
      ensures proposals == map[] && ledger == map[] && executed == {} && undos == map[] && sequence == map[]
    {
      proposals, ledger, executed, undos, sequence := map[], map[], {}, map[], map[];
    }

    method NextSequence(workspace: string) returns (number: nat)
      modifies this`sequence
      ensures number == (if workspace in old(sequence) then old(sequence)[workspace] else 0) + 1
      ensures sequence == old(sequence)[workspace := number]
    {
      number := (if workspace in sequence then sequence[workspace] else 0) + 1;
      sequence := sequence[workspace := number];
    }
  }

  method Resolve(a: Adapter, client: SystemClient, target: string, value: string, luck: Luck)
    returns (id: Option<string>)
    ensures id == ResolveId(a, client.docs, luck, target, value)
  {
    if value == "" {
      return None;
    }
    var present := client.Get(target, value, luck.sees(0));
    if present.Some? {
      return Some(value);
    }
    for k := 0 to |ID_FIELDS|
      invariant ByIdentifier(a, luck, value, ID_FIELDS) == ByIdentifier(a, luck, value, ID_FIELDS[k..])
    {
      assert ID_FIELDS[k..][1..] == ID_FIELDS[k + 1..];
      var rows := luck.lists(ID_FIELDS[k]);
      if rows.Some? {
        var hits := Hits(a, rows.value, ID_FIELDS[k], value);
        if |hits| == 1 {
          return Some(RowId(a, hits[0]));
        }
      }
    }
    id := None;
  }

  class EdgeApp {
    const adapter: Adapter
    const client: SystemClient
    const state: ShimState
    var emitted: seq<Event>
    ghost var writes: seq<Write>

    constructor (adapter: Adapter, client: SystemClient)
      ensures this.adapter == adapter && this.client == client && fresh(state)
      ensures Now() == Fresh(client.docs)
    {
      this.adapter, this.client := adapter, client;
      this.state := new ShimState();
      emitted, writes := [], [];
    }

    ghost function Now(): State
      reads this, client, state
    {
      State(client.docs, state.proposals, state.ledger, state.executed, state.undos, state.sequence, emitted, writes)
    }

    method KeepProposal(uuid: string, p: Proposal) returns (reply: Reply)
      modifies state
      ensures (Now(), reply) == Previewed(old(Now()), uuid, p)
    {
      state.proposals := state.proposals[uuid := p];
      reply := Preview(uuid, p);
    }

    method Propose(verb: Verb, args: Store.Fields, luck: Luck) returns (reply: Reply)
      modifies state
      ensures (Now(), reply) == Edge.Propose(adapter, old(Now()), verb, args, luck)
    {
      match verb
      case Resource(None) => reply := Refused(UnknownVerb);
      case Resource(Some(op)) =>
        var complaint := ResourceComplaint(adapter, op, args, luck);
        if complaint.Some? {
          return Refused(complaint.value);
        }
        reply := KeepProposal(luck.uuid, Generic(op, args));
      case Named(name) =>
        var complaint := NamedComplaint(adapter, name, args, luck);
        if complaint.Some? {
          return Refused(complaint.value);
        }
        reply := KeepProposal(luck.uuid, Specific(name, args));
    }

    method Rollback(token: string, luck: Luck) returns (reply: Reply)
      modifies state
      ensures (Now(), reply) == Edge.Rollback(adapter, old(Now()), token, luck)
    {
      if token !in state.undos {
        return Refused(CompensationExpired);
      }
      match state.undos[token]
      case GenericUndo(op, args) => reply := KeepProposal(luck.uuid, Generic(op, args));
      case SpecificUndo(name, entity) =>
        if name !in adapter.reversals {
          return Refused(Irreversible);
        }
        reply := KeepProposal(luck.uuid, Specific(adapter.reversals[name].verb, adapter.reversals[name].args(entity)));
    }

    // The generic path: resolve, read the before-image, mutate, read back.
    method ApplyGeneric(op: Op, args: Store.Fields, luck: Luck) returns (e: Effect)
      modifies client
      ensures e == GenericEffect(adapter, old(client.docs), op, args, luck)
      ensures client.docs == if e.Effect? then e.docs else old(client.docs)
    {
      var target, data := TargetIn(args), DataIn(args);
      if op == Create {
        var id := client.Create(target, data, luck);
        if id.None? {
          return NoEffect;
        }
        var after := client.Get(target, id.value, luck.sees(2));
        e := Effect(Create, target, client.docs, id.value, Landed(adapter, after, data),
                    Some(GenericUndo(Delete, DeleteArgs(target, id.value))));
      } else {
        var rid := Resolve(adapter, client, target, IdIn(adapter, args), luck);
        if rid.None? {
          return NoEffect;
        }
        e := ApplyChange(op, target, rid.value, data, luck);
      }
    }

    method ApplyChange(op: Op, target: string, rid: string, data: Store.Fields, luck: Luck) returns (e: Effect)
      modifies client
      ensures e == GenericChange(adapter, old(client.docs), op, target, rid, data, luck)
      ensures client.docs == if e.Effect? then e.docs else old(client.docs)
    {
      var before := client.Get(target, rid, luck.sees(1));
      if op == Update {
        var done := client.Update(target, rid, data, luck);
        if done.None? {
          return NoEffect;
        }
        var after := client.Get(target, rid, luck.sees(2));
        e := Effect(Update, target, client.docs, rid, Landed(adapter, after, data),
                    Some(GenericUndo(Update, UpdateArgs(target, rid, OrEmpty(before)))));
      } else {
        var done := client.Delete(target, rid, luck);
        if done.None? {
          return NoEffect;
        }
        var after := client.Get(target, rid, luck.sees(2));
        e := Effect(Delete, target, client.docs, rid, after.None?,
                    Some(GenericUndo(Create, CreateArgs(target, OrEmpty(before)))));
      }
    }

    // The translated path: the verb's own record, written the way its name says.
    method ApplySpecific(name: string, args: Store.Fields, luck: Luck) returns (e: Effect)
      modifies client
      ensures e == SpecificEffect(adapter, old(client.docs), name, args, luck)
      ensures client.docs == if e.Effect? then e.docs else old(client.docs)
    {
      if name !in adapter.verbs {
        return KeyError;
      }
      var v := adapter.verbs[name];
      var translated := v.native(args);
      if translated.None? {
        return KeyError;
      }
      var native := adapter.overlay(name, translated.value);
      var id := Mutate(v, args, native, luck);
      if id.None? {
        return NoEffect;
      }
      var after := client.Get(v.doctype, id.value, luck.sees(2));
      e := Effect(v.op, v.doctype, client.docs, id.value,
                  if v.op == Delete then after.None? else Landed(adapter, after, native),
                  if name in adapter.reversals then Some(SpecificUndo(name, id.value)) else None);
    }

    method Mutate(v: WriteVerb, args: Store.Fields, native: Store.Fields, luck: Luck) returns (id: Option<string>)
      modifies client
      ensures var r := SpecificWrite(adapter, old(client.docs), v, args, native, luck);
              if luck.accepts && r.Written? then client.docs == r.docs && id == Some(r.id)
              else client.docs == old(client.docs) && id == None
    {
      if v.op == Create {
        id := client.Create(v.doctype, native, luck);
        return;
      }
      var raw := if v.required == [] then "" else Text(adapter, FieldOr(args, v.required[0], Str("")));
      var found := Resolve(adapter, client, v.doctype, raw, luck);
      var recordId := if found.Some? && found.value != "" then found.value else raw;
      if v.op == Delete {
        id := client.Delete(v.doctype, recordId, luck);
      } else {
        id := client.Update(v.doctype, recordId, native, luck);
      }
    }

    method Commit(workspace: string, key: string, pid: string, luck: Luck) returns (reply: Reply)
      modifies this, client, state
      ensures (Now(), reply) == Edge.Commit(adapter, old(Now()), workspace, key, pid, luck)
    {
      if key in state.ledger {
        return Replayed(state.ledger[key]);
      }
      if pid !in state.proposals {
        return Refused(Expired);
      }
      var e: Effect;
      match state.proposals[pid] {
        case Generic(op, args) => e := ApplyGeneric(op, args, luck);
        case Specific(name, args) => e := ApplySpecific(name, args, luck);
      }
      match e
      case KeyError => reply := Crashed;
      case NoEffect => reply := Failed(pid);
      case Effect(_, _, _, _, _, _) => reply := Settle(workspace, key, pid, e, luck.uuid);
    }

    // After a mutation: the undo, the ledger entry, and the numbered event.
    method Settle(workspace: string, key: string, pid: string, e: Effect, uuid: string) returns (reply: Reply)
      requires e.Effect? && client.docs == e.docs
      modifies this, state
      ensures (Now(), reply) == Edge.Settle(old(Now()), workspace, key, pid, e, uuid)
    {
      var token := None;
      if e.undo.Some? {
        token := Some(uuid);
        state.undos := state.undos[uuid := e.undo.value];
      }
      var receipt := Receipt(pid, e.target, e.id, e.verified, token);
      state.ledger := state.ledger[key := receipt];
      state.executed := state.executed + {pid};
      var number := state.NextSequence(workspace);
      emitted := emitted + [Event(workspace, number, pid)];
      writes := writes + [Write(key, pid, e.op, e.target)];
      reply := Executed(receipt);
    }

    method Handle(request: Request, luck: Luck) returns (reply: Reply)
      modifies this, client, state
      ensures (Now(), reply) == Serve(adapter, old(Now()), request, luck)
    {
      match request
      case ProposeRequest(verb, args) => reply := Propose(verb, args, luck);
      case CommitRequest(workspace, key, pid) => reply := Commit(workspace, key, pid, luck);
      case RollbackRequest(token) => reply := Rollback(token, luck);
      case StatusRequest(pid) =>
        reply := StatusIs(if pid in state.executed then Done else if pid in state.proposals then Pending else Gone);
      case QueryRequest(target) =>
        if !Declared(adapter, target) || !luck.provisioned {
          return NotFound;
        }
        var rows := luck.lists(target);
        reply := if rows.Some? then Rows(rows.value) else Crashed;
    }
  }
}
