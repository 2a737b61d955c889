/** The edge in front of a system of record: PROPOSE previews, COMMIT writes once per idempotency key,
    ROLLBACK previews the reverse. Here as functions of its state and the store's. */
module Edge {
  import opened Values
  import opened Store

  // --- verbs --------------------------------------------------------------------------------------

  datatype Op = Create | Update | Delete

  // What a verb name can be to the edge: a resource.* operation (None when it has no such operation),
  // or a verb of the adapter's own.
  datatype Verb = Resource(op: Option<Op>) | Named(name: string)

  // A write verb the adapter translates: the collection it writes to, the arguments it cannot do
  // without, the write path its name selects, and the record its arguments become (None is KeyError).
  datatype WriteVerb = WriteVerb(doctype: string, required: seq<string>, op: Op, native: Fields -> Option<Fields>)

  // How an effect is reversed: the compensating verb and its arguments, given the entity's id.
  datatype Reversal = Reversal(verb: string, args: string -> Fields)

  // What an adapter is generated with: its write verbs, the reversals of some of them, the manifest
  // pre-fill, how a value prints, and when a written value counts as landed.
  datatype Adapter = Adapter(
    verbs: map<string, WriteVerb>,
    reversals: map<string, Reversal>,
    overlay: (string, Fields) -> Fields,
    text: Json -> string,
    landed: (Json, Json) -> bool)

  predicate Supplied(v: WriteVerb, args: Fields) {
    forall f :: f in v.required ==> f in args && Truthy(args[f])
  }

  // The declared skeleton: the collections the adapter's own verbs write to.
  predicate Declared(a: Adapter, target: string) {
    exists name :: name in a.verbs && a.verbs[name].doctype == target
  }

  // The tables agree: what a verb requires is enough to translate it, and every reversal is a verb
  // that the entity's id alone supplies.
  ghost predicate Consistent(a: Adapter) {
    && (forall name, args :: name in a.verbs && Supplied(a.verbs[name], args) ==> a.verbs[name].native(args).Some?)
    && (forall name :: name in a.reversals ==> name in a.verbs && a.reversals[name].verb in a.verbs)
    && (forall name, id :: name in a.reversals && id != "" ==>
          Supplied(a.verbs[a.reversals[name].verb], a.reversals[name].args(id)))
  }

  // --- state --------------------------------------------------------------------------------------

  datatype Proposal = Generic(op: Op, args: Fields) | Specific(verb: string, args: Fields)

  // What a compensation token stands for.
  datatype Undo = GenericUndo(op: Op, args: Fields) | SpecificUndo(verb: string, entity: string)

  datatype Receipt = Receipt(proposal: string, target: string, id: string, verified: bool, token: Option<string>)

  datatype Event = Event(workspace: string, number: nat, proposal: string)

  // A mutation the store accepted, and the commit it was made for.
  datatype Write = Write(key: string, proposal: string, op: Op, target: string)

  datatype State = State(
    docs: Docs,
    proposals: map<string, Proposal>,
    ledger: map<string, Receipt>,
    executed: set<string>,
    undos: map<string, Undo>,
    sequence: map<string, nat>,
    events: seq<Event>,
    writes: seq<Write>)

  function Fresh(docs: Docs): State {
    State(docs, map[], map[], {}, map[], map[], [], [])
  }

  // --- surroundings ---------------------------------------------------------------------------------

  // What one request meets: the ids minted for it, whether the store takes its mutation, which of its
  // reads come through, what a search by a field answers (None is an error), and whether the target
  // is provisioned.
  datatype Luck = Luck(
    uuid: string,
    picked: string,
    accepts: bool,
    sees: nat -> bool,
    lists: string -> Option<seq<Fields>>,
    provisioned: bool)

  function Text(a: Adapter, v: Json): string {
    match v
    case Str(s) => s
    case _ => a.text(v)
  }

  function FieldOr(fields: Fields, name: string, default: Json): Json {
    if name in fields then fields[name] else default
  }

  function Read(docs: Docs, k: Key, seen: bool): Option<Fields> {
    if seen then At(docs, k) else None
  }

  function OrEmpty(r: Option<Fields>): Fields {
    if r.Some? then r.value else map[]
  }

  // --- resolving a record ---------------------------------------------------------------------------

  const ID_FIELDS := ["code", "name", "slug", "title", "sku", "email"]

  function Hits(a: Adapter, rows: seq<Fields>, field: string, value: string): seq<Fields> {
    if rows == [] then []
    else (if Text(a, FieldOr(rows[0], field, Str(""))) == value then [rows[0]] else []) +
         Hits(a, rows[1..], field, value)
  }

  function RowId(a: Adapter, row: Fields): string {
    var id := FieldOr(row, "id", Null);
    Text(a, if Truthy(id) then id else FieldOr(row, "name", Null))
  }

  function ByIdentifier(a: Adapter, luck: Luck, value: string, fields: seq<string>): Option<string> {
    if fields == [] then None
    else
      match luck.lists(fields[0])
      case None => ByIdentifier(a, luck, value, fields[1..])
      case Some(rows) =>
        var hits := Hits(a, rows, fields[0], value);
        if |hits| == 1 then Some(RowId(a, hits[0])) else ByIdentifier(a, luck, value, fields[1..])
  }

  function ResolveId(a: Adapter, docs: Docs, luck: Luck, target: string, value: string): Option<string> {
    if value == "" then None
    else if Read(docs, Key(target, value), luck.sees(0)).Some? then Some(value)
    else ByIdentifier(a, luck, value, ID_FIELDS)
  }

  // --- propose --------------------------------------------------------------------------------------

  datatype Refusal =
    | UnknownVerb | InvalidArgs(field: string) | UpstreamUnavailable | Expired | CompensationExpired | Irreversible

  datatype Reply =
    | Preview(id: string, proposal: Proposal)
    | Refused(why: Refusal)
    | Executed(receipt: Receipt)
    | Replayed(receipt: Receipt)
    | Failed(attempted: string)
    | StatusIs(standing: Standing)
    | Rows(rows: seq<Fields>)
    | NotFound
    | Crashed

  datatype Standing = Done | Pending | Gone

  // A resource.* operation's arguments.
  function TargetIn(args: Fields): string {
    if "target" in args && args["target"].Str? then args["target"].s else ""
  }

  function DataIn(args: Fields): Fields {
    if "data" in args && args["data"].Obj? then args["data"].fields else map[]
  }

  function IdIn(a: Adapter, args: Fields): string {
    if "id" in args then Text(a, args["id"]) else ""
  }

  // The first complaint about a resource.* request, if any.
  function ResourceComplaint(a: Adapter, op: Op, args: Fields, luck: Luck): Option<Refusal> {
    if !Truthy(FieldOr(args, "target", Null)) then Some(InvalidArgs("target"))
    else if !FieldOr(args, "target", Null).Str? || !Declared(a, TargetIn(args)) then Some(UnknownVerb)
    else if op != Create && !Truthy(FieldOr(args, "id", Null)) then Some(InvalidArgs("id"))
    else if op != Delete && !FieldOr(args, "data", Null).Obj? then Some(InvalidArgs("data"))
    else if !luck.provisioned then Some(UpstreamUnavailable)
    else None
  }

  // The first required argument that is absent or empty.
  function FirstMissing(required: seq<string>, args: Fields): (r: Option<string>)
    ensures r.None? <==> forall f :: f in required ==> f in args && Truthy(args[f])
  {
    if required == [] then None
    else if !Truthy(FieldOr(args, required[0], Null)) then Some(required[0])
    else FirstMissing(required[1..], args)
  }

  function NamedComplaint(a: Adapter, name: string, args: Fields, luck: Luck): Option<Refusal> {
    if name !in a.verbs then Some(UnknownVerb)
    else
      var missing := FirstMissing(a.verbs[name].required, args);
      if missing.Some? then Some(InvalidArgs(missing.value))
      else if !luck.provisioned then Some(UpstreamUnavailable)
      else None
  }

  function Previewed(st: State, id: string, p: Proposal): (State, Reply) {
    (st.(proposals := st.proposals[id := p]), Preview(id, p))
  }

  function Propose(a: Adapter, st: State, verb: Verb, args: Fields, luck: Luck): (State, Reply) {
    match verb
    case Resource(None) => (st, Refused(UnknownVerb))
    case Resource(Some(op)) =>
      var complaint := ResourceComplaint(a, op, args, luck);
      if complaint.Some? then (st, Refused(complaint.value)) else Previewed(st, luck.uuid, Generic(op, args))
    case Named(name) =>
      var complaint := NamedComplaint(a, name, args, luck);
      if complaint.Some? then (st, Refused(complaint.value)) else Previewed(st, luck.uuid, Specific(name, args))
  }

  // --- commit ---------------------------------------------------------------------------------------

  // What executing a proposal comes to: an argument its translation does not find, nothing, or a
  // mutation with its verification and its undo.
  datatype Effect =
    | KeyError
    | NoEffect
    | Effect(op: Op, target: string, docs: Docs, id: string, verified: bool, undo: Option<Undo>)

  // Every written field reads back as landed.
  predicate Landed(a: Adapter, after: Option<Fields>, written: Fields) {
    forall f :: f in written ==> a.landed(FieldOr(OrEmpty(after), f, Null), written[f])
  }

  // The arguments of the synthesized reversals.
  function DeleteArgs(target: string, id: string): Fields {
    map["target" := Str(target), "id" := Str(id)]
  }

  function UpdateArgs(target: string, id: string, data: Fields): Fields {
    map["target" := Str(target), "id" := Str(id), "data" := Obj(data)]
  }

  function CreateArgs(target: string, data: Fields): Fields {
    map["target" := Str(target), "data" := Obj(data)]
  }

  function GenericEffect(a: Adapter, docs: Docs, op: Op, args: Fields, luck: Luck): Effect {
    var target, data := TargetIn(args), DataIn(args);
    match op
    case Create =>
      var r := Store.Create(docs, target, data, luck.picked);
      if !luck.accepts || r.Rejected? then NoEffect
      else Effect(Create, target, r.docs, r.id, Landed(a, Read(r.docs, Key(target, r.id), luck.sees(2)), data),
                  Some(GenericUndo(Delete, DeleteArgs(target, r.id))))
    case _ =>
      var rid := ResolveId(a, docs, luck, target, IdIn(a, args));
      if rid.None? then NoEffect else GenericChange(a, docs, op, target, rid.value, data, luck)
  }

  // The before-image: the record as read just before the mutation, empty if that read failed.
  function Before(docs: Docs, target: string, rid: string, luck: Luck): Fields {
    OrEmpty(Read(docs, Key(target, rid), luck.sees(1)))
  }

  // An update or delete of the record the request resolved to, with its before-image as the undo.
  function GenericChange(a: Adapter, docs: Docs, op: Op, target: string, rid: string, data: Fields,
                         luck: Luck): Effect {
    var before := Before(docs, target, rid, luck);
    if op == Update then
      var r := Store.Update(docs, target, rid, data);
      if !luck.accepts || r.Rejected? then NoEffect
      else Effect(Update, target, r.docs, rid, Landed(a, Read(r.docs, Key(target, rid), luck.sees(2)), data),
                  Some(GenericUndo(Update, UpdateArgs(target, rid, before))))
    else
      var r := Store.Delete(docs, target, rid);
      if !luck.accepts || r.Rejected? then NoEffect
      else Effect(Delete, target, r.docs, rid, Read(r.docs, Key(target, rid), luck.sees(2)).None?,
                  Some(GenericUndo(Create, CreateArgs(target, before))))
  }

  // The record a translated update or delete goes to: resolved, or the argument as it stands.
  function ResolvedOrRaw(a: Adapter, docs: Docs, v: WriteVerb, args: Fields, luck: Luck): string {
    var raw := if v.required == [] then "" else Text(a, FieldOr(args, v.required[0], Str("")));
    var found := ResolveId(a, docs, luck, v.doctype, raw);
    if found.Some? && found.value != "" then found.value else raw
  }

  function SpecificWrite(a: Adapter, docs: Docs, v: WriteVerb, args: Fields, native: Fields, luck: Luck): WriteReply {
    match v.op
    case Create => Store.Create(docs, v.doctype, native, luck.picked)
    case Update => Store.Update(docs, v.doctype, ResolvedOrRaw(a, docs, v, args, luck), native)
    case Delete => Store.Delete(docs, v.doctype, ResolvedOrRaw(a, docs, v, args, luck))
  }

  function SpecificEffect(a: Adapter, docs: Docs, name: string, args: Fields, luck: Luck): Effect {
    if name !in a.verbs || a.verbs[name].native(args).None? then KeyError
    else
      var v := a.verbs[name];
      var native := a.overlay(name, v.native(args).value);
      var r := SpecificWrite(a, docs, v, args, native, luck);
      if !luck.accepts || r.Rejected? then NoEffect
      else
        var after := Read(r.docs, Key(v.doctype, r.id), luck.sees(2));
        Effect(v.op, v.doctype, r.docs, r.id, if v.op == Delete then after.None? else Landed(a, after, native),
               if name in a.reversals then Some(SpecificUndo(name, r.id)) else None)
  }

  function NextNumber(st: State, workspace: string): nat {
    (if workspace in st.sequence then st.sequence[workspace] else 0) + 1
  }

  // Everything that a mutation leaves behind.
  function Settle(st: State, workspace: string, key: string, pid: string, e: Effect, uuid: string): (State, Reply)
    requires e.Effect?
  {
    var receipt := Receipt(pid, e.target, e.id, e.verified, if e.undo.Some? then Some(uuid) else None);
    var number := NextNumber(st, workspace);
    (State(e.docs,
           st.proposals,
           st.ledger[key := receipt],
           st.executed + {pid},
           if e.undo.Some? then st.undos[uuid := e.undo.value] else st.undos,
           st.sequence[workspace := number],
           st.events + [Event(workspace, number, pid)],
           st.writes + [Write(key, pid, e.op, e.target)]),
     Executed(receipt))
  }

  function EffectOf(a: Adapter, docs: Docs, p: Proposal, luck: Luck): Effect {
    match p
    case Generic(op, args) => GenericEffect(a, docs, op, args, luck)
    case Specific(name, args) => SpecificEffect(a, docs, name, args, luck)
  }

  function Conclude(st: State, workspace: string, key: string, pid: string, e: Effect, uuid: string): (State, Reply) {
    match e
    case KeyError => (st, Crashed)
    case NoEffect => (st, Failed(pid))
    case Effect(_, _, _, _, _, _) => Settle(st, workspace, key, pid, e, uuid)
  }

  function Commit(a: Adapter, st: State, workspace: string, key: string, pid: string, luck: Luck): (State, Reply) {
    if key in st.ledger then (st, Replayed(st.ledger[key]))
    else if pid !in st.proposals then (st, Refused(Expired))
    else Conclude(st, workspace, key, pid, EffectOf(a, st.docs, st.proposals[pid], luck), luck.uuid)
  }

  // --- the other requests ---------------------------------------------------------------------------

  function Rollback(a: Adapter, st: State, token: string, luck: Luck): (State, Reply) {
    if token !in st.undos then (st, Refused(CompensationExpired))
    else
      match st.undos[token]
      case GenericUndo(op, args) => Previewed(st, luck.uuid, Generic(op, args))
      case SpecificUndo(name, entity) =>
        if name !in a.reversals then (st, Refused(Irreversible))
        else Previewed(st, luck.uuid, Specific(a.reversals[name].verb, a.reversals[name].args(entity)))
  }

  function StandingOf(st: State, pid: string): Standing {
    if pid in st.executed then Done else if pid in st.proposals then Pending else Gone
  }

  // resource.read: the only check is the skeleton bound; the rows are the store's.
  function Query(a: Adapter, target: string, luck: Luck): Reply {
    if !Declared(a, target) || !luck.provisioned then NotFound
    else if luck.lists(target).Some? then Rows(luck.lists(target).value) else Crashed
  }

  datatype Request =
    | ProposeRequest(verb: Verb, args: Fields)
    | CommitRequest(workspace: string, key: string, proposal: string)
    | RollbackRequest(token: string)
    | StatusRequest(proposal: string)
    | QueryRequest(target: string)

  function Serve(a: Adapter, st: State, request: Request, luck: Luck): (State, Reply) {
    match request
    case ProposeRequest(verb, args) => Propose(a, st, verb, args, luck)
    case CommitRequest(workspace, key, pid) => Commit(a, st, workspace, key, pid, luck)
    case RollbackRequest(token) => Rollback(a, st, token, luck)
    case StatusRequest(pid) => (st, StatusIs(StandingOf(st, pid)))
    case QueryRequest(target) => (st, Query(a, target, luck))
  }
}
