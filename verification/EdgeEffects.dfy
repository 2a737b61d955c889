/** What a commit does to the records, which record it does it to, and what its receipt says. */
module EdgeEffects {
  import opened Values
  import opened Edge
  import Store

  // --- by which record a human identifier goes ---------------------------------------------------------

  // The row carries the identifier in the field.
  predicate Carries(a: Adapter, row: Store.Fields, field: string, value: string) {
    field in row && Text(a, row[field]) == value
  }

  // Exactly one row of the list carries it, this one.
  predicate OnlyOne(a: Adapter, rows: seq<Store.Fields>, field: string, value: string, i: nat) {
    && i < |rows| && Carries(a, rows[i], field, value)
    && forall j :: 0 <= j < |rows| && Carries(a, rows[j], field, value) ==> j == i
  }

  predicate SomeOne(a: Adapter, luck: Luck, field: string, value: string) {
    luck.lists(field).Some? &&
    exists i :: 0 <= i < |luck.lists(field).value| && OnlyOne(a, luck.lists(field).value, field, value, i)
  }

  // The k-th identifier field is the first in which exactly one listed row carries the value, its i-th.
  predicate Singles(a: Adapter, luck: Luck, fields: seq<string>, value: string, k: nat, i: nat) {
    && k < |fields| && luck.lists(fields[k]).Some? && OnlyOne(a, luck.lists(fields[k]).value, fields[k], value, i)
    && forall j :: 0 <= j < k ==> !SomeOne(a, luck, fields[j], value)
  }

  // The id a row goes by: its id if it has one that is not empty, or else its name.
  predicate GoesBy(a: Adapter, row: Store.Fields, id: string) {
    if "id" in row && Truthy(row["id"]) then id == Text(a, row["id"])
    else if "name" in row then id == Text(a, row["name"]) else id == Text(a, Null)
  }

  lemma {:induction false} HitsAreThoseThatCarry(a: Adapter, rows: seq<Store.Fields>, field: string, value: string)
    requires value != ""
    ensures |Hits(a, rows, field, value)| == 1 <==> exists i :: 0 <= i < |rows| && OnlyOne(a, rows, field, value, i)
    ensures forall i :: 0 <= i < |rows| && OnlyOne(a, rows, field, value, i) ==>
              Hits(a, rows, field, value) == [rows[i]]
    ensures Hits(a, rows, field, value) == [] <==> forall i :: 0 <= i < |rows| ==> !Carries(a, rows[i], field, value)
  {
    if rows != [] {
      var rest := rows[1..];
      HitsAreThoseThatCarry(a, rest, field, value);
      assert forall i :: 0 < i < |rows| ==> rows[i] == rest[i - 1];
      assert forall i :: 0 <= i < |rest| ==> rest[i] == rows[i + 1];
      if Carries(a, rows[0], field, value) {
        FirstCarries(a, rows, field, value);
      } else {
        FirstDoesNot(a, rows, field, value);
      }
    }
  }

  lemma FirstCarries(a: Adapter, rows: seq<Store.Fields>, field: string, value: string)
    requires rows != [] && Carries(a, rows[0], field, value)
    ensures OnlyOne(a, rows, field, value, 0) <==>
            forall i :: 0 <= i < |rows[1..]| ==> !Carries(a, rows[1..][i], field, value)
    ensures forall i :: 0 < i ==> !OnlyOne(a, rows, field, value, i)
  {
    assert forall i :: 0 <= i < |rows[1..]| ==> rows[1..][i] == rows[i + 1];
    assert forall j :: 0 < j < |rows| ==> rows[j] == rows[1..][j - 1];
  }

  lemma FirstDoesNot(a: Adapter, rows: seq<Store.Fields>, field: string, value: string)
    requires rows != [] && !Carries(a, rows[0], field, value)
    ensures forall i :: 0 <= i < |rows[1..]| ==>
              (OnlyOne(a, rows, field, value, i + 1) <==> OnlyOne(a, rows[1..], field, value, i))
    ensures !OnlyOne(a, rows, field, value, 0)
  {
    assert forall i :: 0 <= i < |rows[1..]| ==> rows[1..][i] == rows[i + 1];
    forall i | 0 <= i < |rows[1..]| && OnlyOne(a, rows[1..], field, value, i)
      ensures OnlyOne(a, rows, field, value, i + 1)
    {
      forall j | 0 <= j < |rows| && Carries(a, rows[j], field, value) ensures j == i + 1 {
        assert j > 0 ==> rows[j] == rows[1..][j - 1];
      }
    }
  }

  /** A value goes by the first field in which exactly one listed row carries it. */
  lemma {:induction false} FirstSingleIsPicked(a: Adapter, luck: Luck, value: string, fields: seq<string>,
                                               k: nat, i: nat) returns (id: string)
    requires value != "" && Singles(a, luck, fields, value, k, i)
    ensures ByIdentifier(a, luck, value, fields) == Some(id) && GoesBy(a, luck.lists(fields[k]).value[i], id)
    decreases |fields|
  {
    if k == 0 {
      var rows := luck.lists(fields[0]).value;
      HitsAreThoseThatCarry(a, rows, fields[0], value);
      id := RowId(a, rows[i]);
    } else {
      assert !SomeOne(a, luck, fields[0], value);
      NotByThisField(a, luck, value, fields);
      assert forall j :: 0 <= j < |fields| - 1 ==> fields[1..][j] == fields[j + 1];
      id := FirstSingleIsPicked(a, luck, value, fields[1..], k - 1, i);
    }
  }

  lemma {:induction false} NoSingleIsPicked(a: Adapter, luck: Luck, value: string, fields: seq<string>)
    requires value != "" && forall k :: 0 <= k < |fields| ==> !SomeOne(a, luck, fields[k], value)
    ensures ByIdentifier(a, luck, value, fields) == None
    decreases |fields|
  {
    if fields != [] {
      NotByThisField(a, luck, value, fields);
      NoSingleIsPicked(a, luck, value, fields[1..]);
    }
  }

  lemma NotByThisField(a: Adapter, luck: Luck, value: string, fields: seq<string>)
    requires value != "" && fields != [] && !SomeOne(a, luck, fields[0], value)
    ensures ByIdentifier(a, luck, value, fields) == ByIdentifier(a, luck, value, fields[1..])
  {
    if luck.lists(fields[0]).Some? {
      HitsAreThoseThatCarry(a, luck.lists(fields[0]).value, fields[0], value);
    }
  }

  // --- commits by a human identifier ---------------------------------------------------------------------

  // A commit that is not a replay, of an update or a delete previewed for a value that is no visible record's id.
  ghost predicate ByName(a: Adapter, st: State, key: string, pid: string, value: string, luck: Luck) {
    && key !in st.ledger && pid in st.proposals && st.proposals[pid].Generic? && st.proposals[pid].op != Create
    && value == IdIn(a, st.proposals[pid].args) && value != ""
    && !(luck.sees(0) && Store.Key(TargetIn(st.proposals[pid].args), value) in st.docs)
  }

  // Nothing of the collection's records but the one under this id, and the one it was moved to, has changed.
  ghost predicate ChangesAtMost(docs: Store.Docs, docs': Store.Docs, target: string, id: string, moved: string) {
    forall k: Store.Key :: k != Store.Key(target, id) && k != Store.Key(target, moved) ==>
      Store.At(docs, k) == Store.At(docs', k)
  }

  /** Where in no identifier field exactly one listed row carries the value, the commit fails and changes nothing. */
  lemma NoSingleFails(a: Adapter, st: State, workspace: string, key: string, pid: string, value: string, luck: Luck)
    requires ByName(a, st, key, pid, value, luck)
    requires forall k :: 0 <= k < |ID_FIELDS| ==> !SomeOne(a, luck, ID_FIELDS[k], value)
    ensures Commit(a, st, workspace, key, pid, luck) == (st, Failed(pid))
  {
    NoSingleIsPicked(a, luck, value, ID_FIELDS);
  }

  /** Otherwise it is the single row of the first such field whose record is written, under the id the row goes
      by: the commit fails unless there is such a record and the store takes the change, and touches no other. */
  lemma SingleIsWritten(a: Adapter, st: State, workspace: string, key: string, pid: string, value: string, luck: Luck,
                        k: nat, i: nat) returns (id: string)
    requires ByName(a, st, key, pid, value, luck) && Singles(a, luck, ID_FIELDS, value, k, i)
    ensures GoesBy(a, luck.lists(ID_FIELDS[k]).value[i], id)
    ensures var (st', reply) := Commit(a, st, workspace, key, pid, luck);
            var target := TargetIn(st.proposals[pid].args);
            && (reply.Executed? ==>
                  && luck.accepts && Store.Key(target, id) in st.docs
                  && reply.receipt.target == target && reply.receipt.id == id
                  && ChangesAtMost(st.docs, st'.docs, target, id, MovedTo(st.proposals[pid], id)))
            && (!reply.Executed? ==> reply == Failed(pid) && st' == st)
  {
    id := FirstSingleIsPicked(a, luck, value, ID_FIELDS, k, i);
    var p := st.proposals[pid];
    ChangeIsOfOne(a, st.docs, p.op, TargetIn(p.args), id, DataIn(p.args), luck);
  }

  // The id a proposal moves the record to, if it changes it.
  function MovedTo(p: Proposal, id: string): string
    requires p.Generic?
  {
    var data := DataIn(p.args);
    if p.op == Update && "id" in data && data["id"].Str? then data["id"].s else id
  }

  lemma ChangeIsOfOne(a: Adapter, docs: Store.Docs, op: Op, target: string, id: string, data: Store.Fields, luck: Luck)
    requires op != Create
    ensures var e := GenericChange(a, docs, op, target, id, data, luck);
            !e.KeyError? && (e.Effect? ==>
              && luck.accepts && Store.Key(target, id) in docs && e.target == target && e.id == id
              && ChangesAtMost(docs, e.docs, target, id,
                               if op == Update && "id" in data && data["id"].Str? then data["id"].s else id))
  {
  }

  // --- what is written -----------------------------------------------------------------------------------

  // The record has every written field as written and every other field as it was.
  predicate Overwritten(before: Store.Fields, written: Store.Fields, after: Store.Fields) {
    && (forall f :: f in written ==> f in after && after[f] == written[f])
    && (forall f :: f in before && f !in written ==> f in after && after[f] == before[f])
    && (forall f :: f in after ==> f in written || f in before)
  }

  // A record that was not there is, with what was written and its id, and nothing else has changed.
  ghost predicate Creates(docs: Store.Docs, docs': Store.Docs, target: string, id: string, written: Store.Fields) {
    var k := Store.Key(target, id);
    && k !in docs && k in docs' && ("id" in written ==> written["id"] == Str(id))
    && Overwritten(map["id" := Str(id)], written, docs'[k])
    && forall x: Store.Key :: x != k ==> Store.At(docs, x) == Store.At(docs', x)
  }

  // The record's fields were overwritten, under the id it has or the one it was given.
  ghost predicate Updates(docs: Store.Docs, docs': Store.Docs, target: string, id: string, written: Store.Fields) {
    var k := Store.Key(target, id);
    var k' := Store.Key(target, if "id" in written && written["id"].Str? then written["id"].s else id);
    && k in docs && k' in docs' && (k' != k ==> k' !in docs && k !in docs')
    && Overwritten(docs[k], written, docs'[k'])
    && forall x: Store.Key :: x != k && x != k' ==> Store.At(docs, x) == Store.At(docs', x)
  }

  ghost predicate Deletes(docs: Store.Docs, docs': Store.Docs, target: string, id: string) {
    var k := Store.Key(target, id);
    k in docs && k !in docs' && forall x: Store.Key :: x != k ==> Store.At(docs, x) == Store.At(docs', x)
  }

  ghost predicate Does(op: Op, docs: Store.Docs, docs': Store.Docs, target: string, id: string, written: Store.Fields) {
    match op
    case Create => Creates(docs, docs', target, id, written)
    case Update => Updates(docs, docs', target, id, written)
    case Delete => Deletes(docs, docs', target, id)
  }

  lemma CreateDoes(docs: Store.Docs, target: string, fields: Store.Fields, picked: string)
    ensures var r := Store.Create(docs, target, fields, picked);
            r.Written? ==> Creates(docs, r.docs, target, r.id, fields) && ("id" !in fields ==> r.id == picked)
  {
  }

  lemma UpdateDoes(docs: Store.Docs, target: string, id: string, fields: Store.Fields)
    ensures var r := Store.Update(docs, target, id, fields);
            r.Written? ==> Updates(docs, r.docs, target, id, fields) &&
                           r.id == if "id" in fields && fields["id"].Str? then fields["id"].s else id
  {
  }

  lemma DeleteDoes(docs: Store.Docs, target: string, id: string)
    ensures var r := Store.Delete(docs, target, id); r.Written? ==> Deletes(docs, r.docs, target, id) && r.id == id
  {
  }

  // The record was read back, with every field written landed; or, for a delete, was not found.
  predicate ReadsBack(a: Adapter, luck: Luck, docs: Store.Docs, op: Op, k: Store.Key, written: Store.Fields) {
    var found := luck.sees(2) && k in docs;
    if op == Delete then !found
    else forall f :: f in written ==> a.landed(if found && f in docs[k] then docs[k][f] else Null, written[f])
  }

  // What a generic effect has done.
  ghost predicate DoneWell(a: Adapter, docs: Store.Docs, op: Op, target: string, data: Store.Fields, luck: Luck,
                           e: Effect)
  {
    !e.KeyError? && (e.Effect? ==>
      && e.op == op && e.target == target && e.undo.Some? && Does(op, docs, e.docs, target, e.id, data)
      && (e.verified <==> ReadsBack(a, luck, e.docs, op, Store.Key(target, e.id), data)))
  }

  lemma ChangeDoes(a: Adapter, docs: Store.Docs, op: Op, target: string, id: string, data: Store.Fields, luck: Luck)
    requires op != Create
    ensures DoneWell(a, docs, op, target, data, luck, GenericChange(a, docs, op, target, id, data, luck))
  {
    if op == Update { UpdateDoes(docs, target, id, data); } else { DeleteDoes(docs, target, id); }
  }

  lemma GenericDoes(a: Adapter, docs: Store.Docs, op: Op, args: Store.Fields, luck: Luck)
    ensures DoneWell(a, docs, op, TargetIn(args), DataIn(args), luck, GenericEffect(a, docs, op, args, luck))
  {
    var target, data := TargetIn(args), DataIn(args);
    if op == Create {
      CreateDoes(docs, target, data, luck.picked);
    } else {
      var rid := ResolveId(a, docs, luck, target, IdIn(a, args));
      if rid.Some? {
        ChangeDoes(a, docs, op, target, rid.value, data, luck);
      }
    }
  }

  // One event more, of this workspace and proposal, numbered one above its last.
  predicate Announced(st: State, st': State, workspace: string, pid: string) {
    && |st'.events| == |st.events| + 1 && st.events <= st'.events
    && var e := st'.events[|st.events|];
       && e.workspace == workspace && e.proposal == pid
       && e.number == (if workspace in st.sequence then st.sequence[workspace] else 0) + 1
  }

  /** A commit that is executed has created, updated or deleted one record as its proposal says, in its collection
      and with its data, and nothing else; the receipt names the proposal, the collection and the record, and says
      that it is verified exactly when the read-back shows every written field landed, or no record after a
      delete. */
  lemma ExecutedCommitsDoAsProposed(a: Adapter, st: State, workspace: string, key: string, pid: string, luck: Luck)
    requires Commit(a, st, workspace, key, pid, luck).1.Executed?
    requires pid in st.proposals && st.proposals[pid].Generic?
    ensures var (st', reply) := Commit(a, st, workspace, key, pid, luck);
            var Generic(op, args) := st.proposals[pid];
            var target := TargetIn(args);
            && Does(op, st.docs, st'.docs, target, reply.receipt.id, DataIn(args))
            && reply.receipt.proposal == pid && reply.receipt.target == target
            && (reply.receipt.verified <==>
                  ReadsBack(a, luck, st'.docs, op, Store.Key(target, reply.receipt.id), DataIn(args)))
            && reply.receipt.token == Some(luck.uuid) && luck.uuid in st'.undos
            && Announced(st, st', workspace, pid)
  {
    GenericDoes(a, st.docs, st.proposals[pid].op, st.proposals[pid].args, luck);
  }

  /** The id of a visible record stands for that record. */
  lemma VisibleIdIsWritten(a: Adapter, st: State, workspace: string, key: string, pid: string, luck: Luck)
    requires Commit(a, st, workspace, key, pid, luck).1.Executed?
    requires pid in st.proposals && st.proposals[pid].Generic? && st.proposals[pid].op != Create
    requires luck.sees(0) && Store.Key(TargetIn(st.proposals[pid].args), IdIn(a, st.proposals[pid].args)) in st.docs
    ensures Commit(a, st, workspace, key, pid, luck).1.receipt.id == IdIn(a, st.proposals[pid].args)
  {
  }

  // --- the adapter's own verbs -----------------------------------------------------------------------------

  // The id the row goes by, or the value itself when that is empty.
  predicate NamedBy(a: Adapter, row: Store.Fields, value: string, id: string) {
    (id != "" && GoesBy(a, row, id)) || (id == value && GoesBy(a, row, ""))
  }

  // The record that a translated update or delete goes to: that of a visible id, the one a single row names, or, when
  // nothing is found, the argument as it stands.
  ghost predicate GoesTo(a: Adapter, docs: Store.Docs, target: string, value: string, luck: Luck, id: string) {
    if value == "" then id == ""
    else if luck.sees(0) && Store.Key(target, value) in docs then id == value
    else
      || (exists k: nat, i: nat :: Singles(a, luck, ID_FIELDS, value, k, i) &&
            NamedBy(a, luck.lists(ID_FIELDS[k]).value[i], value, id))
      || (id == value && forall k :: 0 <= k < |ID_FIELDS| ==> !SomeOne(a, luck, ID_FIELDS[k], value))
  }

  // The first required argument, as text.
  function FirstArgument(a: Adapter, v: WriteVerb, args: Store.Fields): string {
    if v.required == [] || v.required[0] !in args then "" else Text(a, args[v.required[0]])
  }

  lemma {:induction false} SingleOrNone(a: Adapter, luck: Luck, fields: seq<string>, value: string)
    returns (k: nat, i: nat)
    ensures if k < |fields| then Singles(a, luck, fields, value, k, i)
            else forall j :: 0 <= j < |fields| ==> !SomeOne(a, luck, fields[j], value)
  {
    k, i := 0, 0;
    while k < |fields| && !SomeOne(a, luck, fields[k], value)
      invariant k <= |fields| && forall j :: 0 <= j < k ==> !SomeOne(a, luck, fields[j], value)
    {
      k := k + 1;
    }
    if k < |fields| {
      i :| 0 <= i < |luck.lists(fields[k]).value| && OnlyOne(a, luck.lists(fields[k]).value, fields[k], value, i);
    }
  }

  lemma ResolvedOrRawGoesTo(a: Adapter, docs: Store.Docs, v: WriteVerb, args: Store.Fields, luck: Luck)
    ensures GoesTo(a, docs, v.doctype, FirstArgument(a, v, args), luck, ResolvedOrRaw(a, docs, v, args, luck))
  {
    var value := FirstArgument(a, v, args);
    if value != "" && !(luck.sees(0) && Store.Key(v.doctype, value) in docs) {
      var k, i := SingleOrNone(a, luck, ID_FIELDS, value);
      if k < |ID_FIELDS| {
        var id := FirstSingleIsPicked(a, luck, value, ID_FIELDS, k, i);
      } else {
        NoSingleIsPicked(a, luck, value, ID_FIELDS);
      }
    }
  }

  // What an effect of the adapter's own verb has done, to the record `id`.
  ghost predicate Translated(a: Adapter, docs: Store.Docs, name: string, args: Store.Fields, luck: Luck, e: Effect,
                             id: string)
  {
    && name in a.verbs && a.verbs[name].native(args).Some?
    && var v := a.verbs[name];
       var written := a.overlay(name, v.native(args).value);
       && e.Effect? && e.op == v.op && e.target == v.doctype && luck.accepts
       && Does(v.op, docs, e.docs, v.doctype, id, written)
       && (v.op != Create ==> GoesTo(a, docs, v.doctype, FirstArgument(a, v, args), luck, id))
       && e.id == (if v.op == Update && "id" in written && written["id"].Str? then written["id"].s else id)
       && (e.verified <==> ReadsBack(a, luck, e.docs, v.op, Store.Key(v.doctype, e.id), written))
       && (e.undo.Some? <==> name in a.reversals)
  }

  lemma SpecificDoes(a: Adapter, docs: Store.Docs, name: string, args: Store.Fields, luck: Luck) returns (id: string)
    ensures var e := SpecificEffect(a, docs, name, args, luck);
            e.Effect? ==> Translated(a, docs, name, args, luck, e, id)
  {
    id := "";
    var e := SpecificEffect(a, docs, name, args, luck);
    if e.Effect? {
      var v := a.verbs[name];
      var written := a.overlay(name, v.native(args).value);
      id := if v.op == Create then e.id else ResolvedOrRaw(a, docs, v, args, luck);
      match v.op
      case Create => CreateDoes(docs, v.doctype, written, luck.picked);
      case Update =>
        UpdateDoes(docs, v.doctype, id, written);
        ResolvedOrRawGoesTo(a, docs, v, args, luck);
      case Delete =>
        DeleteDoes(docs, v.doctype, id);
        ResolvedOrRawGoesTo(a, docs, v, args, luck);
    }
  }

  /** An executed commit of the adapter's own verb has written what the verb's translation, filled in from the
      manifest, makes of the arguments, to a new record or to the one the first required argument stands for. */
  lemma ExecutedVerbsDoAsTranslated(a: Adapter, st: State, workspace: string, key: string, pid: string, luck: Luck)
    returns (id: string)
    requires Commit(a, st, workspace, key, pid, luck).1.Executed?
    requires pid in st.proposals && st.proposals[pid].Specific?
    ensures var (st', reply) := Commit(a, st, workspace, key, pid, luck);
            var Specific(name, args) := st.proposals[pid];
            && Translated(a, st.docs, name, args, luck, EffectOf(a, st.docs, st.proposals[pid], luck), id)
            && var e := EffectOf(a, st.docs, st.proposals[pid], luck);
               && st'.docs == e.docs && Announced(st, st', workspace, pid)
               && reply.receipt == Receipt(pid, e.target, e.id, e.verified,
                                           if name in a.reversals then Some(luck.uuid) else None)
  {
    id := SpecificDoes(a, st.docs, st.proposals[pid].verb, st.proposals[pid].args, luck);
  }

  // --- previews ------------------------------------------------------------------------------------------

  // The request for a resource operation is in order.
  predicate InOrder(a: Adapter, op: Op, args: Store.Fields) {
    && "target" in args && args["target"].Str? && args["target"].s != ""
    && (exists name :: name in a.verbs && a.verbs[name].doctype == args["target"].s)
    && (op != Create ==> "id" in args && Truthy(args["id"]))
    && (op != Delete ==> "data" in args && args["data"].Obj?)
  }

  /** A request is previewed exactly when it is in order and its target is provisioned: a resource operation with
      a declared target, an id unless it creates and an object of data unless it deletes; a verb of the adapter's
      own with all its required arguments, none of them empty. A preview stores what was asked for, and no more; a
      refusal changes nothing. */
  lemma PreviewedExactly(a: Adapter, st: State, verb: Verb, args: Store.Fields, luck: Luck)
    ensures var (st', reply) := Propose(a, st, verb, args, luck);
            var asked := match verb
                         case Resource(Some(op)) => InOrder(a, op, args)
                         case Resource(None) => false
                         case Named(name) => name in a.verbs && Supplied(a.verbs[name], args);
            && (reply.Preview? <==> asked && luck.provisioned)
            && (reply.Preview? ==>
                  var p := if verb.Named? then Specific(verb.name, args) else Generic(verb.op.value, args);
                  reply == Preview(luck.uuid, p) && st' == st.(proposals := st.proposals[luck.uuid := p]))
            && (!reply.Preview? ==> reply.Refused? && st' == st)
  {
  }

  // --- what a refusal says -------------------------------------------------------------------------------

  lemma {:induction false} FirstMissingIsFirst(required: seq<string>, args: Store.Fields) returns (k: nat)
    requires FirstMissing(required, args).Some?
    ensures k < |required| && FirstMissing(required, args) == Some(required[k]) && Lacks(args, required[k])
    ensures forall j :: 0 <= j < k ==> !Lacks(args, required[j])
  {
    k := 0;
    if !Lacks(args, required[0]) {
      var more := FirstMissingIsFirst(required[1..], args);
      k := more + 1;
      assert forall j :: 0 < j < k ==> required[j] == required[1..][j - 1];
    }
  }

  predicate Lacks(args: Store.Fields, field: string) { field !in args || !Truthy(args[field]) }

  // What is wrong with a request that is refused for this reason.
  predicate Wrong(a: Adapter, verb: Verb, args: Store.Fields, luck: Luck, why: Refusal) {
    match why
    case InvalidArgs(field) =>
      && (Lacks(args, field) || (field == "data" && !args["data"].Obj?))
      && (verb.Named? ==> verb.name in a.verbs && field in a.verbs[verb.name].required)
    case UnknownVerb =>
      if verb.Named? then verb.name !in a.verbs
      else verb.op.None? || (!Lacks(args, "target") && !(args["target"].Str? && Declared(a, args["target"].s)))
    case UpstreamUnavailable => !luck.provisioned
    case _ => false
  }

  /** A refused request is told something that is wrong with it: an argument it lacks or that is no object, a verb
      or a target that is not known, or a target that is not provisioned. */
  lemma RefusalsAreTrue(a: Adapter, st: State, verb: Verb, args: Store.Fields, luck: Luck)
    requires Propose(a, st, verb, args, luck).1.Refused?
    ensures Wrong(a, verb, args, luck, Propose(a, st, verb, args, luck).1.why)
  {
    if verb.Named? && verb.name in a.verbs && FirstMissing(a.verbs[verb.name].required, args).Some? {
      var k := FirstMissingIsFirst(a.verbs[verb.name].required, args);
    }
  }

  /** A query is answered with the target's rows exactly when some verb writes to that target, it is provisioned
      and the search comes through; it changes nothing. */
  lemma QueriesReadDeclaredTargets(a: Adapter, st: State, target: string, luck: Luck)
    ensures var (st', reply) := Serve(a, st, QueryRequest(target), luck);
            var declared := exists name :: name in a.verbs && a.verbs[name].doctype == target;
            && st' == st
            && (reply.Rows? <==> declared && luck.provisioned && luck.lists(target).Some?)
            && (reply.Rows? ==> Some(reply.rows) == luck.lists(target))
            && (reply.NotFound? <==> !declared || !luck.provisioned)
  {
  }
}
