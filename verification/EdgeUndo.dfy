/** Undoing an effect: committing the reversal that ROLLBACK previews gives back the record as it was,
    and undoing the undo does the effect again. */
module EdgeUndo {
  import opened Values
  import opened Edge
  import opened EdgeRuns
  import Store

  // Two stores that differ in at most this record.
  ghost predicate SameBut(docs: Store.Docs, docs': Store.Docs, k: Store.Key) {
    forall x: Store.Key :: x != k ==> Store.At(docs, x) == Store.At(docs', x)
  }

  // The store takes the mutation and answers every read.
  ghost predicate Calm(luck: Luck) {
    luck.accepts && forall n :: luck.sees(n)
  }

  function KeyOf(e: Effect): Store.Key
    requires e.Effect?
  {
    Store.Key(e.target, e.id)
  }

  // The update leaves the record under its id.
  predicate KeepsId(op: Op, args: Store.Fields, id: string) {
    op == Update && "id" in DataIn(args) ==> DataIn(args)["id"] == Str(id)
  }

  // What committing the reversal of an effect comes to.
  function UndoEffect(a: Adapter, e: Effect, docs: Store.Docs, luck: Luck): Effect
    requires e.Effect? && e.undo.Some? && e.undo.value.GenericUndo?
  {
    GenericEffect(a, docs, e.undo.value.op, e.undo.value.args, luck)
  }

  // A generic effect went through.
  ghost predicate DoneTo(a: Adapter, docs: Store.Docs, op: Op, args: Store.Fields, luck: Luck, e: Effect) {
    Store.Keyed(docs) && e == GenericEffect(a, docs, op, args, luck) && e.Effect?
  }

  // The record, as it was before the effect, can be had back. What an update or a delete keeps of it is
  // lost when the read of the before-image does not come through (the second read of the request): the
  // reversal of an update then changes nothing, and that of a delete makes a bare record under an id that
  // the store picks.
  predicate Restorable(op: Op, args: Store.Fields, record: Option<Store.Fields>, id: string, luck: Luck, luck': Luck) {
    record.None? ||
    match op
    case Create => true
    case Update =>
      if luck.sees(1) then DataIn(args).Keys <= record.value.Keys else record.value + DataIn(args) == record.value
    case Delete => luck.sees(1) || (record.value == map["id" := Str(id)] && luck'.picked == id)
  }

  // The mutation gave the record back as it was in the one store, and left the rest of the other alone.
  ghost predicate Restores(u: Effect, docs: Store.Docs, docs': Store.Docs, k: Store.Key) {
    u.Effect? && Store.At(u.docs, k) == Store.At(docs, k) && SameBut(docs', u.docs, k)
  }

  // The record is as the effect left it, whatever else has happened to the store since.
  ghost predicate Untouched(e: Effect, docs: Store.Docs)
    requires e.Effect?
  {
    Store.Keyed(docs) && Store.At(docs, KeyOf(e)) == Store.At(e.docs, KeyOf(e))
  }

  lemma EffectsHaveUndos(a: Adapter, docs: Store.Docs, op: Op, args: Store.Fields, luck: Luck, e: Effect)
    requires DoneTo(a, docs, op, args, luck, e)
    ensures e.undo.Some? && e.undo.value.GenericUndo?
  {
  }

  lemma ExistingIdResolves(a: Adapter, docs: Store.Docs, target: string, id: string, luck: Luck)
    requires Store.Keyed(docs) && Store.Key(target, id) in docs && luck.sees(0)
    ensures ResolveId(a, docs, luck, target, id) == Some(id)
  {
  }

  lemma UndoOfCreate(a: Adapter, docs: Store.Docs, args: Store.Fields, luck: Luck, e: Effect, docs': Store.Docs,
                     luck': Luck)
    requires DoneTo(a, docs, Create, args, luck, e) && Untouched(e, docs') && Calm(luck')
    ensures var u := UndoEffect(a, e, docs', luck');
            && u.Effect? && KeyOf(u) == KeyOf(e)
            && Store.At(docs, KeyOf(e)) == None == Store.At(u.docs, KeyOf(e)) && SameBut(docs', u.docs, KeyOf(e))
  {
    ReversalArgs(a, e.target, e.id, map[]);
    assert KeyOf(e) in docs' by { assert Store.At(e.docs, KeyOf(e)).Some?; }
    ExistingIdResolves(a, docs', e.target, e.id, luck');
  }

  lemma UndoOfDelete(a: Adapter, docs: Store.Docs, args: Store.Fields, luck: Luck, e: Effect, docs': Store.Docs,
                     luck': Luck)
    requires DoneTo(a, docs, Delete, args, luck, e) && Untouched(e, docs') && Calm(luck') && luck.sees(1)
    ensures var u := UndoEffect(a, e, docs', luck');
            && u.Effect? && KeyOf(u) == KeyOf(e) && KeyOf(e) in docs
            && Store.At(u.docs, KeyOf(e)) == Store.At(docs, KeyOf(e)) && SameBut(docs', u.docs, KeyOf(e))
  {
    var k, before := KeyOf(e), docs[KeyOf(e)];
    ReversalArgs(a, e.target, e.id, before);
    assert k !in docs' by { assert Store.At(e.docs, k).None?; }
    assert Store.HasId(before, e.id);
    assert before["id" := Str(e.id)] == before;
  }

  // Without the before-image: a bare record, under an id of the store's choice.
  lemma BlindUndoOfDelete(a: Adapter, docs: Store.Docs, args: Store.Fields, luck: Luck, e: Effect, docs': Store.Docs,
                          luck': Luck)
    requires DoneTo(a, docs, Delete, args, luck, e) && Untouched(e, docs') && Calm(luck') && !luck.sees(1)
    ensures KeyOf(e) in docs && KeyOf(e) !in docs' && e.id != ""
    ensures var u, bare := UndoEffect(a, e, docs', luck'), Store.Key(e.target, luck'.picked);
            && (u.Effect? <==> luck'.picked != "" && bare !in docs')
            && (u.Effect? ==> KeyOf(u) == bare && u.docs == docs'[bare := map["id" := Str(luck'.picked)]])
  {
    ReversalArgs(a, e.target, e.id, map[]);
    assert KeyOf(e) !in docs' by { assert Store.At(e.docs, KeyOf(e)).None?; }
  }

  lemma Updated(a: Adapter, docs: Store.Docs, args: Store.Fields, luck: Luck, e: Effect)
    requires DoneTo(a, docs, Update, args, luck, e) && KeepsId(Update, args, e.id)
    ensures KeyOf(e) in docs && Store.At(e.docs, KeyOf(e)) == Some(docs[KeyOf(e)] + DataIn(args))
    ensures e.undo == Some(GenericUndo(Update, UpdateArgs(e.target, e.id, Before(docs, e.target, e.id, luck))))
  {
  }

  lemma UndoOfUpdate(a: Adapter, docs: Store.Docs, args: Store.Fields, luck: Luck, e: Effect, docs': Store.Docs,
                     luck': Luck)
    requires DoneTo(a, docs, Update, args, luck, e) && Untouched(e, docs') && Calm(luck')
    requires KeepsId(Update, args, e.id)
    ensures KeyOf(e) in docs
    ensures var (u, before) := (UndoEffect(a, e, docs', luck'), docs[KeyOf(e)]);
            && u.Effect? && KeyOf(u) == KeyOf(e) && SameBut(docs', u.docs, KeyOf(e))
            && Store.At(u.docs, KeyOf(e)) == Some(before + DataIn(args) + if luck.sees(1) then before else map[])
  {
    var kept := Before(docs, e.target, e.id, luck);
    Updated(a, docs, args, luck, e);
    ReversalArgs(a, e.target, e.id, kept);
    ExistingIdResolves(a, docs', e.target, e.id, luck');
    PutBack(a, docs', e.target, e.id, kept, luck');
    assert Store.HasId(docs[KeyOf(e)], e.id);
  }

  // Writing these fields to a record that is there, under its id.
  lemma PutBack(a: Adapter, docs: Store.Docs, target: string, id: string, kept: Store.Fields, luck: Luck)
    requires Store.Key(target, id) in docs && Calm(luck) && ("id" in kept ==> kept["id"] == Str(id))
    ensures var (u, k) := (GenericChange(a, docs, Update, target, id, kept, luck), Store.Key(target, id));
            && u.Effect? && KeyOf(u) == k && SameBut(docs, u.docs, k)
            && Store.At(u.docs, k) == Some(docs[k] + kept)
  {
  }

  lemma RestoringTwice(before: Store.Fields, data: Store.Fields)
    ensures before + data + before == before <==> data.Keys <= before.Keys
    ensures before + data + map[] == before + data
  {
    if before + data + before == before {
      assert (before + data + before).Keys == before.Keys + data.Keys;
    } else {
      assert data.Keys <= before.Keys ==> (before + data + before).Keys == before.Keys;
    }
  }

  /** Committing the reversal, with no other write to the record in between, gives the record back exactly
      as it was, and leaves the rest of the store alone: always after a create; after a delete, when its
      before-image was read (or there was nothing in it but the id that the store now happens to pick
      again); after an update that keeps the id, when it touched only fields that were there and its
      before-image was read, or when it had changed nothing. And otherwise not. */
  lemma UndoRestores(a: Adapter, docs: Store.Docs, op: Op, args: Store.Fields, luck: Luck, e: Effect, docs': Store.Docs,
                     luck': Luck)
    requires DoneTo(a, docs, op, args, luck, e) && Untouched(e, docs') && Calm(luck')
    requires KeepsId(op, args, e.id)
    ensures e.undo.Some? && e.undo.value.GenericUndo?
    ensures Restores(UndoEffect(a, e, docs', luck'), docs, docs', KeyOf(e)) <==>
            Restorable(op, args, Store.At(docs, KeyOf(e)), e.id, luck, luck')
  {
    EffectsHaveUndos(a, docs, op, args, luck, e);
    match op
    case Create => UndoOfCreate(a, docs, args, luck, e, docs', luck');
    case Delete =>
      if luck.sees(1) {
        UndoOfDelete(a, docs, args, luck, e, docs', luck');
      } else {
        BlindUndoOfDelete(a, docs, args, luck, e, docs', luck');
      }
    case Update =>
      UndoOfUpdate(a, docs, args, luck, e, docs', luck');
      RestoringTwice(docs[KeyOf(e)], DataIn(args));
  }

  // The reversal of an effect is itself an effect that keeps ids and can be undone.
  lemma ReversalsAreReversible(a: Adapter, docs: Store.Docs, op: Op, args: Store.Fields, luck: Luck, e: Effect,
                               docs': Store.Docs, luck': Luck, id: string, luck'': Luck)
    requires DoneTo(a, docs, op, args, luck, e) && Untouched(e, docs') && KeepsId(op, args, e.id) && luck'.sees(1)
    ensures e.undo.Some? && e.undo.value.GenericUndo?
    ensures KeepsId(e.undo.value.op, e.undo.value.args, e.id)
    ensures e.undo.value.op == Update ==>
              Restorable(e.undo.value.op, e.undo.value.args, Store.At(docs', KeyOf(e)), id, luck', luck'')
  {
    EffectsHaveUndos(a, docs, op, args, luck, e);
    if op == Update {
      var kept := Before(docs, e.target, e.id, luck);
      ReversalArgs(a, e.target, e.id, kept);
      assert Store.HasId(docs[KeyOf(e)], e.id);
      assert Store.At(e.docs, KeyOf(e)) == Some(docs[KeyOf(e)] + DataIn(args));
    }
  }

  /** Rolling back the reversal takes it back, whatever the effect was and even where the reversal did not
      restore: the record it wrote is as it found it. Unless the effect was a delete whose before-image was
      lost, that is the effect's own record, as the effect first left it. */
  lemma UndoingTheUndoRedoes(a: Adapter, docs: Store.Docs, op: Op, args: Store.Fields, luck: Luck, e: Effect,
                             docs': Store.Docs, luck': Luck, docs'': Store.Docs, luck'': Luck)
    requires DoneTo(a, docs, op, args, luck, e) && Untouched(e, docs') && Calm(luck')
    requires KeepsId(op, args, e.id)
    requires e.undo.Some? && e.undo.value.GenericUndo?
    requires UndoEffect(a, e, docs', luck').Effect?
    requires Untouched(UndoEffect(a, e, docs', luck'), docs'') && Calm(luck'')
    ensures var u := UndoEffect(a, e, docs', luck');
            u.undo.Some? && u.undo.value.GenericUndo? &&
            var again := UndoEffect(a, u, docs'', luck'');
            && Restores(again, docs', docs'', KeyOf(u))
            && (op != Delete || luck.sees(1) ==>
                  KeyOf(u) == KeyOf(e) && Store.At(again.docs, KeyOf(e)) == Store.At(e.docs, KeyOf(e)))
  {
    SameRecord(a, docs, op, args, luck, e, docs', luck');
    var u := UndoEffect(a, e, docs', luck');
    ReversalsAreReversible(a, docs, op, args, luck, e, docs', luck', u.id, luck'');
    UndoRestores(a, docs', e.undo.value.op, e.undo.value.args, luck', u, docs'', luck'');
  }

  lemma SameRecord(a: Adapter, docs: Store.Docs, op: Op, args: Store.Fields, luck: Luck, e: Effect, docs': Store.Docs,
                   luck': Luck)
    requires DoneTo(a, docs, op, args, luck, e) && Untouched(e, docs') && Calm(luck') && KeepsId(op, args, e.id)
    requires e.undo.Some? && e.undo.value.GenericUndo? && UndoEffect(a, e, docs', luck').Effect?
    ensures op != Delete || luck.sees(1) ==> KeyOf(UndoEffect(a, e, docs', luck')) == KeyOf(e)
    ensures op == Create ==> e.undo.value.op == Delete
    ensures op == Update ==> e.undo.value.op == Update
    ensures op == Delete ==> e.undo.value.op == Create
  {
    match op
    case Create => UndoOfCreate(a, docs, args, luck, e, docs', luck');
    case Delete => if luck.sees(1) { UndoOfDelete(a, docs, args, luck, e, docs', luck'); }
    case Update => UndoOfUpdate(a, docs, args, luck, e, docs', luck');
  }

  /** An update that changed the id leaves its reversal nothing to find: unless the old id happens to
      name exactly one record some other way, committing the reversal fails and the change stays. */
  lemma MovedRecordIsNotRestored(a: Adapter, docs: Store.Docs, args: Store.Fields, luck: Luck, e: Effect,
                                 docs': Store.Docs, luck': Luck)
    requires DoneTo(a, docs, Update, args, luck, e) && Untouched(e, docs')
    requires !KeepsId(Update, args, e.id)
    requires ByIdentifier(a, luck', e.id, ID_FIELDS).None?
    ensures e.undo.Some? && e.undo.value.GenericUndo?
    ensures KeyOf(e) in docs && KeyOf(e) !in docs'
    ensures UndoEffect(a, e, docs', luck').NoEffect?
  {
    EffectsHaveUndos(a, docs, Update, args, luck, e);
    ReversalArgs(a, e.target, e.id, Before(docs, e.target, e.id, luck));
    assert Store.At(e.docs, KeyOf(e)).None?;
  }

  /** Where the old id does name one record some other way, that record is overwritten with the before-image
      and moved under the old id, whichever record it is: only if it is the moved one itself is this an undoing,
      and it restores exactly when the update touched only present fields. */
  lemma MovedUndoGoesByIdentifier(a: Adapter, docs: Store.Docs, args: Store.Fields, luck: Luck, e: Effect,
                                  docs': Store.Docs, luck': Luck, other: string)
    requires DoneTo(a, docs, Update, args, luck, e) && Untouched(e, docs') && Calm(luck') && luck.sees(1)
    requires !KeepsId(Update, args, e.id)
    requires ByIdentifier(a, luck', e.id, ID_FIELDS) == Some(other) && Store.Key(e.target, other) in docs'
    ensures KeyOf(e) in docs && e.undo.Some? && e.undo.value.GenericUndo? && DataIn(args)["id"].Str?
    ensures var (u, k) := (UndoEffect(a, e, docs', luck'), Store.Key(e.target, other));
            && u.Effect? && k != KeyOf(e) && Store.At(u.docs, k) == None
            && Store.At(u.docs, KeyOf(e)) == Some(docs'[k] + docs[KeyOf(e)])
            && forall x :: x != k && x != KeyOf(e) ==> Store.At(u.docs, x) == Store.At(docs', x)
    ensures var k := Store.Key(e.target, other);
            other == DataIn(args)["id"].s && docs'[k] == docs[KeyOf(e)] + DataIn(args) ==>
              (Store.At(UndoEffect(a, e, docs', luck').docs, KeyOf(e)) == Store.At(docs, KeyOf(e)) <==>
                 DataIn(args).Keys <= docs[KeyOf(e)].Keys)
  {
    var before := docs[KeyOf(e)];
    Moved(a, docs, args, luck, e);
    ReversalArgs(a, e.target, e.id, before);
    assert KeyOf(e) !in docs' by { assert Store.At(e.docs, KeyOf(e)).None?; }
    MovedInto(a, docs', e.target, other, e.id, before, luck');
    RestoringTwice(before, DataIn(args));
  }

  lemma Moved(a: Adapter, docs: Store.Docs, args: Store.Fields, luck: Luck, e: Effect)
    requires DoneTo(a, docs, Update, args, luck, e) && !KeepsId(Update, args, e.id)
    ensures KeyOf(e) in docs && Store.At(e.docs, KeyOf(e)).None? && DataIn(args)["id"].Str? && e.id != ""
    ensures Store.HasId(docs[KeyOf(e)], e.id)
    ensures e.undo == Some(GenericUndo(Update, UpdateArgs(e.target, e.id, Before(docs, e.target, e.id, luck))))
  {
  }

  // Writing fields with the id of another place, which is free, to a record.
  lemma MovedInto(a: Adapter, docs: Store.Docs, target: string, from: string, to: string, fields: Store.Fields,
                  luck: Luck)
    requires Store.Key(target, from) in docs && Store.Key(target, to) !in docs && to != "" && Calm(luck)
    requires Store.HasId(fields, to)
    ensures var (u, k, moved) := (GenericChange(a, docs, Update, target, from, fields, luck), Store.Key(target, from),
                                 Store.Key(target, to));
            && u.Effect? && Store.At(u.docs, k) == None && Store.At(u.docs, moved) == Some(docs[k] + fields)
            && forall x :: x != k && x != moved ==> Store.At(u.docs, x) == Store.At(docs, x)
  {
  }

  // --- the same through the edge's requests -----------------------------------------------------------

  /** Through the edge: after an executed generic commit, ROLLBACK of its token previews the reversal
      and writes nothing; committing that preview later, under an unused key, restores the record exactly
      when it can be had back. */
  lemma RollbackThenCommit(a: Adapter, st: State, workspace: string, key: string, pid: string, luck: Luck,
                           st2: State, luck2: Luck, st4: State, workspace': string, key': string, luck4: Luck)
    requires Store.Keyed(st.docs) && key !in st.ledger
    requires pid in st.proposals && st.proposals[pid].Generic?
    requires Commit(a, st, workspace, key, pid, luck).1.Executed?
    requires Keeps(Commit(a, st, workspace, key, pid, luck).0.undos, st2.undos)
    requires Keeps(Rollback(a, st2, luck.uuid, luck2).0.proposals, st4.proposals)
    requires key' !in st4.ledger && Calm(luck4)
    requires Untouched(EffectOf(a, st.docs, st.proposals[pid], luck), st4.docs)
    requires KeepsId(st.proposals[pid].op, st.proposals[pid].args, EffectOf(a, st.docs, st.proposals[pid], luck).id)
    ensures Rollback(a, st2, luck.uuid, luck2).0.docs == st2.docs
    ensures Rollback(a, st2, luck.uuid, luck2).1.Preview?
    ensures var p := st.proposals[pid];
            var e := EffectOf(a, st.docs, p, luck);
            var (st5, reply) := Commit(a, st4, workspace', key', luck2.uuid, luck4);
            (reply.Executed? && Store.At(st5.docs, KeyOf(e)) == Store.At(st.docs, KeyOf(e)) &&
             SameBut(st4.docs, st5.docs, KeyOf(e))) <==>
            Restorable(p.op, p.args, Store.At(st.docs, KeyOf(e)), e.id, luck, luck4)
  {
    var p := st.proposals[pid];
    var e := EffectOf(a, st.docs, p, luck);
    UndoRestores(a, st.docs, p.op, p.args, luck, e, st4.docs, luck4);
    UndoIsPreviewed(a, st, workspace, key, pid, luck, st2, luck2, st4);
    PreviewIsCommitted(a, st4, workspace', key', luck2.uuid, luck4);
  }

  lemma UndoIsPreviewed(a: Adapter, st: State, workspace: string, key: string, pid: string, luck: Luck,
                        st2: State, luck2: Luck, st4: State)
    requires key !in st.ledger && pid in st.proposals && st.proposals[pid].Generic?
    requires var e := EffectOf(a, st.docs, st.proposals[pid], luck);
             e.Effect? && e.undo.Some? && e.undo.value.GenericUndo?
    requires Keeps(Commit(a, st, workspace, key, pid, luck).0.undos, st2.undos)
    requires Keeps(Rollback(a, st2, luck.uuid, luck2).0.proposals, st4.proposals)
    ensures Rollback(a, st2, luck.uuid, luck2).0.docs == st2.docs && Rollback(a, st2, luck.uuid, luck2).1.Preview?
    ensures var u := EffectOf(a, st.docs, st.proposals[pid], luck).undo.value;
            luck2.uuid in st4.proposals && st4.proposals[luck2.uuid] == Generic(u.op, u.args)
  {
    var st1 := Commit(a, st, workspace, key, pid, luck).0;
    assert luck.uuid in st1.undos;
    assert luck2.uuid in Rollback(a, st2, luck.uuid, luck2).0.proposals;
  }

  lemma PreviewIsCommitted(a: Adapter, st: State, workspace: string, key: string, pid: string, luck: Luck)
    requires key !in st.ledger && pid in st.proposals
    ensures var (st', reply) := Commit(a, st, workspace, key, pid, luck);
            var u := EffectOf(a, st.docs, st.proposals[pid], luck);
            (reply.Executed? <==> u.Effect?) && (u.Effect? ==> st'.docs == u.docs)
  {
  }
}
