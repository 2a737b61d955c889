/** The reversals an adapter maps to verbs of its own: deleting what was created takes it back, and offsetting
    it with another record leaves it where it is. */
module MappedUndo {
  import opened Values
  import opened Edge
  import opened EdgeUndo
  import opened PocketBase
  import Store

  // The reversal's verb, and what it is told to reverse.
  function ReversingVerb(a: Adapter, name: string): WriteVerb
    requires name in a.reversals && a.reversals[name].verb in a.verbs
  {
    a.verbs[a.reversals[name].verb]
  }

  // The verb creates a record, and its reversal is told that record's id first.
  ghost predicate Mapped(a: Adapter, name: string) {
    && name in a.verbs && name in a.reversals && a.reversals[name].verb in a.verbs
    && a.verbs[name].op == Create
    && var v := ReversingVerb(a, name);
       && v.required != []
       && forall id :: id != "" ==>
            v.native(a.reversals[name].args(id)).Some? &&
            FieldOr(a.reversals[name].args(id), v.required[0], Str("")) == Str(id)
  }

  ghost predicate Created(a: Adapter, docs: Store.Docs, name: string, args: Store.Fields, luck: Luck, e: Effect) {
    Mapped(a, name) && Store.Keyed(docs) && e == SpecificEffect(a, docs, name, args, luck) && e.Effect?
  }

  // What committing the previewed reversal comes to.
  function Reversed(a: Adapter, docs: Store.Docs, name: string, id: string, luck: Luck): Effect
    requires name in a.reversals
  {
    SpecificEffect(a, docs, a.reversals[name].verb, a.reversals[name].args(id), luck)
  }

  lemma CreatedHasUndo(a: Adapter, docs: Store.Docs, name: string, args: Store.Fields, luck: Luck, e: Effect)
    requires Created(a, docs, name, args, luck, e)
    ensures e.undo == Some(SpecificUndo(name, e.id)) && e.id != "" && e.target == a.verbs[name].doctype
    ensures Store.At(docs, KeyOf(e)) == None && Store.At(e.docs, KeyOf(e)).Some?
  {
  }

  /** Where the reversal deletes from the same collection, committing it takes the record back and leaves the
      rest of the store alone. */
  lemma DeletingRestores(a: Adapter, docs: Store.Docs, name: string, args: Store.Fields, luck: Luck, e: Effect,
                         docs': Store.Docs, luck': Luck)
    requires Created(a, docs, name, args, luck, e) && Untouched(e, docs') && Calm(luck')
    requires ReversingVerb(a, name).op == Delete && ReversingVerb(a, name).doctype == a.verbs[name].doctype
    ensures Restores(Reversed(a, docs', name, e.id, luck'), docs, docs', KeyOf(e))
  {
    CreatedHasUndo(a, docs, name, args, luck, e);
    assert KeyOf(e) in docs' by { assert Store.At(docs', KeyOf(e)).Some?; }
    ExistingIdResolves(a, docs', e.target, e.id, luck');
    DeletedRestores(a, docs', name, e.id, luck');
  }

  lemma DeletedRestores(a: Adapter, docs: Store.Docs, name: string, id: string, luck: Luck)
    requires Mapped(a, name) && ReversingVerb(a, name).op == Delete && id != "" && Calm(luck)
    requires var k := Store.Key(ReversingVerb(a, name).doctype, id);
             k in docs && ResolveId(a, docs, luck, k.target, id) == Some(id)
    ensures var (u, k) := (Reversed(a, docs, name, id, luck), Store.Key(ReversingVerb(a, name).doctype, id));
            u.Effect? && Store.At(u.docs, k) == None && SameBut(docs, u.docs, k)
  {
    var v := ReversingVerb(a, name);
    assert ResolvedOrRaw(a, docs, v, a.reversals[name].args(id), luck) == id;
  }

  /** Where it creates a record of another collection, the effect's own record stays as it is. */
  lemma OffsettingLeavesTheRecord(a: Adapter, docs: Store.Docs, name: string, args: Store.Fields, luck: Luck, e: Effect,
                                  docs': Store.Docs, luck': Luck)
    requires Created(a, docs, name, args, luck, e) && Untouched(e, docs')
    requires ReversingVerb(a, name).op == Create && ReversingVerb(a, name).doctype != a.verbs[name].doctype
    ensures var u := Reversed(a, docs', name, e.id, luck');
            u.Effect? ==> Store.At(u.docs, KeyOf(e)) == Store.At(e.docs, KeyOf(e)) && KeyOf(u) !in docs'
  {
    CreatedHasUndo(a, docs, name, args, luck, e);
  }

  // --- PocketBase --------------------------------------------------------------------------------------

  lemma PocketBaseMaps(overlay: (string, Store.Fields) -> Store.Fields, text: Json -> string,
                       landed: (Json, Json) -> bool,
                       name: string)
    requires name in REVERSALS
    ensures var a := PocketBaseAdapter(overlay, text, landed);
            && Mapped(a, name)
            && (if REVERSALS[name].verb == "commerce.delete_product"
                then ReversingVerb(a, name) == DELETE_PRODUCT else ReversingVerb(a, name) == Creating(PROCESS_REFUND))
  {
    ReversibleVerbs(name);
    ReversingVerbs();
  }

  predicate TakesBack(a: Adapter, name: string)
    requires name in a.verbs && name in a.reversals && a.reversals[name].verb in a.verbs
  {
    ReversingVerb(a, name).op == Delete && ReversingVerb(a, name).doctype == a.verbs[name].doctype
  }

  predicate Offsets(a: Adapter, name: string)
    requires name in a.verbs && name in a.reversals && a.reversals[name].verb in a.verbs
  {
    ReversingVerb(a, name).op == Create && ReversingVerb(a, name).doctype != a.verbs[name].doctype
  }

  /** Of the mapped effects exactly the creation of a product is taken back, as its table entry says by
      calling it reversible; the others are offset. */
  lemma OnlyProductsAreTakenBack(overlay: (string, Store.Fields) -> Store.Fields, text: Json -> string,
                                 landed: (Json, Json) -> bool, name: string)
    requires name in REVERSALS
    ensures var a := PocketBaseAdapter(overlay, text, landed);
            && Mapped(a, name)
            && (TakesBack(a, name) <==> name == "commerce.create_product") &&
               (Offsets(a, name) <==> !TakesBack(a, name))
  {
    var a := PocketBaseAdapter(overlay, text, landed);
    PocketBaseMaps(overlay, text, landed, name);
    MappedNames(name);
    CreatedIn(overlay, text, landed, name);
  }

  lemma MappedNames(name: string)
    requires name in REVERSALS
    ensures name in {"commerce.create_product", "commerce.record_payment", "services.create_invoice"}
    ensures REVERSALS[name].verb == "commerce.delete_product" <==> name == "commerce.create_product"
  {
    assert "commerce.process_refund"[9] != "commerce.delete_product"[9];
    assert "commerce.create_product"[9] != "commerce.record_payment"[9];
    assert "commerce.create_product"[0] != "services.create_invoice"[0];
  }

  lemma CreatedIn(overlay: (string, Store.Fields) -> Store.Fields, text: Json -> string, landed: (Json, Json) -> bool,
                  name: string)
    requires name in REVERSALS
    ensures var doctype := PocketBaseAdapter(overlay, text, landed).verbs[name].doctype;
            if name == "commerce.create_product" then doctype == "products" else doctype != "refunds"
  {
    ReversibleVerbs(name);
    NotChanges(name);
    MappedNames(name);
    assert "payments"[0] != "refunds"[0] && "invoices"[0] != "refunds"[0];
  }

  lemma NotChanges(name: string)
    requires name in REVERSALS
    ensures name !in CHANGES && name in CREATIONS
  {
    ReversibleVerbs(name);
    assert "commerce.create_product"[9] == 'c' && "commerce.record_payment"[9] == 'r' &&
           "services.create_invoice"[0] == 's';
    forall change | change in CHANGES ensures change[0] == 'c' && |change| > 9 && change[9] in {'d', 'u'} {}
    MappedNames(name);
  }
}
