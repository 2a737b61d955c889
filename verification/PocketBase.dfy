/** The PocketBase adapter's tables, and that they fit together. */
module PocketBase {
  import opened Values
  import opened Store
  import opened Edge

  // A translation that copies the required arguments and those optional ones that are given.
  function Copied(required: seq<string>, optional: seq<string>, args: Fields): Option<Fields> {
    if exists f :: f in required && f !in args then None
    else Some(map f | f in args && (f in required || f in optional) && args[f] != Null :: args[f])
  }

  function Creating(c: Creation): WriteVerb {
    WriteVerb(c.doctype, c.required, Op.Create, args => Copied(c.required, c.optional, args))
  }

  const DELETE_PRODUCT := WriteVerb("products", ["product_id"], Op.Delete, (args: Fields) => Some(map[]))

  const UPDATE_PRODUCT := WriteVerb("products", ["product_id", "updates"], Op.Update, (args: Fields) =>
    if "updates" !in args then None
    else if args["updates"].Obj? then Some(args["updates"].fields) else Some(map["updates" := args["updates"]]))

  const SET_QUANTITY := WriteVerb("products", ["product_id", "quantity"], Op.Update, (args: Fields) =>
    if "quantity" !in args then None else Some(map["quantity" := args["quantity"]]))

  // What a creating verb needs and takes.
  datatype Creation = Creation(doctype: string, required: seq<string>, optional: seq<string>)

  const PROCESS_REFUND := Creation("refunds", ["refund_target"], ["amount", "reason"])

  const CREATIONS: map<string, Creation> := map[
    "commerce.create_coupon" := Creation("coupons", ["code", "discount_type", "discount_value"],
                                         ["min_amount", "expires_at"]),
    "commerce.create_product" := Creation("products", ["name"],
                                          ["description", "price", "sku", "quantity", "category"]),
    "commerce.process_refund" := PROCESS_REFUND,
    "commerce.record_fulfillment" := Creation("fulfillments", ["order_id", "event"], ["tracking", "occurred_at"]),
    "commerce.record_payment" := Creation("payments", ["order_id", "event"],
                                          ["amount", "currency", "method", "reference"]),
    "commerce.send_message" := Creation("messages", ["phone", "text"], []),
    "services.create_client" := Creation("clients", ["name", "phone"], ["email", "notes"]),
    "services.create_invoice" := Creation("invoices", ["party_id", "amount", "currency"], ["description"]),
    "services.create_payment_link" := Creation("payment_links", ["invoice_id"], ["expires_at"]),
    "services.draft_proposal" := Creation("proposals", ["party_id", "title", "amount", "currency"], ["body"]),
    "services.send_followup" := Creation("followups", ["party_id", "message"], ["channel"]),
    "services.send_proposal" := Creation("proposals", ["biz_proposal_id"], ["channel"])
  ]

  const CHANGES: map<string, WriteVerb> := map[
    "commerce.delete_product" := DELETE_PRODUCT,
    "commerce.update_product" := UPDATE_PRODUCT,
    "commerce.update_product_quantity" := SET_QUANTITY
  ]

  function Table(creations: map<string, Creation>, changes: map<string, WriteVerb>): map<string, WriteVerb> {
    (map name | name in creations :: Creating(creations[name])) + changes
  }

  const REVERSALS: map<string, Reversal> := map[
    "commerce.create_product" := Reversal("commerce.delete_product", id => map["product_id" := Str(id)]),
    "commerce.record_payment" := Reversal("commerce.process_refund", id => map["refund_target" := Str(id)]),
    "services.create_invoice" := Reversal("commerce.process_refund", id => map["refund_target" := Str(id)])
  ]

  function PocketBaseAdapter(overlay: (string, Fields) -> Fields, text: Json -> string,
                             landed: (Json, Json) -> bool): Adapter {
    Adapter(Table(CREATIONS, CHANGES), REVERSALS, overlay, text, landed)
  }

  ghost predicate Translates(v: WriteVerb) {
    forall args :: Supplied(v, args) ==> v.native(args).Some?
  }

  lemma CreatingTranslates(c: Creation)
    ensures Translates(Creating(c))
  {
  }

  lemma UpdatesTranslate()
    ensures Translates(UPDATE_PRODUCT) && Translates(SET_QUANTITY)
  {
    assert UPDATE_PRODUCT.required[1] == "updates";
    assert SET_QUANTITY.required[1] == "quantity";
  }

  lemma ChangesTranslate(name: string)
    requires name in CHANGES
    ensures Translates(CHANGES[name])
  {
    UpdatesTranslate();
  }

  lemma TableTranslates(creations: map<string, Creation>, changes: map<string, WriteVerb>)
    requires forall name :: name in changes ==> Translates(changes[name])
    ensures forall name :: name in Table(creations, changes) ==> Translates(Table(creations, changes)[name])
  {
    forall name | name in creations ensures Translates(Creating(creations[name])) {
      CreatingTranslates(creations[name]);
    }
  }

  lemma ReversingVerbs()
    ensures DELETE_PRODUCT.required == ["product_id"] && PROCESS_REFUND.required == ["refund_target"]
    ensures "commerce.delete_product" in CHANGES && CHANGES["commerce.delete_product"] == DELETE_PRODUCT
    ensures "commerce.process_refund" in CREATIONS && CREATIONS["commerce.process_refund"] == PROCESS_REFUND
    ensures "commerce.process_refund" !in CHANGES
  {
    assert "commerce.process_refund"[9] == 'p';
    assert CHANGES["commerce.delete_product"] == DELETE_PRODUCT;
  }

  lemma ReversibleVerbs(name: string)
    requires name in REVERSALS
    ensures name in CREATIONS
    ensures REVERSALS[name].verb in {"commerce.delete_product", "commerce.process_refund"}
    ensures forall id :: id != "" ==>
              REVERSALS[name].args(id) == if REVERSALS[name].verb == "commerce.delete_product"
                                          then map["product_id" := Str(id)] else map["refund_target" := Str(id)]
  {
    assert "commerce.process_refund"[9] != "commerce.delete_product"[9];
  }

  ghost predicate Fits(verbs: map<string, WriteVerb>, name: string, r: Reversal) {
    && name in verbs && r.verb in verbs
    && forall id :: id != "" ==> Supplied(verbs[r.verb], r.args(id))
  }

  lemma ReversalFits(name: string)
    requires name in REVERSALS
    ensures Fits(Table(CREATIONS, CHANGES), name, REVERSALS[name])
  {
    ReversibleVerbs(name);
    ReversingVerbs();
    if REVERSALS[name].verb == "commerce.delete_product" {
      OneArgumentFits(CREATIONS, CHANGES, name, REVERSALS[name], DELETE_PRODUCT, "product_id");
    } else {
      OneArgumentFits(CREATIONS, CHANGES, name, REVERSALS[name], Creating(PROCESS_REFUND), "refund_target");
    }
  }

  lemma OneArgumentFits(creations: map<string, Creation>, changes: map<string, WriteVerb>, name: string, r: Reversal,
                        v: WriteVerb, field: string)
    requires name in creations && v.required == [field]
    requires if r.verb in changes then changes[r.verb] == v else r.verb in creations && Creating(creations[r.verb]) == v
    requires forall id :: id != "" ==> r.args(id) == map[field := Str(id)]
    ensures Fits(Table(creations, changes), name, r)
  {
    assert Table(creations, changes)[r.verb] == v;
  }

  lemma FittingTables(creations: map<string, Creation>, changes: map<string, WriteVerb>,
                      reversals: map<string, Reversal>, a: Adapter)
    requires forall name :: name in changes ==> Translates(changes[name])
    requires forall name :: name in reversals ==> Fits(Table(creations, changes), name, reversals[name])
    requires a.verbs == Table(creations, changes) && a.reversals == reversals
    ensures Consistent(a)
  {
    TableTranslates(creations, changes);
    forall name, args | name in a.verbs && Supplied(a.verbs[name], args) ensures a.verbs[name].native(args).Some? {
      assert Translates(a.verbs[name]);
    }
    forall name, id | name in reversals && id != ""
      ensures Supplied(a.verbs[reversals[name].verb], reversals[name].args(id))
    {
      assert Fits(Table(creations, changes), name, reversals[name]);
    }
  }

  /** The tables fit together: what a verb requires is enough to translate it, and every mapped
      reversal is a verb the committed entity's id alone supplies. */
  lemma TablesAreConsistent(overlay: (string, Fields) -> Fields, text: Json -> string, landed: (Json, Json) -> bool)
    ensures Consistent(PocketBaseAdapter(overlay, text, landed))
  {
    forall name | name in CHANGES ensures Translates(CHANGES[name]) {
      ChangesTranslate(name);
    }
    forall name | name in REVERSALS ensures Fits(Table(CREATIONS, CHANGES), name, REVERSALS[name]) {
      ReversalFits(name);
    }
    FittingTables(CREATIONS, CHANGES, REVERSALS, PocketBaseAdapter(overlay, text, landed));
  }

  /** What the translations make of their arguments: a creating verb hands on those it needs and takes that are
      given and not null; the updates hand on the fields to set, or the quantity. */
  lemma TranslationsHandOn(c: Creation, args: Fields, f: string)
    ensures var native := Creating(c).native(args);
            && (native.Some? <==> forall r :: r in c.required ==> r in args)
            && (native.Some? ==> (f in native.value <==>
                                    f in args && args[f] != Null && (f in c.required || f in c.optional)))
            && (native.Some? && f in native.value ==> native.value[f] == args[f])
    ensures "updates" in args && args["updates"].Obj? ==> UPDATE_PRODUCT.native(args) == Some(args["updates"].fields)
    ensures "quantity" in args ==> SET_QUANTITY.native(args) == Some(map["quantity" := args["quantity"]])
  {
  }
}
