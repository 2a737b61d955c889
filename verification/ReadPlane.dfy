/** Governed reads over a backend: typed filters, lean projections, and keyset pages that are refused
    rather than cut when they do not fit. */
module ReadPlane {
  import opened Values
  import opened References
  import opened Numerals

  type Record = map<string, Json>

  // --- filters ----------------------------------------------------------------------------------------

  datatype Predicate = Predicate(field: Json, op: string, value: Json)

  datatype Parsed = InvalidFilter | Filter(preds: seq<Predicate>)

  const FILTER_OPS := {"eq", "ne", "gt", "gte", "lt", "lte", "in", "contains", "ilike", "between"}

  function Get(fields: Record, name: string): Json {
    if name in fields then fields[name] else Null
  }

  predicate WellFormedClause(clause: Json) {
    && clause.Obj? && "field" in clause.fields && "op" in clause.fields
    && clause.fields["op"].Str? && clause.fields["op"].s in FILTER_OPS
    && (clause.fields["op"].s == "between" ==>
          Get(clause.fields, "value").Arr? && |Get(clause.fields, "value").items| == 2)
    && (clause.fields["op"].s == "in" ==> Get(clause.fields, "value").Arr?)
  }

  function ClauseOf(clause: Json): Predicate
    requires WellFormedClause(clause)
  {
    Predicate(clause.fields["field"], clause.fields["op"].s, Get(clause.fields, "value"))
  }

  /** A filter is refused exactly when some clause is malformed; otherwise every clause becomes one
      predicate, in order, and none is dropped. */
  method ParseFilter(raw: Json) returns (r: Parsed)
    ensures r.Filter? <==> raw == Null || (raw.Arr? && forall c :: c in raw.items ==> WellFormedClause(c))
    ensures r.Filter? && raw == Null ==> r.preds == []
    ensures r.Filter? && raw.Arr? ==>
              |r.preds| == |raw.items| && forall i :: 0 <= i < |r.preds| ==> r.preds[i] == ClauseOf(raw.items[i])
  {
    if raw == Null {
      return Filter([]);
    }
    if !raw.Arr? {
      return InvalidFilter;
    }
    var preds: seq<Predicate> := [];
    for k := 0 to |raw.items|
      invariant |preds| == k
      invariant forall i :: 0 <= i < k ==> WellFormedClause(raw.items[i]) && preds[i] == ClauseOf(raw.items[i])
    {
      if !WellFormedClause(raw.items[k]) {
        assert raw.items[k] in raw.items;
        return InvalidFilter;
      }
      preds := preds + [ClauseOf(raw.items[k])];
    }
    r := Filter(preds);
  }

  /** A clause is accepted exactly when its operator is one of the ten, with a pair to lie between and a list to
      be in; it asks what it says. */
  lemma ClausesAreTakenAsWritten(field: Json, op: string, value: Json)
    ensures var clause := Obj(map["field" := field, "op" := Str(op), "value" := value]);
            && (WellFormedClause(clause) <==>
                  && op in ["eq", "ne", "gt", "gte", "lt", "lte", "in", "contains", "ilike", "between"]
                  && (op == "between" ==> value.Arr? && |value.items| == 2) && (op == "in" ==> value.Arr?))
            && (WellFormedClause(clause) ==> ClauseOf(clause) == Predicate(field, op, value))
  {
  }

  // What an operator means for a field's value and its operand; the backend and the edge agree on it.
  type Operators = (string, Json, Json) -> bool

  function FieldValue(row: Record, field: Json): Json {
    if field.Str? then Get(row, field.s) else Null
  }

  predicate Matches(ops: Operators, row: Record, preds: seq<Predicate>) {
    forall p :: p in preds ==> ops(p.op, FieldValue(row, p.field), p.value)
  }

  // --- authorised fields --------------------------------------------------------------------------------

  datatype FieldSpec = FieldSpec(returnable: bool, sensitive: bool)

  type Schema = map<string, FieldSpec>

  // The field may be returned: without any grant list even a sensitive one may, despite what the
  // method's documentation says.
  predicate Allowed(schema: Schema, grant: Option<seq<string>>, name: string) {
    name in schema && schema[name].returnable && !(schema[name].sensitive && grant.Some? && name !in grant.value)
  }

  predicate Redacted(schema: Schema, grant: Option<seq<string>>, name: string) {
    name in schema && schema[name].returnable && schema[name].sensitive && grant.Some? && name !in grant.value
  }

  function Only(names: seq<string>, keep: string -> bool): (r: seq<string>)
    ensures forall n :: n in r <==> n in names && keep(n)
  {
    if names == [] then []
    else (if keep(names[0]) then [names[0]] else []) + Only(names[1..], keep)
  }

  lemma {:induction false} OnlyOneMore(names: seq<string>, name: string, keep: string -> bool)
    ensures Only(names + [name], keep) == Only(names, keep) + if keep(name) then [name] else []
  {
    if names == [] {
      assert [name][1..] == [];
    } else {
      assert (names + [name])[1..] == names[1..] + [name];
      OnlyOneMore(names[1..], name, keep);
    }
  }

  function MayGo(schema: Schema, grant: Option<seq<string>>): string -> bool {
    n => Allowed(schema, grant, n)
  }

  function HeldBack(schema: Schema, grant: Option<seq<string>>): string -> bool {
    n => Redacted(schema, grant, n)
  }

  function AllowedOf(schema: Schema, requested: seq<string>, grant: Option<seq<string>>): seq<string> {
    Only(requested, MayGo(schema, grant))
  }

  function RedactedOf(schema: Schema, requested: seq<string>, grant: Option<seq<string>>): seq<string> {
    Only(requested, HeldBack(schema, grant))
  }

  lemma OneMoreField(schema: Schema, names: seq<string>, name: string, grant: Option<seq<string>>)
    ensures AllowedOf(schema, names + [name], grant) ==
            AllowedOf(schema, names, grant) + if Allowed(schema, grant, name) then [name] else []
    ensures RedactedOf(schema, names + [name], grant) ==
            RedactedOf(schema, names, grant) + if Redacted(schema, grant, name) then [name] else []
  {
    OnlyOneMore(names, name, MayGo(schema, grant));
    OnlyOneMore(names, name, HeldBack(schema, grant));
  }

  method AuthorizeFields(schema: Schema, requested: seq<string>, grant: Option<seq<string>>)
    returns (allowed: seq<string>, redacted: seq<string>)
    ensures allowed == AllowedOf(schema, requested, grant) && redacted == RedactedOf(schema, requested, grant)
  {
    allowed, redacted := [], [];
    for k := 0 to |requested|
      invariant allowed == AllowedOf(schema, requested[..k], grant)
      invariant redacted == RedactedOf(schema, requested[..k], grant)
    {
      var name := requested[k];
      assert requested[..k + 1] == requested[..k] + [name];
      OneMoreField(schema, requested[..k], name, grant);
      if name in schema && schema[name].returnable {
        if schema[name].sensitive && grant.Some? && name !in grant.value {
          redacted := redacted + [name];
        } else {
          allowed := allowed + [name];
        }
      }
    }
    assert requested[..|requested|] == requested;
  }

  predicate Returnable(schema: Schema, name: string) {
    name in schema && schema[name].returnable
  }

  function MayReturn(schema: Schema): string -> bool {
    n => Returnable(schema, n)
  }

  // Every sensitive field among the names was granted by name.
  predicate OnlyGranted(schema: Schema, names: seq<string>, grant: Option<seq<string>>) {
    forall n :: n in names && n in schema && schema[n].sensitive ==> grant.Some? && n in grant.value
  }

  /** Sensitive fields go out only where granted exactly when there is a grant list, or no returnable field
      of the request is sensitive. */
  lemma GrantsAreNeededExactly(schema: Schema, requested: seq<string>, grant: Option<seq<string>>)
    ensures OnlyGranted(schema, AllowedOf(schema, requested, grant), grant) <==>
            grant.Some? || forall n :: n in requested && Returnable(schema, n) ==> !schema[n].sensitive
  {
    var allowed := AllowedOf(schema, requested, grant);
    if grant.None? {
      forall n | n in requested && Returnable(schema, n) ensures n in allowed {}
    }
  }

  /** Such a request: a sensitive field, asked for without any grant, is returned and not redacted. */
  lemma SensitiveFieldWithoutGrant(schema: Schema, name: string)
    requires Returnable(schema, name) && schema[name].sensitive
    ensures AllowedOf(schema, [name], None) == [name] && RedactedOf(schema, [name], None) == []
    ensures !OnlyGranted(schema, AllowedOf(schema, [name], None), None)
  {
    OneMoreField(schema, [], name, None);
    assert [] + [name] == [name];
    assert name in AllowedOf(schema, [name], None);
  }

  lemma {:induction false} OnlySplits(names: seq<string>, p: string -> bool, q: string -> bool, either: string -> bool)
    requires forall n :: !(p(n) && q(n)) && (either(n) <==> p(n) || q(n))
    ensures multiset(Only(names, p)) + multiset(Only(names, q)) == multiset(Only(names, either))
  {
    if names != [] {
      OnlySplits(names[1..], p, q, either);
    }
  }

  /** Each returnable field asked for is either returned or redacted, as often as it was asked for. */
  lemma ReturnedOrRedacted(schema: Schema, requested: seq<string>, grant: Option<seq<string>>)
    ensures multiset(AllowedOf(schema, requested, grant)) + multiset(RedactedOf(schema, requested, grant)) ==
            multiset(Only(requested, MayReturn(schema)))
    ensures forall n :: !(n in AllowedOf(schema, requested, grant) && n in RedactedOf(schema, requested, grant))
  {
    OnlySplits(requested, MayGo(schema, grant), HeldBack(schema, grant), MayReturn(schema));
  }

  // --- projection -----------------------------------------------------------------------------------------

  function Project(row: Record, fields: seq<string>): Record {
    map f | f in row && (f == "id" || f in fields) :: row[f]
  }

  function ProjectAll(rows: seq<Record>, fields: seq<string>): (r: seq<Record>)
    ensures |r| == |rows| && forall i :: 0 <= i < |rows| ==> r[i] == Project(rows[i], fields)
  {
    seq(|rows|, i requires 0 <= i < |rows| => Project(rows[i], fields))
  }

  /** A row is shown with its id and the fields asked for, as far as it has them, and with nothing else. */
  lemma ProjectionShows(rows: seq<Record>, fields: seq<string>, i: nat, f: string)
    requires i < |rows|
    ensures f in ProjectAll(rows, fields)[i] <==> f in rows[i] && (f == "id" || f in fields)
    ensures f in ProjectAll(rows, fields)[i] ==> ProjectAll(rows, fields)[i][f] == rows[i][f]
  {
  }

  // --- cursors --------------------------------------------------------------------------------------------

  datatype RecordId = Num(n: int) | Text(s: string)

  // `str(id)`, which the base64 step carries unchanged.
  function EncodeCursor(id: RecordId): string {
    match id
    case Num(n) => if n < 0 then "-" + Decimal(-n) else Decimal(n)
    case Text(s) => s
  }

  // An absent or empty cursor is page one.
  function DecodeCursor(cursor: Option<string>): Option<RecordId> {
    if cursor.None? || cursor.value == "" then None
    else if IntOf(cursor.value).Some? then Some(Num(IntOf(cursor.value).value))
    else Some(Text(cursor.value))
  }

  /** A cursor gives back the id it was made from exactly when that is an integer or a text that neither
      is empty nor reads as an integer. */
  lemma CursorRoundTrip(id: RecordId)
    ensures DecodeCursor(Some(EncodeCursor(id))) == Some(id) <==>
            id.Num? || (id.s != "" && IntOf(id.s).None?)
  {
    if id.Num? {
      NumberComesBack(id.n);
    }
  }

  lemma NumberComesBack(n: int)
    ensures DecodeCursor(Some(EncodeCursor(Num(n)))) == Some(Num(n))
  {
    IntRoundTrip(n);
  }

  /** A text id of two groups of digits joined by an underscore reads as one number, and comes back as it. */
  lemma JoinedIdComesBackAsANumber(a: string, b: string)
    requires AllDigits(a) && AllDigits(b)
    ensures DecodeCursor(Some(EncodeCursor(Text(a + "_" + b)))) == Some(Num(DecimalValue(a + b)))
  {
    UnderscoredIsRead(a, b);
  }
}
