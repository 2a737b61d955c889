/** Typed query outputs: the path check against a response schema, and what it guarantees. */
module OutputTyping {
  import opened Values
  import opened References
  import opened Dsl

  // The parts of a response schema the check reads.
  datatype Schema = Schema(kind: Option<string>, properties: map<string, Schema>, items: Option<Schema>)

  const ANYTHING := Schema(None, map[], None)

  function ItemsOf(s: Schema): Schema {
    if s.items.Some? then s.items.value else ANYTHING
  }

  datatype Complaint = ShapeMismatch | FieldUnknown

  // --- the check ----------------------------------------------------------------------------------

  function Complain(s: Schema, path: seq<Segment>): Option<Complaint>
    decreases |path|
  {
    if path == [] then None
    else
      match path[0]
      case Index(_) => if s.kind != Some("array") then Some(ShapeMismatch) else Complain(ItemsOf(s), path[1..])
      case Field(name) =>
        if s.kind != Some("object") then Some(ShapeMismatch)
        else if name !in s.properties then Some(FieldUnknown)
        else Complain(s.properties[name], path[1..])
  }

  method WalkOutput(schema: Schema, path: seq<Segment>) returns (r: Option<Complaint>)
    ensures r == Complain(schema, path)
  {
    var cursor := schema;
    for k := 0 to |path|
      invariant Complain(cursor, path[k..]) == Complain(schema, path)
    {
      assert path[k..][0] == path[k] && path[k..][1..] == path[k + 1..];
      match path[k]
      case Index(_) =>
        if cursor.kind != Some("array") {
          return Some(ShapeMismatch);
        }
        cursor := ItemsOf(cursor);
      case Field(name) =>
        if cursor.kind != Some("object") {
          return Some(ShapeMismatch);
        }
        if name !in cursor.properties {
          return Some(FieldUnknown);
        }
        cursor := cursor.properties[name];
    }
    return None;
  }

  // --- what a value must satisfy (`type`, `properties`, `items`) ------------------------------------

  predicate HasKind(v: Json, kind: string) {
    (kind == "object" && v.Obj?) || (kind == "array" && v.Arr?) || (kind == "string" && v.Str?) ||
    (kind == "boolean" && v.Bool?) || (kind == "integer" && v.Int?) || (kind == "number" && (v.Int? || v.Dec?)) ||
    (kind == "null" && v.Null?)
  }

  ghost predicate Conforms(v: Json, s: Schema)
    decreases v
  {
    && (s.kind.Some? ==> HasKind(v, s.kind.value))
    && (v.Obj? ==> forall k :: k in v.fields && k in s.properties ==> Conforms(v.fields[k], s.properties[k]))
    && (v.Arr? && s.items.Some? ==> forall i :: 0 <= i < |v.items| ==> Conforms(v.items[i], s.items.value))
  }

  // Every kind in the schema is one of JSON Schema's.
  predicate KnownKinds(s: Schema) {
    && (s.kind.Some? ==> s.kind.value in ["object", "array", "string", "boolean", "integer", "number", "null"])
    && (forall k :: k in s.properties ==> KnownKinds(s.properties[k]))
    && (s.items.Some? ==> KnownKinds(s.items.value))
  }

  // Following the path never clashes with the value's shape: at each segment the value is an object
  // (for a declared field) or an array, so only an absent property or a short array can stop it.
  ghost predicate NeverClashes(v: Json, s: Schema, path: seq<Segment>)
    decreases |path|
  {
    path == [] ||
    match path[0]
    case Index(i) => v.Arr? && (i < |v.items| ==> NeverClashes(v.items[i], ItemsOf(s), path[1..]))
    case Field(name) =>
      v.Obj? && name in s.properties &&
      (name in v.fields ==> NeverClashes(v.fields[name], s.properties[name], path[1..]))
  }

  // The schema at the end of an accepted path.
  function SchemaAt(s: Schema, path: seq<Segment>): Schema
    requires Complain(s, path).None?
    decreases |path|
  {
    if path == [] then s
    else if path[0].Index? then SchemaAt(ItemsOf(s), path[1..])
    else SchemaAt(s.properties[path[0].name], path[1..])
  }

  lemma AnythingGoes(v: Json)
    ensures Conforms(v, ANYTHING)
  {
  }

  // A smallest value of the schema.
  function Sample(s: Schema): Json {
    if s.kind == Some("object") then Obj(map[])
    else if s.kind == Some("array") then Arr([])
    else if s.kind == Some("string") then Str("")
    else if s.kind == Some("boolean") then Bool(false)
    else if s.kind == Some("integer") || s.kind == Some("number") then Int(0)
    else Null
  }

  lemma SampleConforms(s: Schema)
    requires KnownKinds(s)
    ensures Conforms(Sample(s), s)
  {
  }

  /** An accepted path is sound on every conforming value: it never clashes with the shape, and the
      value it reaches conforms to the sub-schema it was checked against. */
  lemma {:induction false} AcceptedPathIsSound(s: Schema, path: seq<Segment>, v: Json)
    requires Complain(s, path).None? && Conforms(v, s)
    ensures NeverClashes(v, s, path)
    ensures Follow(v, path).Some? ==> Conforms(Follow(v, path).value, SchemaAt(s, path))
    decreases |path|
  {
    if path != [] {
      match path[0]
      case Index(i) =>
        if v.Arr? && i < |v.items| {
          AnythingGoes(v.items[i]);
          AcceptedPathIsSound(ItemsOf(s), path[1..], v.items[i]);
        }
      case Field(name) =>
        if v.Obj? && name in v.fields {
          AcceptedPathIsSound(s.properties[name], path[1..], v.fields[name]);
        }
    }
  }

  // A conforming value that a rejected path clashes with.
  lemma {:induction false} RejectedPathClashes(s: Schema, path: seq<Segment>) returns (v: Json)
    requires KnownKinds(s) && Complain(s, path).Some?
    ensures Conforms(v, s) && !NeverClashes(v, s, path)
    decreases |path|
  {
    SampleConforms(s);
    v := Sample(s);
    match path[0]
    case Index(i) =>
      if s.kind == Some("array") {
        var item := RejectedPathClashes(ItemsOf(s), path[1..]);
        v := Arr(seq(i + 1, _ => item));
        assert v.items[i] == item;
      }
    case Field(name) =>
      if s.kind == Some("object") && name in s.properties {
        var inner := RejectedPathClashes(s.properties[name], path[1..]);
        v := Obj(map[name := inner]);
      }
  }

  /** The check is exact: it is silent precisely when no conforming output clashes with the path. */
  lemma CheckIsExact(s: Schema, path: seq<Segment>)
    requires KnownKinds(s)
    ensures Complain(s, path).None? <==> forall v :: Conforms(v, s) ==> NeverClashes(v, s, path)
  {
    if Complain(s, path).None? {
      forall v | Conforms(v, s) ensures NeverClashes(v, s, path) {
        AcceptedPathIsSound(s, path, v);
      }
    } else {
      var v := RejectedPathClashes(s, path);
    }
  }

  // --- the pass over a program --------------------------------------------------------------------

  datatype OutputDiag = OutputDiag(node: string, ref: Reference, complaint: Complaint)

  function ArgsOf(node: Node): Option<map<string, Json>> {
    if node.Action? || node.Query? then Some(node.args) else None
  }

  // The schema a reference is checked against: that of a typed query whose output it reads.
  function CheckedAgainst(nodes: map<string, Node>, responses: map<string, Schema>, r: Reference): Option<Schema> {
    if r.source in nodes && nodes[r.source].Query? && nodes[r.source].verb in responses &&
       r.segments != [] && r.segments[0] == Field("output")
    then Some(responses[nodes[r.source].verb]) else None
  }

  ghost predicate Faulty(nodes: map<string, Node>, responses: map<string, Schema>, node: Node, d: OutputDiag) {
    && d.node == node.id && ArgsOf(node).Some? && d.ref in RefsIn(Obj(ArgsOf(node).value))
    && CheckedAgainst(nodes, responses, d.ref).Some?
    && Complain(CheckedAgainst(nodes, responses, d.ref).value, d.ref.segments[1..]) == Some(d.complaint)
  }

  method CheckOutputReferences(pipeline: seq<Node>, nodes: map<string, Node>, responses: map<string, Schema>)
    returns (diags: seq<OutputDiag>)
    ensures forall d :: d in diags <==> exists i :: 0 <= i < |pipeline| && Faulty(nodes, responses, pipeline[i], d)
  {
    diags := [];
    for k := 0 to |pipeline|
      invariant forall d :: d in diags <==> exists i :: 0 <= i < k && Faulty(nodes, responses, pipeline[i], d)
    {
      var more := CheckNode(pipeline[k], nodes, responses);
      diags := diags + more;
    }
  }

  method CheckNode(node: Node, nodes: map<string, Node>, responses: map<string, Schema>)
    returns (diags: seq<OutputDiag>)
    ensures forall d :: d in diags <==> Faulty(nodes, responses, node, d)
  {
    diags := [];
    if ArgsOf(node).None? {
      return;
    }
    var refs := RefsIn(Obj(ArgsOf(node).value));
    var left := refs;
    while left != {}
      invariant left <= refs
      invariant forall d :: d in diags <==> d.ref !in left && Faulty(nodes, responses, node, d)
      decreases left
    {
      var r :| r in left;
      left := left - {r};
      var schema := CheckedAgainst(nodes, responses, r);
      if schema.Some? {
        var complaint := WalkOutput(schema.value, r.segments[1..]);
        if complaint.Some? {
          diags := diags + [OutputDiag(node.id, r, complaint.value)];
        }
      }
    }
  }

  /** In a program the pass has nothing to say about, a typed output reference met at run time, with
      the query's recorded output conforming to its response schema, never fails on a shape clash. */
  lemma CheckedReferencesNeverClash(pipeline: seq<Node>, nodes: map<string, Node>, responses: map<string, Schema>,
                                    i: nat, r: Reference, ctx: Context, item: Json, output: Json)
    requires i < |pipeline| && ArgsOf(pipeline[i]).Some? && r in RefsIn(Obj(ArgsOf(pipeline[i]).value))
    requires forall d :: !Faulty(nodes, responses, pipeline[i], d)
    requires CheckedAgainst(nodes, responses, r).Some? && r.source != "item"
    requires r.source in ctx && ctx[r.source] == Obj(map["output" := output])
    requires Conforms(output, CheckedAgainst(nodes, responses, r).value)
    ensures var s := CheckedAgainst(nodes, responses, r).value;
            && Lookup(r, ctx, item) == Follow(output, r.segments[1..])
            && NeverClashes(output, s, r.segments[1..])
            && Complain(s, r.segments[1..]).None?
            && (Lookup(r, ctx, item).Some? ==>
                  Conforms(Lookup(r, ctx, item).value, SchemaAt(s, r.segments[1..])))
  {
    var s := CheckedAgainst(nodes, responses, r).value;
    if Complain(s, r.segments[1..]).Some? {
      var d := OutputDiag(pipeline[i].id, r, Complain(s, r.segments[1..]).value);
      assert Faulty(nodes, responses, pipeline[i], d);
    }
    AcceptedPathIsSound(s, r.segments[1..], output);
  }

  /** A complaint is about the first segment that does not fit: a mismatch where the schema there is no array for an
      index, or no object for a name, and an unknown field where it is an object that declares no such name. */
  lemma {:induction false} ComplaintsArePlaced(s: Schema, path: seq<Segment>) returns (k: nat)
    requires Complain(s, path).Some?
    ensures k < |path| && Complain(s, path[..k]).None?
    ensures var there := SchemaAt(s, path[..k]);
            match Complain(s, path).value
            case ShapeMismatch => there.kind != Some(if path[k].Index? then "array" else "object")
            case FieldUnknown => path[k].Field? && there.kind == Some("object") && path[k].name !in there.properties
    decreases |path|
  {
    k := 0;
    if path[0].Index? && s.kind == Some("array") {
      k := ComplaintBelow(s, path, ItemsOf(s));
    } else if path[0].Field? && s.kind == Some("object") && path[0].name in s.properties {
      k := ComplaintBelow(s, path, s.properties[path[0].name]);
    }
  }

  lemma ComplaintBelow(s: Schema, path: seq<Segment>, next: Schema) returns (k: nat)
    requires path != [] && Complain(s, path) == Complain(next, path[1..]) && Complain(s, path).Some?
    requires if path[0].Index? then s.kind == Some("array") && next == ItemsOf(s)
             else s.kind == Some("object") && path[0].name in s.properties && next == s.properties[path[0].name]
    ensures 0 < k < |path| && Complain(s, path[..k]).None?
    ensures var there := SchemaAt(s, path[..k]);
            match Complain(s, path).value
            case ShapeMismatch => there.kind != Some(if path[k].Index? then "array" else "object")
            case FieldUnknown => path[k].Field? && there.kind == Some("object") && path[k].name !in there.properties
    decreases |path|, 0
  {
    var below := ComplaintsArePlaced(next, path[1..]);
    k := below + 1;
    assert path[..k][1..] == path[1..][..below] && path[..k][0] == path[0];
  }

  /** The references that are checked are those in the arguments of actions and queries that read the output of a
      query whose verb declares a response; a node is faulted for exactly those whose path the schema complains
      of. */
  lemma FaultsAreThoseOf(nodes: map<string, Node>, responses: map<string, Schema>, node: Node, d: OutputDiag)
    ensures Faulty(nodes, responses, node, d) <==>
            && d.node == node.id && (node.Action? || node.Query?) && d.ref in RefsIn(Obj(node.args))
            && d.ref.source in nodes && nodes[d.ref.source].Query? && nodes[d.ref.source].verb in responses
            && d.ref.segments != [] && d.ref.segments[0] == Field("output")
            && Complain(responses[nodes[d.ref.source].verb], d.ref.segments[1..]) == Some(d.complaint)
  {
  }
}
