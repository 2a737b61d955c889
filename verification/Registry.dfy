/** The automation registry: an append-only chain of versions per automation, and who may be armed. */
module Registry {
  import opened Values

  datatype Lifecycle = Draft | PendingApproval | Active | Paused | Archived

  // When a version fires. A cron expression stands as the set of minutes it matches.
  datatype Trigger =
    | Manual
    | Interval(seconds: nat)
    | Cron(matches: nat -> bool)
    | OnEvent(matchesEvent: Json -> bool)

  // One row per version.
  datatype Row = Row(
    version: nat,
    hash: string,
    composed: bool,
    plan: Json,
    trigger: Trigger,
    state: Lifecycle,
    supersededBy: Option<nat>)

  datatype Name = Name(workspace: string, id: string)

  // The rows of each automation, in the order they were inserted.
  type Automations = map<Name, seq<Row>>

  function RowsOf(automations: Automations, name: Name): seq<Row> {
    if name in automations then automations[name] else []
  }

  // The row with the highest version.
  function Latest(rows: seq<Row>): Option<Row> {
    if rows == [] then None
    else
      var rest := Latest(rows[..|rows| - 1]);
      var last := rows[|rows| - 1];
      if rest.Some? && rest.value.version > last.version then rest else Some(last)
  }

  function Superseded(rows: seq<Row>, version: nat, next: nat): seq<Row> {
    seq(|rows|, i requires 0 <= i < |rows| =>
      if rows[i].version == version then rows[i].(supersededBy := Some(next), state := Archived) else rows[i])
  }

  // What a registration brings.
  datatype Definition = Definition(hash: string, composed: bool, plan: Json, trigger: Trigger, state: Lifecycle)

  // An unchanged plan is no new version; a changed one archives the latest and comes after it.
  function Register(rows: seq<Row>, d: Definition): seq<Row> {
    match Latest(rows)
    case None => rows + [Row(1, d.hash, d.composed, d.plan, d.trigger, d.state, None)]
    case Some(latest) =>
      if latest.hash == d.hash then rows
      else
        var version := latest.version + 1;
        Superseded(rows, latest.version, version) +
        [Row(version, d.hash, d.composed, d.plan, d.trigger, d.state, None)]
  }

  function WithState(rows: seq<Row>, version: nat, state: Lifecycle): seq<Row> {
    seq(|rows|, i requires 0 <= i < |rows| => if rows[i].version == version then rows[i].(state := state) else rows[i])
  }

  // --- the chain ------------------------------------------------------------------------------------

  // Versions are 1, 2, 3, ...; each but the newest is superseded by the next and differs from it.
  ghost predicate Chain(rows: seq<Row>) {
    && (forall i :: 0 <= i < |rows| ==> rows[i].version == i + 1)
    && (forall i :: 0 <= i < |rows| ==> rows[i].supersededBy == if i + 1 < |rows| then Some(i + 2) else None)
    && (forall i, j :: 0 <= i < |rows| && j == i + 1 && j < |rows| ==> rows[i].hash != rows[j].hash)
  }

  // What is fixed about a version for ever: its plan, its hash, its kind and its trigger.
  ghost predicate SameVersion(r: Row, r': Row) {
    r'.version == r.version && r'.hash == r.hash && r'.composed == r.composed && r'.plan == r.plan &&
    r'.trigger == r.trigger
  }

  // Nothing on record is dropped or rewritten.
  ghost predicate Preserves(rows: seq<Row>, rows': seq<Row>) {
    |rows| <= |rows'| && forall i :: 0 <= i < |rows| ==> SameVersion(rows[i], rows'[i])
  }

  lemma {:induction false} LatestIsLast(rows: seq<Row>)
    requires forall i :: 0 <= i < |rows| ==> rows[i].version == i + 1
    ensures Latest(rows) == if rows == [] then None else Some(rows[|rows| - 1])
  {
    if rows != [] {
      LatestIsLast(rows[..|rows| - 1]);
    }
  }

  /** Registration keeps the chain and preserves what is on record; it adds exactly one version when the
      plan's hash differs from the latest and none when it does not. */
  lemma RegisterKeepsChain(rows: seq<Row>, d: Definition)
    requires Chain(rows)
    ensures Chain(Register(rows, d)) && Preserves(rows, Register(rows, d))
    ensures |Register(rows, d)| == |rows| + if rows != [] && rows[|rows| - 1].hash == d.hash then 0 else 1
  {
    LatestIsLast(rows);
  }

  lemma WithStateKeepsChain(rows: seq<Row>, version: nat, state: Lifecycle)
    requires Chain(rows)
    ensures Chain(WithState(rows, version, state)) && Preserves(rows, WithState(rows, version, state))
    ensures |WithState(rows, version, state)| == |rows|
  {
  }

  lemma PreservesTransitive(a: seq<Row>, b: seq<Row>, c: seq<Row>)
    requires Preserves(a, b) && Preserves(b, c)
    ensures Preserves(a, c)
  {
    forall i | 0 <= i < |a| ensures SameVersion(a[i], c[i]) {
      assert SameVersion(a[i], b[i]) && SameVersion(b[i], c[i]);
    }
  }

  // --- "the active version is always the latest one" --------------------------------------------------

  ghost predicate OnlyLatestActive(rows: seq<Row>) {
    forall i :: 0 <= i < |rows| && rows[i].state == Active ==> i == |rows| - 1
  }

  lemma RegisterKeepsOnlyLatestActive(rows: seq<Row>, d: Definition)
    requires Chain(rows) && OnlyLatestActive(rows)
    ensures OnlyLatestActive(Register(rows, d))
  {
    LatestIsLast(rows);
  }

  /** Setting a state keeps the claim of active_automations exactly when it does not arm an existing
      version older than the latest; nothing in the store stops that from being asked for. */
  lemma ArmingOldVersions(rows: seq<Row>, version: nat, state: Lifecycle)
    requires Chain(rows) && OnlyLatestActive(rows)
    ensures OnlyLatestActive(WithState(rows, version, state)) <==>
            state != Active || version == 0 || version >= |rows|
  {
    var rows' := WithState(rows, version, state);
    if 0 < version < |rows| {
      assert rows'[version - 1].version == version;
    }
  }

  /** The hash covers the plan only: registering the same plan with another trigger changes nothing. */
  lemma TriggerEditIsIgnored(rows: seq<Row>, d: Definition)
    requires Chain(rows) && rows != []
    requires d.hash == rows[|rows| - 1].hash && d.trigger != rows[|rows| - 1].trigger
    ensures Register(rows, d) == rows
    ensures Latest(Register(rows, d)).value.trigger != d.trigger
  {
    LatestIsLast(rows);
  }

  /** A plan whose hash differs from the latest's becomes the latest version, in everything as it was defined; the one
      before it is archived, and no other changes. */
  lemma NewVersionIsAsDefined(rows: seq<Row>, d: Definition)
    requires Chain(rows) && (rows != [] ==> rows[|rows| - 1].hash != d.hash)
    ensures var rows' := Register(rows, d);
            && |rows'| == |rows| + 1
            && rows'[|rows|] == Row(|rows| + 1, d.hash, d.composed, d.plan, d.trigger, d.state, None)
            && Latest(rows') == Some(rows'[|rows|])
            && (forall i :: 0 <= i < |rows| - 1 ==> rows'[i] == rows[i])
            && (rows != [] ==> rows'[|rows| - 1] ==
                               rows[|rows| - 1].(supersededBy := Some(|rows| + 1), state := Archived))
  {
    LatestIsLast(rows);
    RegisterKeepsChain(rows, d);
    LatestIsLast(Register(rows, d));
  }

  /** Setting the state of a version sets that one's, and leaves everything else; of a version there is not,
      nothing. */
  lemma OneStateIsSet(rows: seq<Row>, version: nat, state: Lifecycle)
    requires Chain(rows)
    ensures WithState(rows, version, state) ==
            if 1 <= version <= |rows| then rows[version - 1 := rows[version - 1].(state := state)] else rows
  {
  }
}
