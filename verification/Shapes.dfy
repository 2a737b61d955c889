/** What each kind of node may record as its output, and which paths into it are always there. */
module Shapes {
  import opened Values
  import opened References
  import opened Dsl
  import opened Executor
  import opened Client

  // The node may come to record this output, by what an adapter answers that the client lets through.
  ghost predicate CanRecord(onError: OnError, node: Node, output: Json) {
    match node
    case Action(_, _, _, _, _, _) =>
      || (onError != Compensate && exists code :: output == Refused(code))
      || exists reply: CommitReply, id :: Settles(reply, id) && output == StateOutput(reply, id)
    case Query(_, _, _, _, _) => output.Obj?
    case Condition(_, _, _, _, _) => output.Bool?
    case AwaitApproval(_, _, _, _, _) => IsVerdict(output)
    case Parallel(_, branches, _) => output == BranchNames(branches)
    case Foreach(_, _, _, _, _, _) => exists n: nat :: output == Counted(n)
    case Wait(_, _) => output == Null
    case Notify(_, _, _) => output == Null
  }

  // The reply to a commit of this proposal, as the client lets it through.
  predicate Settles(reply: CommitReply, id: string) {
    !reply.Lost? && CommitShape(reply) && IsProposalId(id)
  }

  function Refused(code: string): Json {
    Obj(map["refused" := Str(code)])
  }

  function Counted(n: nat): Json {
    Obj(map["count" := Int(n)])
  }

  predicate IsVerdict(output: Json) {
    output == Str("approved") || output == Str("rejected") || output == Str("timeout")
  }

  // The path is there in every output the node may record.
  predicate Offers(onError: OnError, node: Node, path: seq<Segment>) {
    path == [] ||
    match node
    case Action(_, _, _, _, _, _) => onError == Compensate && OffersId(path)
    case AwaitApproval(_, _, _, _, _) =>
      && Follow(Str("approved"), path).Some? && Follow(Str("rejected"), path).Some? &&
         Follow(Str("timeout"), path).Some?
    case Parallel(_, branches, _) => Follow(BranchNames(branches), path).Some?
    case Foreach(_, _, _, _, _, _) => path == [Field("count")]
    case _ => false
  }

  // The path leads to the proposal id, or to a character that every id has.
  predicate OffersId(path: seq<Segment>) {
    path != [] && path[0] == Field("proposal") && Follow(Str(SOME_ID), path[1..]).Some?
  }

  lemma FollowField(v: Json, path: seq<Segment>, name: string)
    requires path != [] && path[0] == Field(name)
    ensures v.Obj? && name in v.fields ==> Follow(v, path) == Follow(v.fields[name], path[1..])
    ensures !(v.Obj? && name in v.fields) ==> Follow(v, path) == None
  {
  }

  lemma NothingInside(v: Json, path: seq<Segment>)
    requires path != [] && (v.Null? || v.Bool? || v.Int? || v == Obj(map[]))
    ensures Follow(v, path) == None
  {
  }

  lemma NoIndexInFields(v: Json, path: seq<Segment>)
    requires path != [] && path[0].Index? && v.Obj?
    ensures Follow(v, path) == None
  {
  }

  // --- actions ------------------------------------------------------------------------------------

  // What can be followed into a text can be followed into any text as long.
  lemma {:induction false} LongerTextsOffer(s: string, t: string, path: seq<Segment>)
    requires |s| <= |t| && Follow(Str(s), path).Some?
    ensures Follow(Str(t), path).Some?
    decreases |path|
  {
    if path != [] {
      var i := path[0].i;
      LongerTextsOffer([s[i]], [t[i]], path[1..]);
    }
  }

  lemma IdIsAlwaysThere(reply: CommitReply, id: string, path: seq<Segment>)
    requires Settles(reply, id) && OffersId(path)
    ensures Follow(StateOutput(reply, id), path).Some?
  {
    SomeIdIsOne();
    FollowField(StateOutput(reply, id), path, "proposal");
    LongerTextsOffer(SOME_ID, if reply.Status? then reply.proposal.s else id, path[1..]);
  }

  const PLAIN := CommitReply.Status(Str(SOME_ID), Null)
  const PARKED := CommitReply.Parked(Null)

  // The answer to a commit that lacks what the path asks for.
  function Lacking(path: seq<Segment>): CommitReply {
    if path != [] && path[0] == Field("state") then PARKED else PLAIN
  }

  lemma LackingSettles(path: seq<Segment>)
    ensures Settles(Lacking(path), SOME_ID)
  {
    SomeIdIsOne();
  }

  lemma LackingLacks(path: seq<Segment>)
    requires path != [] && !OffersId(path)
    ensures Follow(StateOutput(Lacking(path), SOME_ID), path) == None
  {
    var v := StateOutput(Lacking(path), SOME_ID);
    if path[0].Index? {
      NoIndexInFields(v, path);
    } else {
      FollowField(v, path, path[0].name);
      if path[0] == Field("state") {
        assert "state" !in v.fields;
      }
    }
  }

  lemma RefusalLacks(path: seq<Segment>, code: string)
    requires path != [] && path[0] != Field("refused")
    ensures Follow(Refused(code), path) == None
  {
    if path[0].Index? {
      NoIndexInFields(Refused(code), path);
    } else {
      FollowField(Refused(code), path, path[0].name);
    }
  }

  lemma ActionShape(onError: OnError, node: Node, path: seq<Segment>)
    requires node.Action?
    ensures Offers(onError, node, path) <==>
            forall output :: CanRecord(onError, node, output) ==> Follow(output, path).Some?
  {
    if Offers(onError, node, path) && path != [] {
      forall output | CanRecord(onError, node, output) ensures Follow(output, path).Some? {
        var reply: CommitReply, id :| Settles(reply, id) && output == StateOutput(reply, id);
        IdIsAlwaysThere(reply, id, path);
      }
    }
    if !Offers(onError, node, path) {
      if onError != Compensate && path[0] != Field("refused") {
        RefusalLacks(path, "");
        assert CanRecord(onError, node, Refused(""));
      } else {
        LackingSettles(path);
        LackingLacks(path);
        assert CanRecord(onError, node, StateOutput(Lacking(path), SOME_ID));
      }
    }
  }

  // --- the other nodes ------------------------------------------------------------------------------

  lemma CountShape(path: seq<Segment>, n: nat)
    ensures Follow(Counted(n), path).Some? <==> path == [] || path == [Field("count")]
  {
    if path != [] {
      if path[0].Index? {
        NoIndexInFields(Counted(n), path);
      } else {
        FollowField(Counted(n), path, path[0].name);
        assert path == [path[0]] + path[1..];
        if path[0] == Field("count") && path[1..] != [] {
          NothingInside(Int(n), path[1..]);
        }
      }
    }
  }

  lemma VerdictShape(path: seq<Segment>)
    ensures (forall output :: IsVerdict(output) ==> Follow(output, path).Some?) <==>
            Follow(Str("approved"), path).Some? && Follow(Str("rejected"), path).Some? &&
            Follow(Str("timeout"), path).Some?
  {
    assert IsVerdict(Str("approved")) && IsVerdict(Str("rejected")) && IsVerdict(Str("timeout"));
  }

  /** A path is offered exactly when it can be followed into everything that the node may record. */
  lemma OffersExactly(onError: OnError, node: Node, path: seq<Segment>)
    ensures Offers(onError, node, path) <==>
            forall output :: CanRecord(onError, node, output) ==> Follow(output, path).Some?
  {
    match node
    case Action(_, _, _, _, _, _) => ActionShape(onError, node, path);
    case AwaitApproval(_, _, _, _, _) => VerdictShape(path);
    case Foreach(_, _, _, _, _, _) =>
      CountShape(path, 0);
      forall n: nat ensures Follow(Counted(n), path).Some? <==> path == [] || path == [Field("count")] {
        CountShape(path, n);
      }
      assert CanRecord(onError, node, Counted(0));
    case Parallel(_, branches, _) => assert CanRecord(onError, node, BranchNames(branches));
    case Query(_, _, _, _, _) => NothingIn(onError, node, path, Obj(map[]));
    case Condition(_, _, _, _, _) => NothingIn(onError, node, path, Bool(true));
    case Wait(_, _) => NothingIn(onError, node, path, Null);
    case Notify(_, _, _) => NothingIn(onError, node, path, Null);
  }

  lemma NothingIn(onError: OnError, node: Node, path: seq<Segment>, output: Json)
    requires CanRecord(onError, node, output) && (output.Null? || output.Bool? || output == Obj(map[]))
    ensures path != [] ==> !(forall output :: CanRecord(onError, node, output) ==> Follow(output, path).Some?)
  {
    if path != [] {
      NothingInside(output, path);
    }
  }
}
