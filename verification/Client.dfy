/** What the client lets through of an adapter's answers; anything else it raises on, which the executor sees
    as a lost reply. */
module Client {
  import opened Values
  import opened References
  import opened Executor

  predicate IsIdChar(c: char) {
    'a' <= c <= 'z' || 'A' <= c <= 'Z' || '0' <= c <= '9' || c == '_' || c == '-'
  }

  predicate IsProposalId(s: string) {
    8 <= |s| <= 128 && forall k :: 0 <= k < |s| ==> IsIdChar(s[k])
  }

  predicate TextOrNull(v: Json) {
    v.Null? || v.Str?
  }

  // A proposal has an id and no code; a refusal has a code.
  predicate ProposeAnswer(r: ProposeReply) {
    match r
    case Lost => true
    case Proposal(isRefusal, id, code) =>
      if isRefusal then code.Some? && (id == "" || IsProposalId(id)) else code.None? && IsProposalId(id)
  }

  // A status names its proposal.
  predicate CommitShape(r: CommitReply) {
    match r
    case Lost => true
    case Status(proposal, state) => proposal.Str? && IsProposalId(proposal.s) && TextOrNull(state)
    case Parked(tier) => TextOrNull(tier)
  }

  // A commit is only sent for a proposal id and under a key of at least eight characters.
  predicate CommitAnswer(proposal: string, key: string, r: CommitReply) {
    CommitShape(r) && (!r.Lost? ==> IsProposalId(proposal) && |key| >= 8)
  }

  predicate QueryAnswer(r: QueryReply) {
    r.Data? ==> r.data.Obj?
  }

  // A status is only asked for what makes a safe path; the pattern's end also matches before a newline.
  predicate StatusAnswer(asked: Json, r: StatusReply) {
    r.State? ==> asked.Str? && IsProposalId(WithoutFinalNewline(asked.s))
  }

  // An adapter, as it looks through the client.
  ghost predicate LetThrough(w: World) {
    && (forall n, verb, args :: ProposeAnswer(w.propose(n, verb, args)))
    && (forall n, proposal, key :: CommitAnswer(proposal, key, w.commit(n, proposal, key)))
    && (forall n, verb, args :: QueryAnswer(w.query(n, verb, args)))
    && (forall n, asked :: StatusAnswer(asked, w.status(n, asked)))
  }

  // Every node's key is as long as the client asks.
  ghost predicate LongKeys(run: Run) {
    forall id :: id in run.nodes ==> |IdemKey(run.runId, id)| >= 8
  }

  // The shortest kind of id.
  const SOME_ID := "pppppppp"

  lemma SomeIdIsOne()
    ensures IsProposalId(SOME_ID) && |SOME_ID| == 8
  {
  }
}
