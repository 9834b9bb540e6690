/** What every import keeps, and exactly when no run of imports can panic. */
module TableInvariants {
  import opened Options
  import opened StatementTable

  ghost predicate VoterOk(ctx: Context, t: TableState, d: Digest, a: AuthorityId)
    requires d in t.candidateVotes && a in t.candidateVotes[d].validityVotes
  {
    var data := t.candidateVotes[d];
    var vote := data.validityVotes[a];
    && ctx.isMemberOf(a, data.groupId)
    && (vote.IssuedVote? ==>
          a in t.authorityData && t.authorityData[a].proposal == Some((d, vote.signature)))
  }

  ghost predicate EntryOk(ctx: Context, t: TableState, d: Digest)
    requires d in t.candidateVotes
  {
    var data := t.candidateVotes[d];
    && ctx.candidateDigest(data.candidate) == d
    && data.groupId == ctx.candidateGroup(data.candidate)
    && data.validityVotes != map[]
    && forall a :: a in data.validityVotes ==> VoterOk(ctx, t, d, a)
  }

  ghost predicate ProposalOk(t: TableState, a: AuthorityId)
    requires a in t.authorityData
  {
    t.authorityData[a].proposal.Some? ==>
      var d := t.authorityData[a].proposal.value.0;
      d in t.candidateVotes && a in t.candidateVotes[d].validityVotes
  }

  /** The global invariant behind the "qed" comments of the source. */
  ghost predicate WellFormed(ctx: Context, t: TableState) {
    && (forall d :: d in t.candidateVotes ==> EntryOk(ctx, t, d))
    && (forall a :: a in t.authorityData ==> ProposalOk(t, a))
    && (forall a :: a in t.detectedMisbehavior ==> t.detectedMisbehavior[a] != [])
  }

  /** Candidates that share a digest have, between them, no member of one group missing from the other. */
  ghost predicate Coherent(ctx: Context) {
    forall c1, c2, a1, a2 ::
      && ctx.candidateDigest(c1) == ctx.candidateDigest(c2)
      && ctx.isMemberOf(a1, ctx.candidateGroup(c1))
      && ctx.isMemberOf(a2, ctx.candidateGroup(c2))
      ==> ctx.isMemberOf(a2, ctx.candidateGroup(c1))
  }

  /** A digest is a unique attribute of a candidate. */
  ghost predicate UniqueDigests(ctx: Context) {
    forall c1, c2 :: ctx.candidateDigest(c1) == ctx.candidateDigest(c2) ==> c1 == c2
  }

  lemma CastVoteKeeps(ctx: Context, t: TableState, from: AuthorityId, digest: Digest, s: Signature)
    requires WellFormed(ctx, t)
    ensures !CastVote(ctx, t, from, digest, ValidVote(s)).Failed?
    ensures WellFormed(ctx, CastVote(ctx, t, from, digest, ValidVote(s)).table)
  {
  }

  /** The entry a first proposal votes on: the existing one, or a fresh one without votes. */
  function EntryFor(ctx: Context, t: TableState, c: Candidate): CandidateData {
    var d := ctx.candidateDigest(c);
    if d in t.candidateVotes then t.candidateVotes[d] else CandidateData(ctx.candidateGroup(c), c, map[])
  }

  lemma FirstProposalShape(ctx: Context, t: TableState, a: AuthorityId, c: Candidate, s: Signature)
    requires !HasProposal(t, a) && ctx.isMemberOf(a, ctx.candidateGroup(c))
    requires !SecondCandidate(ctx, t, a, c, s).Failed?
    ensures var d := ctx.candidateDigest(c);
            var data := EntryFor(ctx, t, c);
            && ctx.isMemberOf(a, data.groupId)
            && SecondCandidate(ctx, t, a, c, s).table ==
               t.(authorityData := t.authorityData[a := AuthorityData(Some((d, s)))],
                  candidateVotes :=
                    t.candidateVotes[d := if a in data.validityVotes then data
                                          else data.(validityVotes := data.validityVotes[a := IssuedVote(s)])])
  {
  }

  lemma FirstProposalKeeps(ctx: Context, t: TableState, a: AuthorityId, c: Candidate, s: Signature)
    requires WellFormed(ctx, t) && !HasProposal(t, a) && ctx.isMemberOf(a, ctx.candidateGroup(c))
    requires !SecondCandidate(ctx, t, a, c, s).Failed?
    ensures WellFormed(ctx, SecondCandidate(ctx, t, a, c, s).table)
  {
    var d := ctx.candidateDigest(c);
    var data := EntryFor(ctx, t, c);
    FirstProposalShape(ctx, t, a, c, s);
    var data' := if a in data.validityVotes then data
                 else data.(validityVotes := data.validityVotes[a := IssuedVote(s)]);
    var t' := t.(authorityData := t.authorityData[a := AuthorityData(Some((d, s)))],
                 candidateVotes := t.candidateVotes[d := data']);
    ProposedTableOk(ctx, t, t', a, d, data, data', s);
  }

  lemma ProposedTableOk(ctx: Context, t: TableState, t': TableState, a: AuthorityId, d: Digest,
                        data: CandidateData, data': CandidateData, s: Signature)
    requires WellFormed(ctx, t) && !HasProposal(t, a)
    requires if d in t.candidateVotes then data == t.candidateVotes[d] else data.validityVotes == map[]
    requires ctx.candidateDigest(data.candidate) == d && data.groupId == ctx.candidateGroup(data.candidate)
    requires ctx.isMemberOf(a, data.groupId)
    requires data' == if a in data.validityVotes then data
                      else data.(validityVotes := data.validityVotes[a := IssuedVote(s)])
    requires t' == t.(authorityData := t.authorityData[a := AuthorityData(Some((d, s)))],
                      candidateVotes := t.candidateVotes[d := data'])
    ensures WellFormed(ctx, t')
  {
  }

  /** An import that does not panic keeps the invariant. */
  lemma ImportKeepsWellFormed(ctx: Context, t: TableState, s: SignedStatement)
    requires WellFormed(ctx, t) && Import(ctx, t, s).Done?
    ensures WellFormed(ctx, Import(ctx, t, s).table)
  {
    match s.statement {
      case Valid(d) =>
        CastVoteKeeps(ctx, t, s.sender, d, s.signature);
      case Seconded(c) =>
        if ctx.isMemberOf(s.sender, ctx.candidateGroup(c)) && !HasProposal(t, s.sender) {
          FirstProposalKeeps(ctx, t, s.sender, c, s.signature);
        }
    }
    ReportKeeps(ctx, Process(ctx, t, s), s.sender);
  }

  lemma ReportKeeps(ctx: Context, o: Outcome, a: AuthorityId)
    requires !o.Failed? && WellFormed(ctx, o.table)
    ensures o.Rejected? ==> WellFormed(ctx, Report(o.table, a, o.misbehavior))
  {
  }

  /** In a well-formed table neither the `expect` nor the `panic!` fires. */
  lemma ImportDoesNotPanic(ctx: Context, t: TableState, s: SignedStatement)
    requires Coherent(ctx) && WellFormed(ctx, t)
    ensures Import(ctx, t, s).Done?
  {
  }

  lemma {:induction false} RunKeepsWellFormed(ctx: Context, t: TableState, ss: seq<SignedStatement>)
    requires Coherent(ctx) && WellFormed(ctx, t)
    ensures Run(ctx, t, ss).Some? && WellFormed(ctx, Run(ctx, t, ss).value)
    decreases |ss|
  {
    if ss == [] {
    } else {
      ImportDoesNotPanic(ctx, t, ss[0]);
      ImportKeepsWellFormed(ctx, t, ss[0]);
      RunKeepsWellFormed(ctx, Import(ctx, t, ss[0]).table, ss[1..]);
    }
  }

  /** Two candidates with one digest but incompatible groups reach the `panic!` in two imports. */
  lemma CollisionPanics(ctx: Context, c1: Candidate, c2: Candidate, a1: AuthorityId, a2: AuthorityId, sig: Signature)
    requires ctx.candidateDigest(c1) == ctx.candidateDigest(c2)
    requires ctx.isMemberOf(a1, ctx.candidateGroup(c1)) && ctx.isMemberOf(a2, ctx.candidateGroup(c2))
    requires !ctx.isMemberOf(a2, ctx.candidateGroup(c1))
    ensures Run(ctx, EMPTY, [SignedStatement(Seconded(c1), sig, a1), SignedStatement(Seconded(c2), sig, a2)]).None?
  {
  }

  /** No run from the empty table panics, if and only if the context is coherent. */
  lemma PanicFreeExactlyWhenCoherent(ctx: Context, sig: Signature)
    ensures (forall ss :: Run(ctx, EMPTY, ss).Some?) <==> Coherent(ctx)
  {
    if Coherent(ctx) {
      forall ss
        ensures Run(ctx, EMPTY, ss).Some?
      {
        RunKeepsWellFormed(ctx, EMPTY, ss);
      }
    } else {
      var c1, c2, a1, a2 :|
        && ctx.candidateDigest(c1) == ctx.candidateDigest(c2)
        && ctx.isMemberOf(a1, ctx.candidateGroup(c1))
        && ctx.isMemberOf(a2, ctx.candidateGroup(c2))
        && !ctx.isMemberOf(a2, ctx.candidateGroup(c1));
      CollisionPanics(ctx, c1, c2, a1, a2, sig);
    }
  }

  /** In every reachable table, an authority's implicit votes all stand on the one candidate it proposed. */
  lemma OneImplicitVote(ctx: Context, ss: seq<SignedStatement>, a: AuthorityId, d1: Digest, d2: Digest)
    requires Coherent(ctx)
    ensures Run(ctx, EMPTY, ss).Some?
    ensures var t := Run(ctx, EMPTY, ss).value;
            && d1 in t.candidateVotes && a in t.candidateVotes[d1].validityVotes
            && d2 in t.candidateVotes && a in t.candidateVotes[d2].validityVotes
            && t.candidateVotes[d1].validityVotes[a].IssuedVote?
            && t.candidateVotes[d2].validityVotes[a].IssuedVote?
            ==> d1 == d2
  {
    RunKeepsWellFormed(ctx, EMPTY, ss);
    var t := Run(ctx, EMPTY, ss).value;
  }
}
