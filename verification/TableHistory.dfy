/** How imports relate to each other: what later imports cannot undo, and which imports commute. */
module TableHistory {
  import opened Options
  import opened Sets
  import opened StatementTable
  import opened TableInvariants
  import opened TableReports

  lemma {:induction false} RunExtends(ctx: Context, t: TableState, ss: seq<SignedStatement>)
    requires Run(ctx, t, ss).Some?
    ensures Extends(t, Run(ctx, t, ss).value)
    decreases |ss|
  {
    if ss == [] {
    } else {
      ImportExtends(ctx, t, ss[0]);
      RunExtends(ctx, Import(ctx, t, ss[0]).table, ss[1..]);
    }
  }

  lemma MoreKeys<K, V, W>(m: map<K, V>, m': map<K, W>)
    requires m.Keys <= m'.Keys
    ensures |m| <= |m'|
  {
    SubsetCard(m.Keys, m'.Keys);
  }

  /** An attested candidate stays attested through every later import, and its votes only grow. */
  lemma AttestationIsStable(ctx: Context, t: TableState, ss: seq<SignedStatement>, d: Digest)
    requires Run(ctx, t, ss).Some? && Attest(ctx, t, d).Some?
    ensures var before, after := Attest(ctx, t, d).value, Attest(ctx, Run(ctx, t, ss).value, d);
            && after.Some?
            && after.value.groupId == before.groupId && after.value.candidate == before.candidate
            && forall a :: a in before.validityVotes ==>
                 a in after.value.validityVotes && after.value.validityVotes[a] == before.validityVotes[a]
  {
    RunExtends(ctx, t, ss);
    MoreKeys(t.candidateVotes[d].validityVotes, Run(ctx, t, ss).value.candidateVotes[d].validityVotes);
  }

  /**
   In a reachable table, a candidate is attested exactly when it has enough votes. What is attested has the digest
   asked for, enough votes, and members only as voters.
   */
  lemma AttestedByGroup(ctx: Context, ss: seq<SignedStatement>, d: Digest)
    requires Coherent(ctx)
    ensures Run(ctx, EMPTY, ss).Some?
    ensures var t := Run(ctx, EMPTY, ss).value;
            Attest(ctx, t, d).Some? <==>
            && d in t.candidateVotes
            && |t.candidateVotes[d].validityVotes| >= ctx.requisiteVotes(t.candidateVotes[d].groupId)
    ensures var r := Attest(ctx, Run(ctx, EMPTY, ss).value, d);
            r.Some? ==>
              && ctx.candidateDigest(r.value.candidate) == d
              && r.value.groupId == ctx.candidateGroup(r.value.candidate)
              && |r.value.validityVotes| >= ctx.requisiteVotes(r.value.groupId)
              && (forall a :: a in r.value.validityVotes ==> ctx.isMemberOf(a, r.value.groupId))
              && forall a :: a in r.value.validityVotes <==> HasVoted(Run(ctx, EMPTY, ss).value, d, a)
  {
    RunKeepsWellFormed(ctx, EMPTY, ss);
    var t := Run(ctx, EMPTY, ss).value;
    if d in t.candidateVotes {
      var data := t.candidateVotes[d];
      var votes := map a | a in data.validityVotes :: Attestation(data.validityVotes[a]);
      MoreKeys(data.validityVotes, votes);
      forall a | a in data.validityVotes
        ensures ctx.isMemberOf(a, data.groupId)
      {
      }
    }
  }

  /** The statement that an attestation stands for: seconding if implicit, a validity vote if explicit. */
  function AttestedStatement(c: Candidate, d: Digest, a: AuthorityId, att: ValidityAttestation): SignedStatement {
    SignedStatement(if att.Implicit? then Seconded(c) else Valid(d), att.signature, a)
  }

  /** Each attestation is a statement its voter signed and sent. */
  lemma AttestationsWereSigned(ctx: Context, ss: seq<SignedStatement>, d: Digest, a: AuthorityId)
    requires UniqueDigests(ctx)
    ensures Run(ctx, EMPTY, ss).Some?
    ensures var r := Attest(ctx, Run(ctx, EMPTY, ss).value, d);
            r.Some? && a in r.value.validityVotes ==>
              AttestedStatement(r.value.candidate, d, a, r.value.validityVotes[a]) in ss
  {
    RunIsSoundAndComplete(ctx, EMPTY, {}, ss);
    var t := Run(ctx, EMPTY, ss).value;
    if HasVoted(t, d, a) {
      var data := t.candidateVotes[d];
      EffectiveWasSent(ctx, EMPTY, ss, VoteStatement(data.candidate, d, a, data.validityVotes[a]));
    }
  }

  /** A statement that once counted changes nothing when it arrives again, whatever came in between. */
  lemma ReimportIsIdle(ctx: Context, t: TableState, s: SignedStatement, ss: seq<SignedStatement>)
    requires Import(ctx, t, s).Done? && Import(ctx, t, s).summary.Some?
    requires Run(ctx, Import(ctx, t, s).table, ss).Some?
    ensures var t' := Run(ctx, Import(ctx, t, s).table, ss).value;
            Import(ctx, t', s) == Done(t', None)
  {
    var t1 := Import(ctx, t, s).table;
    RunExtends(ctx, t1, ss);
    if s.statement.Seconded? {
      var d := ctx.candidateDigest(s.statement.candidate);
      assert HasProposal(t1, s.sender) && t1.authorityData[s.sender].proposal.value.0 == d;
    }
  }

  /** `s1` brings the candidate that `s2` votes on into the table. */
  ghost predicate Introduces(ctx: Context, t: TableState, s1: SignedStatement, s2: SignedStatement) {
    && s1.statement.Seconded? && s2.statement.Valid?
    && ctx.candidateDigest(s1.statement.candidate) == s2.statement.digest
    && s2.statement.digest !in t.candidateVotes
    && ctx.isMemberOf(s1.sender, ctx.candidateGroup(s1.statement.candidate))
    && !HasProposal(t, s1.sender)
  }

  /** What an import changes: at most one proposal, one vote and one report, all keyed by the sender. */
  datatype Effect = Effect(
    proposal: Option<(Digest, Signature)>,
    cast: Option<(Digest, CandidateData, ValidityVote)>,
    report: Option<Misbehavior>)

  const NOTHING := Effect(None, None, None)

  function AddVote(votes: map<Digest, CandidateData>, a: AuthorityId, d: Digest, blank: CandidateData, v: ValidityVote)
    : map<Digest, CandidateData>
  {
    var data := if d in votes then votes[d] else blank;
    votes[d := data.(validityVotes := data.validityVotes[a := v])]
  }

  function Apply(t: TableState, a: AuthorityId, e: Effect): TableState {
    TableState(
      if e.proposal.Some? then t.authorityData[a := AuthorityData(e.proposal)] else t.authorityData,
      if e.report.Some? then t.detectedMisbehavior[a := Reports(t, a) + [e.report.value]] else t.detectedMisbehavior,
      if e.cast.Some? then AddVote(t.candidateVotes, a, e.cast.value.0, e.cast.value.1, e.cast.value.2)
      else t.candidateVotes)
  }

  function Blank(data: CandidateData): CandidateData {
    data.(validityVotes := map[])
  }

  /** The effect of a vote by a member on the known candidate `d`. */
  function VoteEffect(t: TableState, a: AuthorityId, d: Digest, v: ValidityVote): Effect
    requires d in t.candidateVotes
  {
    var data := t.candidateVotes[d];
    if a !in data.validityVotes then Effect(None, Some((d, Blank(data), v)), None)
    else if data.validityVotes[a] == v then NOTHING
    else Effect(None, None, Some(Conflict(data, d, data.validityVotes[a], v)))
  }

  function SecondedEffect(ctx: Context, t: TableState, a: AuthorityId, c: Candidate, sig: Signature): Effect
    requires WellFormed(ctx, t)
  {
    var d := ctx.candidateDigest(c);
    if !ctx.isMemberOf(a, ctx.candidateGroup(c)) then
      Effect(None, None, Some(UnauthorizedStatement(SignedStatement(Seconded(c), sig, a))))
    else if HasProposal(t, a) then
      assert ProposalOk(t, a);
      var (d0, sig0) := t.authorityData[a].proposal.value;
      if d0 != d then Effect(None, None, Some(MultipleCandidates((t.candidateVotes[d0].candidate, sig0), (c, sig))))
      else VoteEffect(t, a, d, IssuedVote(sig))
    else if d in t.candidateVotes then VoteEffect(t, a, d, IssuedVote(sig)).(proposal := Some((d, sig)))
    else Effect(Some((d, sig)), Some((d, CandidateData(ctx.candidateGroup(c), c, map[]), IssuedVote(sig))), None)
  }

  function ValidEffect(ctx: Context, t: TableState, a: AuthorityId, d: Digest, sig: Signature): Effect {
    if d !in t.candidateVotes then NOTHING
    else if !ctx.isMemberOf(a, t.candidateVotes[d].groupId) then
      Effect(None, None, Some(UnauthorizedStatement(SignedStatement(Valid(d), sig, a))))
    else VoteEffect(t, a, d, ValidVote(sig))
  }

  function EffectOf(ctx: Context, t: TableState, s: SignedStatement): Effect
    requires WellFormed(ctx, t)
  {
    match s.statement
    case Seconded(c) => SecondedEffect(ctx, t, s.sender, c, s.signature)
    case Valid(d) => ValidEffect(ctx, t, s.sender, d, s.signature)
  }

  lemma ValidAppliesEffect(ctx: Context, t: TableState, a: AuthorityId, d: Digest, sig: Signature)
    ensures Import(ctx, t, SignedStatement(Valid(d), sig, a)).Done?
    ensures Import(ctx, t, SignedStatement(Valid(d), sig, a)).table == Apply(t, a, ValidEffect(ctx, t, a, d, sig))
  {
  }

  lemma RepeatedAppliesEffect(ctx: Context, t: TableState, a: AuthorityId, c: Candidate, sig: Signature)
    requires WellFormed(ctx, t) && HasProposal(t, a) && ctx.isMemberOf(a, ctx.candidateGroup(c))
    ensures Import(ctx, t, SignedStatement(Seconded(c), sig, a)).Done?
    ensures Import(ctx, t, SignedStatement(Seconded(c), sig, a)).table == Apply(t, a, SecondedEffect(ctx, t, a, c, sig))
  {
  }

  lemma FirstAppliesEffect(ctx: Context, t: TableState, a: AuthorityId, c: Candidate, sig: Signature)
    requires WellFormed(ctx, t) && !HasProposal(t, a) && ctx.isMemberOf(a, ctx.candidateGroup(c))
    requires !SecondCandidate(ctx, t, a, c, sig).Failed?
    ensures Import(ctx, t, SignedStatement(Seconded(c), sig, a)).Done?
    ensures Import(ctx, t, SignedStatement(Seconded(c), sig, a)).table == Apply(t, a, SecondedEffect(ctx, t, a, c, sig))
  {
  }

  /** An import is the application of its effect. */
  lemma ImportAppliesEffect(ctx: Context, t: TableState, s: SignedStatement)
    requires Coherent(ctx) && WellFormed(ctx, t)
    ensures Import(ctx, t, s).Done? && Import(ctx, t, s).table == Apply(t, s.sender, EffectOf(ctx, t, s))
  {
    ImportDoesNotPanic(ctx, t, s);
    match s.statement {
      case Valid(d) =>
        ValidAppliesEffect(ctx, t, s.sender, d, s.signature);
      case Seconded(c) =>
        if ctx.isMemberOf(s.sender, ctx.candidateGroup(c)) {
          if HasProposal(t, s.sender) {
            RepeatedAppliesEffect(ctx, t, s.sender, c, s.signature);
          } else {
            FirstAppliesEffect(ctx, t, s.sender, c, s.signature);
          }
        }
    }
  }

  /** The two tables hold the same about `b` and about the candidates of the first. */
  ghost predicate SameFor(t: TableState, t': TableState, b: AuthorityId) {
    && (b in t.authorityData <==> b in t'.authorityData)
    && (b in t.authorityData ==> t.authorityData[b] == t'.authorityData[b])
    && forall d :: d in t.candidateVotes ==>
         && d in t'.candidateVotes
         && Blank(t.candidateVotes[d]) == Blank(t'.candidateVotes[d])
         && (b in t.candidateVotes[d].validityVotes <==> b in t'.candidateVotes[d].validityVotes)
         && (b in t.candidateVotes[d].validityVotes ==>
               t.candidateVotes[d].validityVotes[b] == t'.candidateVotes[d].validityVotes[b])
  }

  lemma ApplyIsSameForOthers(t: TableState, a: AuthorityId, e: Effect, b: AuthorityId)
    requires a != b
    ensures SameFor(t, Apply(t, a, e), b)
    ensures forall d :: d in Apply(t, a, e).candidateVotes && d !in t.candidateVotes ==>
              e.cast.Some? && d == e.cast.value.0 && Blank(Apply(t, a, e).candidateVotes[d]) == Blank(e.cast.value.1)
    ensures forall d :: d in Apply(t, a, e).candidateVotes && d !in t.candidateVotes ==>
              Apply(t, a, e).candidateVotes[d].validityVotes == e.cast.value.1.validityVotes[a := e.cast.value.2]
  {
  }

  lemma ValidEffectSame(ctx: Context, t: TableState, t': TableState, b: AuthorityId, d: Digest, sig: Signature)
    requires SameFor(t, t', b) && (d in t'.candidateVotes ==> d in t.candidateVotes)
    ensures ValidEffect(ctx, t', b, d, sig) == ValidEffect(ctx, t, b, d, sig)
  {
  }

  lemma SecondedEffectSame(ctx: Context, t: TableState, t': TableState, b: AuthorityId, c: Candidate, sig: Signature)
    requires WellFormed(ctx, t) && WellFormed(ctx, t') && SameFor(t, t', b)
    requires var d := ctx.candidateDigest(c);
             d in t'.candidateVotes && d !in t.candidateVotes ==>
               && Blank(t'.candidateVotes[d]) == CandidateData(ctx.candidateGroup(c), c, map[])
               && b !in t'.candidateVotes[d].validityVotes
    ensures SecondedEffect(ctx, t', b, c, sig) == SecondedEffect(ctx, t, b, c, sig)
  {
  }

  /** The digests a statement adds to the table are those of the candidate it seconds. */
  lemma CastIsOwn(ctx: Context, t: TableState, s: SignedStatement)
    requires WellFormed(ctx, t)
    ensures var e := EffectOf(ctx, t, s);
            e.cast.Some? && e.cast.value.0 !in t.candidateVotes ==>
              && s.statement.Seconded?
              && e.cast.value.0 == ctx.candidateDigest(s.statement.candidate)
              && e.cast.value.1 ==
                 CandidateData(ctx.candidateGroup(s.statement.candidate), s.statement.candidate, map[])
              && ctx.isMemberOf(s.sender, ctx.candidateGroup(s.statement.candidate))
              && !HasProposal(t, s.sender)
  {
  }

  /** Another authority's import leaves the effect of `s2` as it was, unless it introduces the candidate. */
  lemma EffectIsLocal(ctx: Context, t: TableState, s1: SignedStatement, s2: SignedStatement)
    requires UniqueDigests(ctx) && WellFormed(ctx, t) && s1.sender != s2.sender
    requires !Introduces(ctx, t, s1, s2)
    requires WellFormed(ctx, Apply(t, s1.sender, EffectOf(ctx, t, s1)))
    ensures EffectOf(ctx, Apply(t, s1.sender, EffectOf(ctx, t, s1)), s2) == EffectOf(ctx, t, s2)
  {
    var e := EffectOf(ctx, t, s1);
    var t1 := Apply(t, s1.sender, e);
    ApplyIsSameForOthers(t, s1.sender, e, s2.sender);
    CastIsOwn(ctx, t, s1);
    match s2.statement {
      case Valid(d) =>
        ValidEffectSame(ctx, t, t1, s2.sender, d, s2.signature);
      case Seconded(c) =>
        SecondedEffectSame(ctx, t, t1, s2.sender, c, s2.signature);
    }
  }

  lemma UpdatesCommute<K, V>(m: map<K, V>, a: K, x: V, b: K, y: V)
    requires a != b
    ensures m[a := x][b := y] == m[b := y][a := x]
  {
  }

  lemma AddVotesCommute(m: map<Digest, CandidateData>, a: AuthorityId, d: Digest, blank: CandidateData, v: ValidityVote,
                        b: AuthorityId, d': Digest, blank': CandidateData, w: ValidityVote)
    requires a != b && (d == d' ==> blank == blank' || d in m)
    ensures AddVote(AddVote(m, a, d, blank, v), b, d', blank', w) ==
            AddVote(AddVote(m, b, d', blank', w), a, d, blank, v)
  {
    if d == d' {
      var data := if d in m then m[d] else blank;
      UpdatesCommute(data.validityVotes, a, v, b, w);
    }
  }

  lemma ApplyCommutes(t: TableState, a: AuthorityId, e: Effect, b: AuthorityId, f: Effect)
    requires a != b
    requires e.cast.Some? && f.cast.Some? && e.cast.value.0 == f.cast.value.0 ==>
               e.cast.value.1 == f.cast.value.1 || e.cast.value.0 in t.candidateVotes
    ensures Apply(Apply(t, a, e), b, f) == Apply(Apply(t, b, f), a, e)
  {
    UpdatesCommute(t.authorityData, a, AuthorityData(e.proposal), b, AuthorityData(f.proposal));
    if e.report.Some? && f.report.Some? {
      UpdatesCommute(t.detectedMisbehavior, a, Reports(t, a) + [e.report.value], b, Reports(t, b) + [f.report.value]);
    }
    if e.cast.Some? && f.cast.Some? {
      AddVotesCommute(t.candidateVotes, a, e.cast.value.0, e.cast.value.1, e.cast.value.2,
                      b, f.cast.value.0, f.cast.value.1, f.cast.value.2);
    }
  }

  /** Two imports from different authorities apply both effects as seen from the start. */
  lemma RunAppliesBoth(ctx: Context, t: TableState, s1: SignedStatement, s2: SignedStatement)
    requires UniqueDigests(ctx) && WellFormed(ctx, t) && s1.sender != s2.sender
    requires !Introduces(ctx, t, s1, s2)
    ensures Run(ctx, t, [s1, s2]) ==
            Some(Apply(Apply(t, s1.sender, EffectOf(ctx, t, s1)), s2.sender, EffectOf(ctx, t, s2)))
  {
    ImportAppliesEffect(ctx, t, s1);
    ImportKeepsWellFormed(ctx, t, s1);
    EffectIsLocal(ctx, t, s1, s2);
    ImportAppliesEffect(ctx, Import(ctx, t, s1).table, s2);
    RunTwo(ctx, t, s1, s2);
  }

  lemma CommuteUnlessIntroduced(ctx: Context, t: TableState, s1: SignedStatement, s2: SignedStatement)
    requires UniqueDigests(ctx) && WellFormed(ctx, t) && s1.sender != s2.sender
    requires !Introduces(ctx, t, s1, s2) && !Introduces(ctx, t, s2, s1)
    ensures Run(ctx, t, [s1, s2]) == Run(ctx, t, [s2, s1])
  {
    RunAppliesBoth(ctx, t, s1, s2);
    RunAppliesBoth(ctx, t, s2, s1);
    CastIsOwn(ctx, t, s1);
    CastIsOwn(ctx, t, s2);
    ApplyCommutes(t, s1.sender, EffectOf(ctx, t, s1), s2.sender, EffectOf(ctx, t, s2));
  }

  lemma RunTwo(ctx: Context, t: TableState, s1: SignedStatement, s2: SignedStatement)
    requires Import(ctx, t, s1).Done? && Import(ctx, Import(ctx, t, s1).table, s2).Done?
    ensures Run(ctx, t, [s1, s2]) == Some(Import(ctx, Import(ctx, t, s1).table, s2).table)
  {
    assert Run(ctx, Import(ctx, t, s1).table, [s2]) == Some(Import(ctx, Import(ctx, t, s1).table, s2).table);
  }

  /** A vote that arrives before its candidate is lost; after it, the vote is counted or reported. */
  lemma IntroductionMatters(ctx: Context, t: TableState, s1: SignedStatement, s2: SignedStatement)
    requires UniqueDigests(ctx) && WellFormed(ctx, t) && s1.sender != s2.sender
    requires Introduces(ctx, t, s1, s2)
    ensures Run(ctx, t, [s1, s2]) != Run(ctx, t, [s2, s1])
  {
    ImportKeepsWellFormed(ctx, t, s1);
    RunTwo(ctx, t, s1, s2);
    RunTwo(ctx, t, s2, s1);
  }

  /**
   Main result. From any well-formed table, imports from two different authorities give the same three
   maps in either order, if and only if neither is a vote on a candidate that the other introduces.
   */
  lemma ImportsCommuteExactly(ctx: Context, t: TableState, s1: SignedStatement, s2: SignedStatement)
    requires UniqueDigests(ctx) && WellFormed(ctx, t) && s1.sender != s2.sender
    ensures Run(ctx, t, [s1, s2]) == Run(ctx, t, [s2, s1]) <==>
            !Introduces(ctx, t, s1, s2) && !Introduces(ctx, t, s2, s1)
  {
    if Introduces(ctx, t, s1, s2) {
      IntroductionMatters(ctx, t, s1, s2);
    } else if Introduces(ctx, t, s2, s1) {
      IntroductionMatters(ctx, t, s2, s1);
    } else {
      CommuteUnlessIntroduced(ctx, t, s1, s2);
    }
  }
}
