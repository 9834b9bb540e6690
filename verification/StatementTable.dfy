/**
 The statement table: what one import does to the three linked maps.

 Authorities, digests, groups, signatures and candidates are abstract. The context is a record of
 the four functions a table is parameterised by. A step yields `Panicked` exactly where the program
 would hit its `expect` or its `panic!`, so that the absence of panics is something to prove.
 */
module StatementTable {
  import opened Options

  type AuthorityId(==, !new)
  type Digest(==, !new)
  type GroupId(==, !new)
  type Signature(==, !new)
  type Candidate(==, !new)

  datatype Context = Context(
    candidateDigest: Candidate -> Digest,
    candidateGroup: Candidate -> GroupId,
    isMemberOf: (AuthorityId, GroupId) -> bool,
    requisiteVotes: GroupId -> nat)

  datatype Statement = Seconded(candidate: Candidate) | Valid(digest: Digest)

  datatype SignedStatement = SignedStatement(statement: Statement, signature: Signature, sender: AuthorityId)

  datatype Misbehavior =
    | ValidityDoubleVote(issued: (Candidate, Signature), validity: (Digest, Signature))
    | MultipleCandidates(first: (Candidate, Signature), second: (Candidate, Signature))
    | UnauthorizedStatement(statement: SignedStatement)
    | DoubleSignSeconded(candidate: Candidate, a: Signature, b: Signature)
    | DoubleSignValidity(digest: Digest, a: Signature, b: Signature)

  datatype ValidityVote = IssuedVote(signature: Signature) | ValidVote(signature: Signature)

  datatype Summary = Summary(candidate: Digest, groupId: GroupId, validityVotes: nat)

  datatype CandidateData = CandidateData(
    groupId: GroupId,
    candidate: Candidate,
    validityVotes: map<AuthorityId, ValidityVote>)

  datatype AuthorityData = AuthorityData(proposal: Option<(Digest, Signature)>)

  /** The contents of a table. */
  datatype TableState = TableState(
    authorityData: map<AuthorityId, AuthorityData>,
    detectedMisbehavior: map<AuthorityId, seq<Misbehavior>>,
    candidateVotes: map<Digest, CandidateData>)

  const EMPTY := TableState(map[], map[], map[])

  /** What the two internal import functions return, with the table they leave behind. */
  datatype Outcome =
    | Accepted(table: TableState, summary: Option<Summary>)
    | Rejected(table: TableState, misbehavior: Misbehavior)
    | Failed

  /** What one import of a signed statement returns, with the table it leaves behind. */
  datatype ImportResult = Done(table: TableState, summary: Option<Summary>) | Panicked

  function Conflict(data: CandidateData, digest: Digest, held: ValidityVote, vote: ValidityVote): Misbehavior {
    match (held, vote)
    case (IssuedVote(iss), ValidVote(good)) => ValidityDoubleVote((data.candidate, iss), (digest, good))
    case (ValidVote(good), IssuedVote(iss)) => ValidityDoubleVote((data.candidate, iss), (digest, good))
    case (IssuedVote(a), IssuedVote(b)) => DoubleSignSeconded(data.candidate, a, b)
    case (ValidVote(a), ValidVote(b)) => DoubleSignValidity(digest, a, b)
  }

  function CastVote(ctx: Context, t: TableState, from: AuthorityId, digest: Digest, vote: ValidityVote): Outcome {
    if digest !in t.candidateVotes then Accepted(t, None)
    else
      var data := t.candidateVotes[digest];
      if !ctx.isMemberOf(from, data.groupId) then
        match vote
        case ValidVote(s) => Rejected(t, UnauthorizedStatement(SignedStatement(Valid(digest), s, from)))
        case IssuedVote(_) => Failed
      else if from in data.validityVotes then
        var held := data.validityVotes[from];
        if held != vote then Rejected(t, Conflict(data, digest, held, vote)) else Accepted(t, None)
      else
        var data' := data.(validityVotes := data.validityVotes[from := vote]);
        Accepted(t.(candidateVotes := t.candidateVotes[digest := data']),
                 Some(Summary(digest, data'.groupId, |data'.validityVotes|)))
  }

  predicate HasProposal(t: TableState, a: AuthorityId) {
    a in t.authorityData && t.authorityData[a].proposal.Some?
  }

  /** The table once `authority`'s first proposal has been noted. */
  function NoteProposal(ctx: Context, t: TableState, authority: AuthorityId, candidate: Candidate, signature: Signature)
    : TableState
  {
    var digest := ctx.candidateDigest(candidate);
    t.(authorityData := t.authorityData[authority := AuthorityData(Some((digest, signature)))],
       candidateVotes :=
         if digest in t.candidateVotes then t.candidateVotes
         else t.candidateVotes[digest := CandidateData(ctx.candidateGroup(candidate), candidate, map[])])
  }

  function SecondCandidate(ctx: Context, t: TableState, authority: AuthorityId, candidate: Candidate,
                           signature: Signature)
    : Outcome
  {
    var group := ctx.candidateGroup(candidate);
    if !ctx.isMemberOf(authority, group) then
      Rejected(t, UnauthorizedStatement(SignedStatement(Seconded(candidate), signature, authority)))
    else
      var digest := ctx.candidateDigest(candidate);
      if HasProposal(t, authority) then
        var (oldDigest, oldSig) := t.authorityData[authority].proposal.value;
        if oldDigest != digest then
          if oldDigest !in t.candidateVotes then Failed
          else
            Rejected(t, MultipleCandidates((t.candidateVotes[oldDigest].candidate, oldSig), (candidate, signature)))
        else CastVote(ctx, t, authority, digest, IssuedVote(signature))
      else
        CastVote(ctx, NoteProposal(ctx, t, authority, candidate, signature), authority, digest, IssuedVote(signature))
  }

  function Reports(t: TableState, a: AuthorityId): seq<Misbehavior> {
    if a in t.detectedMisbehavior then t.detectedMisbehavior[a] else []
  }

  function Report(t: TableState, a: AuthorityId, m: Misbehavior): TableState {
    t.(detectedMisbehavior := t.detectedMisbehavior[a := Reports(t, a) + [m]])
  }

  function Process(ctx: Context, t: TableState, s: SignedStatement): Outcome {
    match s.statement
    case Seconded(candidate) => SecondCandidate(ctx, t, s.sender, candidate, s.signature)
    case Valid(digest) => CastVote(ctx, t, s.sender, digest, ValidVote(s.signature))
  }

  function Import(ctx: Context, t: TableState, s: SignedStatement): ImportResult {
    match Process(ctx, t, s)
    case Accepted(t', summary) => Done(t', summary)
    case Rejected(t', m) => Done(Report(t', s.sender, m), None)
    case Failed => Panicked
  }

  /** The table after a whole sequence of imports, or `None` when one of them panics. */
  function Run(ctx: Context, t: TableState, ss: seq<SignedStatement>): Option<TableState>
    decreases |ss|
  {
    if ss == [] then Some(t)
    else
      match Import(ctx, t, ss[0])
      case Panicked => None
      case Done(t', _) => Run(ctx, t', ss[1..])
  }

  /** What an includable candidate is exported as: one attestation per voter, in no particular order. */
  datatype ValidityAttestation = Implicit(signature: Signature) | Explicit(signature: Signature)

  datatype AttestedCandidate = AttestedCandidate(
    groupId: GroupId,
    candidate: Candidate,
    validityVotes: map<AuthorityId, ValidityAttestation>)

  function Attestation(v: ValidityVote): ValidityAttestation {
    match v
    case IssuedVote(s) => Implicit(s)
    case ValidVote(s) => Explicit(s)
  }

  function Attested(data: CandidateData, threshold: nat): Option<AttestedCandidate> {
    if |data.validityVotes| < threshold then None
    else
      Some(AttestedCandidate(data.groupId, data.candidate,
                             map a | a in data.validityVotes :: Attestation(data.validityVotes[a])))
  }

  function Attest(ctx: Context, t: TableState, digest: Digest): Option<AttestedCandidate> {
    if digest !in t.candidateVotes then None
    else
      var data := t.candidateVotes[digest];
      Attested(data, ctx.requisiteVotes(data.groupId))
  }
}
