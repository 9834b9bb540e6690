/** The statement table as the program keeps it: three maps updated in place, and the draining iterator. */
module Table {
  import opened Options
  import opened Sequences
  import opened StatementTable
  import opened TableInvariants

  datatype VoteResult = Ok(summary: Option<Summary>) | Err(misbehavior: Misbehavior)

  /** The method returned `r` and left `t` behind, as the step says it should. */
  predicate Agrees(o: Outcome, t: TableState, r: VoteResult) {
    match o
    case Accepted(t', s) => t == t' && r == Ok(s)
    case Rejected(t', m) => t == t' && r == Err(m)
    case Failed => false
  }

  class Table {
    var authorityData: map<AuthorityId, AuthorityData>
    var detectedMisbehavior: map<AuthorityId, seq<Misbehavior>>
    var candidateVotes: map<Digest, CandidateData>

    constructor ()
      ensures Contents() == EMPTY
      ensures forall ctx :: WellFormed(ctx, Contents())
    {
      authorityData, detectedMisbehavior, candidateVotes := map[], map[], map[];
    }

    function Contents(): TableState
      reads this
    {
      TableState(authorityData, detectedMisbehavior, candidateVotes)
    }

    /** Imports a statement; the context is the same for every import into one table. */
    method ImportStatement(ctx: Context, s: SignedStatement) returns (summary: Option<Summary>)
      requires Coherent(ctx) && WellFormed(ctx, Contents())
      modifies this
      ensures Import(ctx, old(Contents()), s) == Done(Contents(), summary)
      ensures WellFormed(ctx, Contents())
    {
      ghost var before := Contents();
      ImportDoesNotPanic(ctx, before, s);
      ImportKeepsWellFormed(ctx, before, s);
      var res: VoteResult;
      match s.statement {
        case Seconded(candidate) => res := ImportCandidate(ctx, s.sender, candidate, s.signature);
        case Valid(digest) => res := ValidityVote(ctx, s.sender, digest, ValidVote(s.signature));
      }
      match res {
        case Ok(maybeSummary) =>
          summary := maybeSummary;
        case Err(misbehavior) =>
          var known := if s.sender in detectedMisbehavior then detectedMisbehavior[s.sender] else [];
          detectedMisbehavior := detectedMisbehavior[s.sender := known + [misbehavior]];
          summary := None;
      }
    }

    method ImportCandidate(ctx: Context, authority: AuthorityId, candidate: Candidate, signature: Signature)
      returns (res: VoteResult)
      requires WellFormed(ctx, Contents())
      requires !SecondCandidate(ctx, Contents(), authority, candidate, signature).Failed?
      modifies this
      ensures Agrees(SecondCandidate(ctx, old(Contents()), authority, candidate, signature), Contents(), res)
    {
      var group := ctx.candidateGroup(candidate);
      if !ctx.isMemberOf(authority, group) {
        return Err(UnauthorizedStatement(SignedStatement(Seconded(candidate), signature, authority)));
      }
      var digest := ctx.candidateDigest(candidate);
      var newProposal;
      if authority in authorityData && authorityData[authority].proposal.Some? {
        assert ProposalOk(Contents(), authority);
        var (oldDigest, oldSig) := authorityData[authority].proposal.value;
        if oldDigest != digest {
          var oldCandidate := candidateVotes[oldDigest].candidate;
          return Err(MultipleCandidates((oldCandidate, oldSig), (candidate, signature)));
        }
        newProposal := false;
      } else {
        authorityData := authorityData[authority := AuthorityData(Some((digest, signature)))];
        newProposal := true;
      }
      if newProposal && digest !in candidateVotes {
        candidateVotes := candidateVotes[digest := CandidateData(group, candidate, map[])];
      }
      res := ValidityVote(ctx, authority, digest, IssuedVote(signature));
    }

    method ValidityVote(ctx: Context, from: AuthorityId, digest: Digest, vote: ValidityVote)
      returns (res: VoteResult)
      requires !CastVote(ctx, Contents(), from, digest, vote).Failed?
      modifies this
      ensures Agrees(CastVote(ctx, old(Contents()), from, digest, vote), Contents(), res)
    {
      if digest !in candidateVotes {
        return Ok(None);
      }
      var votes := candidateVotes[digest];
      if !ctx.isMemberOf(from, votes.groupId) {
        match vote {
          case ValidVote(s) =>
            return Err(UnauthorizedStatement(SignedStatement(Valid(digest), s, from)));
          case IssuedVote(_) =>
            assert false;
        }
      }
      if from in votes.validityVotes {
        var held := votes.validityVotes[from];
        return if held != vote then Err(Conflict(votes, digest, held, vote)) else Ok(None);
      }
      votes := votes.(validityVotes := votes.validityVotes[from := vote]);
      candidateVotes := candidateVotes[digest := votes];
      res := Ok(Some(Summary(digest, votes.groupId, |votes.validityVotes|)));
    }

    /** Lists the reports, in whatever order the map yields its authorities. */
    method ListReports() returns (drain: seq<(AuthorityId, seq<Misbehavior>)>)
      ensures Enumerates(drain, detectedMisbehavior, {})
    {
      drain := [];
      var todo := detectedMisbehavior.Keys;
      while todo != {}
        invariant todo <= detectedMisbehavior.Keys
        invariant Enumerates(drain, detectedMisbehavior, todo)
      {
        var a :| a in todo;
        EnumerateOne(drain, detectedMisbehavior, todo, a);
        drain := drain + [(a, detectedMisbehavior[a])];
        todo := todo - {a};
      }
    }

    /** Empties the reports into an iterator. */
    method DrainMisbehaviors() returns (it: DrainMisbehaviors)
      requires forall a :: a in detectedMisbehavior ==> detectedMisbehavior[a] != []
      modifies this
      ensures Contents() == old(Contents()).(detectedMisbehavior := map[])
      ensures fresh(it) && it.Valid()
      ensures forall a :: OfAuthority(it.Remaining(), a) == Reports(old(Contents()), a)
    {
      var drain := ListReports();
      it := new DrainMisbehaviors(drain);
      forall a
        ensures OfAuthority(Flatten(drain), a) == Reports(old(Contents()), a)
      {
        EnumeratedReports(drain, old(Contents()), a);
      }
      detectedMisbehavior := map[];
    }
  }

  /** The entries of the map whose keys are not in `todo`, each once. */
  ghost predicate Enumerates(drain: seq<(AuthorityId, seq<Misbehavior>)>, reports: map<AuthorityId, seq<Misbehavior>>,
                             todo: set<AuthorityId>)
  {
    && (forall i :: 0 <= i < |drain| ==>
          drain[i].0 in reports && drain[i].0 !in todo && drain[i].1 == reports[drain[i].0])
    && (forall i, j :: 0 <= i < j < |drain| ==> drain[i].0 != drain[j].0)
    && (forall a :: a in reports && a !in todo ==> (a, reports[a]) in drain)
  }

  lemma EnumerateOne(drain: seq<(AuthorityId, seq<Misbehavior>)>, reports: map<AuthorityId, seq<Misbehavior>>,
                     todo: set<AuthorityId>, a: AuthorityId)
    requires Enumerates(drain, reports, todo) && a in todo && a in reports
    ensures Enumerates(drain + [(a, reports[a])], reports, todo - {a})
  {
  }

  lemma EnumeratedReports(drain: seq<(AuthorityId, seq<Misbehavior>)>, t: TableState, a: AuthorityId)
    requires Enumerates(drain, t.detectedMisbehavior, {})
    ensures OfAuthority(Flatten(drain), a) == Reports(t, a)
  {
    FlattenOfAuthority(drain, a);
    if a in t.detectedMisbehavior {
      var i :| 0 <= i < |drain| && drain[i] == (a, t.detectedMisbehavior[a]);
    }
  }

  function Flatten(drain: seq<(AuthorityId, seq<Misbehavior>)>): seq<(AuthorityId, Misbehavior)> {
    if drain == [] then [] else Label(drain[0].0, drain[0].1) + Flatten(drain[1..])
  }

  /** The items of one authority, in order. */
  function OfAuthority(items: seq<(AuthorityId, Misbehavior)>, a: AuthorityId): seq<Misbehavior> {
    if items == [] then []
    else (if items[0].0 == a then [items[0].1] else []) + OfAuthority(items[1..], a)
  }

  lemma {:induction false} OfAuthorityConcat(x: seq<(AuthorityId, Misbehavior)>, y: seq<(AuthorityId, Misbehavior)>,
                                             a: AuthorityId)
    ensures OfAuthority(x + y, a) == OfAuthority(x, a) + OfAuthority(y, a)
  {
    if x == [] {
      assert x + y == y;
    } else {
      var first := if x[0].0 == a then [x[0].1] else [];
      assert (x + y)[1..] == x[1..] + y && (x + y)[0] == x[0];
      OfAuthorityConcat(x[1..], y, a);
      assert first + (OfAuthority(x[1..], a) + OfAuthority(y, a)) == first + OfAuthority(x[1..], a) + OfAuthority(y, a);
    }
  }

  lemma {:induction false} OfAuthorityLabel(a: AuthorityId, ms: seq<Misbehavior>, b: AuthorityId)
    ensures OfAuthority(Label(a, ms), b) == if a == b then ms else []
  {
    if ms == [] {
    } else {
      assert Label(a, ms)[1..] == Label(a, ms[1..]);
      OfAuthorityLabel(a, ms[1..], b);
    }
  }

  /** Flattening distinct authorities keeps each one's reports together and in order. */
  lemma {:induction false} FlattenOfAuthority(drain: seq<(AuthorityId, seq<Misbehavior>)>, a: AuthorityId)
    requires forall i, j :: 0 <= i < j < |drain| ==> drain[i].0 != drain[j].0
    ensures forall i :: 0 <= i < |drain| && drain[i].0 == a ==> OfAuthority(Flatten(drain), a) == drain[i].1
    ensures (forall i :: 0 <= i < |drain| ==> drain[i].0 != a) ==> OfAuthority(Flatten(drain), a) == []
  {
    if drain == [] {
    } else {
      OfAuthorityConcat(Label(drain[0].0, drain[0].1), Flatten(drain[1..]), a);
      OfAuthorityLabel(drain[0].0, drain[0].1, a);
      FlattenOfAuthority(drain[1..], a);
    }
  }

  function Reverse(ms: seq<Misbehavior>): (r: seq<Misbehavior>)
    ensures |r| == |ms|
    ensures forall i :: 0 <= i < |ms| ==> r[i] == ms[|ms| - 1 - i]
  {
    if ms == [] then [] else Reverse(ms[1..]) + [ms[0]]
  }

  /** The iterator: authorities still to come, and the reversed reports of the one in progress. */
  class DrainMisbehaviors {
    var drain: seq<(AuthorityId, seq<Misbehavior>)>
    var inProgress: Option<(AuthorityId, seq<Misbehavior>)>

    constructor (entries: seq<(AuthorityId, seq<Misbehavior>)>)
      requires forall i :: 0 <= i < |entries| ==> entries[i].1 != []
      ensures Valid() && Remaining() == Flatten(entries)
    {
      drain, inProgress := entries, None;
    }

    /** An authority without reports would make the iterator stop early. */
    ghost predicate Valid()
      reads this
    {
      forall i :: 0 <= i < |drain| ==> drain[i].1 != []
    }

    /** The items still to be yielded. */
    function Remaining(): seq<(AuthorityId, Misbehavior)>
      reads this
    {
      (if inProgress.Some? then Label(inProgress.value.0, Reverse(inProgress.value.1)) else []) + Flatten(drain)
    }

    method MaybeItem() returns (r: Option<(AuthorityId, Misbehavior)>)
      modifies this`inProgress
      ensures if old(inProgress).None? || old(inProgress).value.1 == []
              then r.None? && inProgress == old(inProgress)
              else r.Some? && old(Remaining()) == [r.value] + Remaining()
    {
      if inProgress.None? || inProgress.value.1 == [] {
        return None;
      }
      var (id, ms) := inProgress.value;
      var last := |ms| - 1;
      r := Some((id, ms[last]));
      inProgress := Some((id, ms[..last]));
      assert Label(id, Reverse(ms)) == [(id, ms[last])] + Label(id, Reverse(ms[..last]));
    }

    /** Yields every remaining item once, in order, and `None` only when nothing remains. */
    method Next() returns (r: Option<(AuthorityId, Misbehavior)>)
      requires Valid()
      modifies this
      ensures Valid()
      ensures if old(Remaining()) == [] then r.None? && Remaining() == []
              else r.Some? && old(Remaining()) == [r.value] + Remaining()
    {
      r := MaybeItem();
      if r.None? {
        if drain == [] {
          inProgress := None;
        } else {
          var (id, ms) := drain[0];
          inProgress := Some((id, Reverse(ms)));
          drain := drain[1..];
          assert Reverse(Reverse(ms)) == ms;
          assert Remaining() == old(Remaining());
        }
        r := MaybeItem();
      }
    }
  }
}
