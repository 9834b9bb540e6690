/**
 Misbehaviour reports are true, and complete.

 The log is the set of statements that had an effect when they arrived: every `Seconded`, and every
 `Valid` whose candidate was known by then. An authority is reported if and only if its statements in
 the log break the rules, so one that follows the rules is never reported whatever others send.
 */
module TableReports {
  import opened Options
  import opened StatementTable
  import opened TableInvariants

  predicate Effective(t: TableState, s: SignedStatement) {
    s.statement.Valid? ==> s.statement.digest in t.candidateVotes
  }

  ghost function EffectiveLog(ctx: Context, t: TableState, ss: seq<SignedStatement>): set<SignedStatement>
    decreases |ss|
  {
    if ss == [] then {}
    else
      var first := if Effective(t, ss[0]) then {ss[0]} else {};
      match Import(ctx, t, ss[0])
      case Panicked => first
      case Done(t', _) => first + EffectiveLog(ctx, t', ss[1..])
  }

  /** The sender belongs to the group of the candidate, whoever seconded it. */
  ghost predicate Entitled(ctx: Context, log: set<SignedStatement>, s: SignedStatement) {
    match s.statement
    case Seconded(c) => ctx.isMemberOf(s.sender, ctx.candidateGroup(c))
    case Valid(d) =>
      forall p :: p in log && p.statement.Seconded? && ctx.candidateDigest(p.statement.candidate) == d
                  ==> ctx.isMemberOf(s.sender, ctx.candidateGroup(p.statement.candidate))
  }

  /** Two statements that one authority must not both sign. */
  ghost predicate Clash(ctx: Context, s1: SignedStatement, s2: SignedStatement) {
    match (s1.statement, s2.statement)
    case (Seconded(_), Seconded(_)) => s1 != s2
    case (Valid(d1), Valid(d2)) => d1 == d2 && s1 != s2
    case (Seconded(c), Valid(d)) => ctx.candidateDigest(c) == d
    case (Valid(d), Seconded(c)) => ctx.candidateDigest(c) == d
  }

  ghost predicate FollowsRules(ctx: Context, log: set<SignedStatement>, a: AuthorityId) {
    && (forall s :: s in log && s.sender == a ==> Entitled(ctx, log, s))
    && (forall s1, s2 :: s1 in log && s2 in log && s1.sender == a && s2.sender == a ==> !Clash(ctx, s1, s2))
  }

  /** A report proves what it says: its statements were signed by `a` and imported, and they do conflict. */
  ghost predicate Proven(ctx: Context, log: set<SignedStatement>, a: AuthorityId, m: Misbehavior) {
    match m
    case ValidityDoubleVote((c, s1), (d, s2)) =>
      && SignedStatement(Seconded(c), s1, a) in log && SignedStatement(Valid(d), s2, a) in log
      && ctx.candidateDigest(c) == d
    case MultipleCandidates((c1, s1), (c2, s2)) =>
      && SignedStatement(Seconded(c1), s1, a) in log && SignedStatement(Seconded(c2), s2, a) in log
      && ctx.candidateDigest(c1) != ctx.candidateDigest(c2)
    case UnauthorizedStatement(s) => s in log && s.sender == a && !Entitled(ctx, log, s)
    case DoubleSignSeconded(c, s1, s2) =>
      SignedStatement(Seconded(c), s1, a) in log && SignedStatement(Seconded(c), s2, a) in log && s1 != s2
    case DoubleSignValidity(d, s1, s2) =>
      SignedStatement(Valid(d), s1, a) in log && SignedStatement(Valid(d), s2, a) in log && s1 != s2
  }

  ghost predicate Introduced(log: set<SignedStatement>, c: Candidate) {
    exists p :: p in log && p.statement == Seconded(c)
  }

  function VoteStatement(c: Candidate, d: Digest, a: AuthorityId, v: ValidityVote): SignedStatement {
    match v
    case IssuedVote(s) => SignedStatement(Seconded(c), s, a)
    case ValidVote(s) => SignedStatement(Valid(d), s, a)
  }

  /** Every vote the table holds was imported from its voter, and every candidate was seconded. */
  ghost predicate VotesLogged(t: TableState, log: set<SignedStatement>) {
    forall d :: d in t.candidateVotes ==>
      && Introduced(log, t.candidateVotes[d].candidate)
      && forall a :: a in t.candidateVotes[d].validityVotes ==>
           VoteStatement(t.candidateVotes[d].candidate, d, a, t.candidateVotes[d].validityVotes[a]) in log
  }

  ghost predicate ProposalLogged(t: TableState, log: set<SignedStatement>, a: AuthorityId) {
    HasProposal(t, a) ==>
      var (d, s) := t.authorityData[a].proposal.value;
      d in t.candidateVotes && SignedStatement(Seconded(t.candidateVotes[d].candidate), s, a) in log
  }

  ghost predicate ReportsProven(ctx: Context, t: TableState, log: set<SignedStatement>) {
    forall a, m :: a in t.detectedMisbehavior && m in t.detectedMisbehavior[a] ==> Proven(ctx, log, a, m)
  }

  /** The statement is the one the table holds for its sender. */
  ghost predicate Recorded(ctx: Context, t: TableState, s: SignedStatement) {
    match s.statement
    case Seconded(c) =>
      var d := ctx.candidateDigest(c);
      && ctx.isMemberOf(s.sender, ctx.candidateGroup(c))
      && d in t.candidateVotes && s.sender in t.candidateVotes[d].validityVotes
      && t.candidateVotes[d].validityVotes[s.sender] == IssuedVote(s.signature)
    case Valid(d) =>
      && d in t.candidateVotes && s.sender in t.candidateVotes[d].validityVotes
      && t.candidateVotes[d].validityVotes[s.sender] == ValidVote(s.signature)
  }

  ghost predicate Sound(ctx: Context, t: TableState, log: set<SignedStatement>) {
    && WellFormed(ctx, t)
    && VotesLogged(t, log)
    && (forall a :: a in t.authorityData ==> ProposalLogged(t, log, a))
    && ReportsProven(ctx, t, log)
  }

  ghost predicate Complete(ctx: Context, t: TableState, log: set<SignedStatement>) {
    forall s :: s in log ==> s.sender in t.detectedMisbehavior || Recorded(ctx, t, s)
  }

  /** A larger log supports the same table. */
  lemma SoundGrows(ctx: Context, t: TableState, log: set<SignedStatement>, more: set<SignedStatement>)
    requires Sound(ctx, t, log)
    ensures Sound(ctx, t, log + more)
  {
  }

  /** Storing one more proven report keeps the table sound. */
  lemma ReportIsSound(ctx: Context, t: TableState, log: set<SignedStatement>, a: AuthorityId, m: Misbehavior)
    requires Sound(ctx, t, log) && Proven(ctx, log, a, m)
    ensures Sound(ctx, Report(t, a, m), log)
  {
  }

  lemma RejectedVoteIsProven(ctx: Context, t: TableState, log: set<SignedStatement>, s: SignedStatement)
    requires s.statement.Valid? && s in log && Sound(ctx, t, log)
    requires Process(ctx, t, s).Rejected?
    ensures Proven(ctx, log, s.sender, Process(ctx, t, s).misbehavior)
  {
  }

  lemma RejectedProposalIsProven(ctx: Context, t: TableState, log: set<SignedStatement>, s: SignedStatement)
    requires UniqueDigests(ctx)
    requires s.statement.Seconded? && s in log && Sound(ctx, t, log)
    requires Process(ctx, t, s).Rejected?
    ensures Proven(ctx, log, s.sender, Process(ctx, t, s).misbehavior)
  {
  }

  /** What the import leaves behind before any report is stored is supported by the log with `s` in it. */
  lemma ProcessIsSound(ctx: Context, t: TableState, log: set<SignedStatement>, s: SignedStatement)
    requires UniqueDigests(ctx) && Sound(ctx, t, log) && !Process(ctx, t, s).Failed?
    requires s in log
    ensures Sound(ctx, Process(ctx, t, s).table, log)
  {
    match s.statement {
      case Valid(d) =>
        CastVoteKeeps(ctx, t, s.sender, d, s.signature);
        var t' := Process(ctx, t, s).table;
        forall b | b in t'.authorityData
          ensures ProposalLogged(t', log, b)
        {
        }
      case Seconded(c) =>
        if ctx.isMemberOf(s.sender, ctx.candidateGroup(c)) && !HasProposal(t, s.sender) {
          FirstProposalIsSound(ctx, t, log, s);
        }
    }
  }

  lemma FirstProposalIsSound(ctx: Context, t: TableState, log: set<SignedStatement>, s: SignedStatement)
    requires UniqueDigests(ctx) && Sound(ctx, t, log) && !Process(ctx, t, s).Failed?
    requires s in log && s.statement.Seconded? && !HasProposal(t, s.sender)
    requires ctx.isMemberOf(s.sender, ctx.candidateGroup(s.statement.candidate))
    ensures Sound(ctx, Process(ctx, t, s).table, log)
  {
    var c := s.statement.candidate;
    var d := ctx.candidateDigest(c);
    FirstProposalKeeps(ctx, t, s.sender, c, s.signature);
    FirstProposalShape(ctx, t, s.sender, c, s.signature);
    if d in t.candidateVotes {
      assert EntryOk(ctx, t, d);
    }
    ProposedTableLogged(t, Process(ctx, t, s).table, log, s, d, EntryFor(ctx, t, c));
  }

  lemma ProposedTableLogged(t: TableState, t': TableState, log: set<SignedStatement>, s: SignedStatement, d: Digest,
                            data: CandidateData)
    requires VotesLogged(t, log) && forall a :: a in t.authorityData ==> ProposalLogged(t, log, a)
    requires s in log && s.statement == Seconded(data.candidate)
    requires if d in t.candidateVotes then data == t.candidateVotes[d] else data.validityVotes == map[]
    requires var voted := data.validityVotes[s.sender := IssuedVote(s.signature)];
             t' == t.(authorityData := t.authorityData[s.sender := AuthorityData(Some((d, s.signature)))],
                      candidateVotes :=
                        t.candidateVotes[d := if s.sender in data.validityVotes then data
                                              else data.(validityVotes := voted)])
    ensures VotesLogged(t', log) && forall a :: a in t'.authorityData ==> ProposalLogged(t', log, a)
  {
  }

  ghost function LogAfter(t: TableState, log: set<SignedStatement>, s: SignedStatement): set<SignedStatement> {
    if Effective(t, s) then log + {s} else log
  }

  /** One import keeps every stored report proven by what has been imported. */
  lemma ImportIsSound(ctx: Context, t: TableState, log: set<SignedStatement>, s: SignedStatement)
    requires UniqueDigests(ctx) && Sound(ctx, t, log) && Import(ctx, t, s).Done?
    ensures Sound(ctx, Import(ctx, t, s).table, LogAfter(t, log, s))
  {
    if Effective(t, s) {
      SoundGrows(ctx, t, log, {s});
      ProcessIsSound(ctx, t, log + {s}, s);
      var o := Process(ctx, t, s);
      if o.Rejected? {
        if s.statement.Valid? {
          RejectedVoteIsProven(ctx, t, log + {s}, s);
        } else {
          RejectedProposalIsProven(ctx, t, log + {s}, s);
        }
        ReportIsSound(ctx, o.table, log + {s}, s.sender, o.misbehavior);
      }
    }
  }

  /** Votes, once held, stay as they are. */
  ghost predicate Extends(t: TableState, t': TableState) {
    && (forall a :: a in t.detectedMisbehavior ==> a in t'.detectedMisbehavior)
    && (forall a :: HasProposal(t, a) ==>
          HasProposal(t', a) && t'.authorityData[a] == t.authorityData[a])
    && (forall d :: d in t.candidateVotes ==>
          && d in t'.candidateVotes
          && t'.candidateVotes[d].candidate == t.candidateVotes[d].candidate
          && t'.candidateVotes[d].groupId == t.candidateVotes[d].groupId
          && forall a :: a in t.candidateVotes[d].validityVotes ==>
               && a in t'.candidateVotes[d].validityVotes
               && t'.candidateVotes[d].validityVotes[a] == t.candidateVotes[d].validityVotes[a])
  }

  lemma VoteExtends(ctx: Context, t: TableState, a: AuthorityId, d: Digest, v: ValidityVote)
    requires !CastVote(ctx, t, a, d, v).Failed?
    ensures Extends(t, CastVote(ctx, t, a, d, v).table)
  {
  }

  lemma FirstProposalExtends(ctx: Context, t: TableState, a: AuthorityId, c: Candidate, s: Signature)
    requires !HasProposal(t, a) && ctx.isMemberOf(a, ctx.candidateGroup(c))
    requires !SecondCandidate(ctx, t, a, c, s).Failed?
    ensures Extends(t, SecondCandidate(ctx, t, a, c, s).table)
  {
  }

  lemma ReportExtends(t: TableState, t': TableState, a: AuthorityId, m: Misbehavior)
    requires Extends(t, t')
    ensures Extends(t, Report(t', a, m))
  {
  }

  lemma ImportExtends(ctx: Context, t: TableState, s: SignedStatement)
    requires Import(ctx, t, s).Done?
    ensures Extends(t, Import(ctx, t, s).table)
  {
    var o := Process(ctx, t, s);
    match s.statement {
      case Valid(d) =>
      case Seconded(c) =>
        if ctx.isMemberOf(s.sender, ctx.candidateGroup(c)) {
          if !HasProposal(t, s.sender) {
            FirstProposalExtends(ctx, t, s.sender, c, s.signature);
          } else if t.authorityData[s.sender].proposal.value.0 == ctx.candidateDigest(c) {
            VoteExtends(ctx, t, s.sender, ctx.candidateDigest(c), IssuedVote(s.signature));
          }
        }
    }
    if o.Rejected? {
      ReportExtends(t, o.table, s.sender, o.misbehavior);
    }
  }

  lemma AcceptedIsRecorded(ctx: Context, t: TableState, s: SignedStatement)
    requires WellFormed(ctx, t) && Effective(t, s) && Process(ctx, t, s).Accepted?
    ensures Recorded(ctx, Process(ctx, t, s).table, s)
  {
  }

  lemma ImportIsComplete(ctx: Context, t: TableState, log: set<SignedStatement>, s: SignedStatement)
    requires WellFormed(ctx, t) && Complete(ctx, t, log) && Import(ctx, t, s).Done?
    ensures Complete(ctx, Import(ctx, t, s).table, LogAfter(t, log, s))
  {
    var t' := Import(ctx, t, s).table;
    ImportExtends(ctx, t, s);
    if Effective(t, s) && Process(ctx, t, s).Accepted? {
      AcceptedIsRecorded(ctx, t, s);
    }
    forall p | p in LogAfter(t, log, s)
      ensures p.sender in t'.detectedMisbehavior || Recorded(ctx, t', p)
    {
    }
  }

  lemma UniqueIsCoherent(ctx: Context)
    requires UniqueDigests(ctx)
    ensures Coherent(ctx)
  {
  }

  lemma {:induction false} RunIsSoundAndComplete(ctx: Context, t: TableState, log: set<SignedStatement>,
                                                 ss: seq<SignedStatement>)
    requires UniqueDigests(ctx) && Sound(ctx, t, log) && Complete(ctx, t, log)
    ensures Run(ctx, t, ss).Some?
    ensures Sound(ctx, Run(ctx, t, ss).value, log + EffectiveLog(ctx, t, ss))
    ensures Complete(ctx, Run(ctx, t, ss).value, log + EffectiveLog(ctx, t, ss))
    decreases |ss|
  {
    if ss == [] {
    } else {
      UniqueIsCoherent(ctx);
      ImportDoesNotPanic(ctx, t, ss[0]);
      ImportIsSound(ctx, t, log, ss[0]);
      ImportIsComplete(ctx, t, log, ss[0]);
      var t' := Import(ctx, t, ss[0]).table;
      var log' := LogAfter(t, log, ss[0]);
      RunIsSoundAndComplete(ctx, t', log', ss[1..]);
      assert log + EffectiveLog(ctx, t, ss) == log' + EffectiveLog(ctx, t', ss[1..]);
    }
  }

  lemma ProvenBreaksRules(ctx: Context, log: set<SignedStatement>, a: AuthorityId, m: Misbehavior)
    requires Proven(ctx, log, a, m)
    ensures !FollowsRules(ctx, log, a)
  {
  }

  lemma UnreportedFollowsRules(ctx: Context, t: TableState, log: set<SignedStatement>, a: AuthorityId)
    requires UniqueDigests(ctx) && WellFormed(ctx, t) && Complete(ctx, t, log) && a !in t.detectedMisbehavior
    ensures FollowsRules(ctx, log, a)
  {
  }

  /**
   Main result. After any run of imports, an authority has a report against it if and only if its
   effective statements break the rules, and each report is a proof drawn from those statements.
   */
  lemma ReportedExactlyWhenRulesBroken(ctx: Context, ss: seq<SignedStatement>, a: AuthorityId)
    requires UniqueDigests(ctx)
    ensures Run(ctx, EMPTY, ss).Some?
    ensures var t := Run(ctx, EMPTY, ss).value;
            var log := EffectiveLog(ctx, EMPTY, ss);
            && (a in t.detectedMisbehavior <==> !FollowsRules(ctx, log, a))
            && forall m :: m in Reports(t, a) ==> Proven(ctx, log, a, m)
  {
    RunIsSoundAndComplete(ctx, EMPTY, {}, ss);
    var t := Run(ctx, EMPTY, ss).value;
    var log := EffectiveLog(ctx, EMPTY, ss);
    assert {} + log == log;
    if a in t.detectedMisbehavior {
      ProvenBreaksRules(ctx, log, a, t.detectedMisbehavior[a][0]);
    } else {
      UnreportedFollowsRules(ctx, t, log, a);
    }
  }

  lemma {:induction false} EffectiveWasSent(ctx: Context, t: TableState, ss: seq<SignedStatement>, s: SignedStatement)
    requires s in EffectiveLog(ctx, t, ss)
    ensures s in ss
    decreases |ss|
  {
    if s == ss[0] {
    } else {
      EffectiveWasSent(ctx, Import(ctx, t, ss[0]).table, ss[1..], s);
    }
  }

  /** An authority whose imported statements follow the rules is never reported, whatever others send. */
  lemma HonestIsNeverReported(ctx: Context, ss: seq<SignedStatement>, a: AuthorityId)
    requires UniqueDigests(ctx) && FollowsRules(ctx, (set s | s in ss), a)
    ensures Run(ctx, EMPTY, ss).Some? && a !in Run(ctx, EMPTY, ss).value.detectedMisbehavior
  {
    ReportedExactlyWhenRulesBroken(ctx, ss, a);
    var log := EffectiveLog(ctx, EMPTY, ss);
    forall s | s in log
      ensures s in ss
    {
      EffectiveWasSent(ctx, EMPTY, ss, s);
    }
  }

  /** Imports interleaved with drains of the reports. */
  datatype Event = Importing(statement: SignedStatement) | Draining

  function Drained(t: TableState): TableState {
    t.(detectedMisbehavior := map[])
  }

  function ReportsOf(reports: map<AuthorityId, seq<Misbehavior>>, a: AuthorityId): seq<Misbehavior> {
    if a in reports then reports[a] else []
  }

  /** Each authority's earlier reports, then its later ones. */
  function Joined(earlier: map<AuthorityId, seq<Misbehavior>>, later: map<AuthorityId, seq<Misbehavior>>)
    : map<AuthorityId, seq<Misbehavior>>
  {
    map a | a in earlier.Keys + later.Keys :: ReportsOf(earlier, a) + ReportsOf(later, a)
  }

  /** The table, and everything drained from it so far. */
  datatype Ledger = Ledger(table: TableState, drained: map<AuthorityId, seq<Misbehavior>>) {
    /** The table as it would be had nothing been drained. */
    function Whole(): TableState {
      table.(detectedMisbehavior := Joined(drained, table.detectedMisbehavior))
    }
  }

  function PlayLedger(ctx: Context, l: Ledger, events: seq<Event>): Option<Ledger>
    decreases |events|
  {
    if events == [] then Some(l)
    else
      match events[0]
      case Draining =>
        PlayLedger(ctx, Ledger(Drained(l.table), Joined(l.drained, l.table.detectedMisbehavior)), events[1..])
      case Importing(s) =>
        match Import(ctx, l.table, s)
        case Panicked => None
        case Done(t', _) => PlayLedger(ctx, l.(table := t'), events[1..])
  }

  ghost function Statements(events: seq<Event>): set<SignedStatement> {
    set e | e in events && e.Importing? :: e.statement
  }

  lemma DrainIsSound(ctx: Context, t: TableState, log: set<SignedStatement>)
    requires Sound(ctx, t, log)
    ensures Sound(ctx, Drained(t), log)
  {
  }

  /** However imports and drains interleave, every report held is proven by the statements imported so far. */
  lemma {:induction false} ReportsAlwaysProven(ctx: Context, l: Ledger, log: set<SignedStatement>, events: seq<Event>)
    requires UniqueDigests(ctx) && Sound(ctx, l.table, log)
    ensures PlayLedger(ctx, l, events).Some?
    ensures Sound(ctx, PlayLedger(ctx, l, events).value.table, log + Statements(events))
    decreases |events|
  {
    if events == [] {
      assert log + Statements(events) == log;
    } else {
      var rest := events[1..];
      assert Statements(events) == Statements(rest) + Statements([events[0]]) by {
        assert events == [events[0]] + rest;
      }
      match events[0]
      case Draining =>
        DrainIsSound(ctx, l.table, log);
        ReportsAlwaysProven(ctx, Ledger(Drained(l.table), Joined(l.drained, l.table.detectedMisbehavior)), log, rest);
        assert log + Statements(events) == log + Statements(rest);
      case Importing(s) =>
        UniqueIsCoherent(ctx);
        ImportDoesNotPanic(ctx, l.table, s);
        ImportIsSound(ctx, l.table, log, s);
        var t' := Import(ctx, l.table, s).table;
        SoundGrows(ctx, t', LogAfter(l.table, log, s), {s});
        assert LogAfter(l.table, log, s) + {s} == log + {s};
        ReportsAlwaysProven(ctx, l.(table := t'), log + {s}, rest);
        assert log + {s} + Statements(rest) == log + Statements(events);
    }
  }

  /** The statements imported, in order. */
  function Imports(events: seq<Event>): seq<SignedStatement> {
    if events == [] then []
    else (if events[0].Importing? then [events[0].statement] else []) + Imports(events[1..])
  }

  /** What an import does to proposals and votes does not depend on the reports held. */
  lemma ProcessIgnoresReports(ctx: Context, t: TableState, reports: map<AuthorityId, seq<Misbehavior>>,
                              s: SignedStatement)
    ensures var o, o' := Process(ctx, t, s), Process(ctx, t.(detectedMisbehavior := reports), s);
            match o
            case Accepted(t', summary) =>
              t'.detectedMisbehavior == t.detectedMisbehavior &&
              o' == Accepted(t'.(detectedMisbehavior := reports), summary)
            case Rejected(t', m) =>
              t'.detectedMisbehavior == t.detectedMisbehavior &&
              o' == Rejected(t'.(detectedMisbehavior := reports), m)
            case Failed => o'.Failed?
  {
  }

  /** One more report, joined to what was drained before, is one more report of the whole. */
  lemma JoinedReport(drained: map<AuthorityId, seq<Misbehavior>>, held: map<AuthorityId, seq<Misbehavior>>,
                     a: AuthorityId, m: Misbehavior)
    ensures Joined(drained, held[a := ReportsOf(held, a) + [m]]) ==
            Joined(drained, held)[a := ReportsOf(Joined(drained, held), a) + [m]]
  {
    assert ReportsOf(drained, a) + (ReportsOf(held, a) + [m]) == ReportsOf(drained, a) + ReportsOf(held, a) + [m];
  }

  lemma ImportOfWhole(ctx: Context, l: Ledger, s: SignedStatement)
    requires Import(ctx, l.table, s).Done?
    ensures Import(ctx, l.Whole(), s).Done?
    ensures Import(ctx, l.Whole(), s).table == l.(table := Import(ctx, l.table, s).table).Whole()
  {
    var joined := Joined(l.drained, l.table.detectedMisbehavior);
    ProcessIgnoresReports(ctx, l.table, joined, s);
    var o := Process(ctx, l.table, s);
    if o.Rejected? {
      JoinedReport(l.drained, l.table.detectedMisbehavior, s.sender, o.misbehavior);
    }
  }

  lemma JoinedWithNothing(reports: map<AuthorityId, seq<Misbehavior>>)
    ensures Joined(reports, map[]) == reports
  {
    forall a | a in reports
      ensures Joined(reports, map[])[a] == reports[a]
    {
      assert reports[a] + [] == reports[a];
    }
  }

  lemma DrainOfWhole(l: Ledger)
    ensures Ledger(Drained(l.table), Joined(l.drained, l.table.detectedMisbehavior)).Whole() == l.Whole()
  {
    JoinedWithNothing(Joined(l.drained, l.table.detectedMisbehavior));
  }

  /** Draining loses and repeats nothing: drained and held reports together are those of the run without drains. */
  lemma {:induction false} DrainsConserveReports(ctx: Context, l: Ledger, events: seq<Event>)
    requires Coherent(ctx) && WellFormed(ctx, l.table)
    ensures PlayLedger(ctx, l, events).Some?
    ensures Run(ctx, l.Whole(), Imports(events)) == Some(PlayLedger(ctx, l, events).value.Whole())
    decreases |events|
  {
    if events == [] {
    } else {
      var rest := events[1..];
      match events[0]
      case Draining =>
        DrainOfWhole(l);
        DrainsConserveReports(ctx, Ledger(Drained(l.table), Joined(l.drained, l.table.detectedMisbehavior)), rest);
        assert Imports(events) == Imports(rest);
      case Importing(s) =>
        ImportDoesNotPanic(ctx, l.table, s);
        ImportKeepsWellFormed(ctx, l.table, s);
        ImportOfWhole(ctx, l, s);
        DrainsConserveReports(ctx, l.(table := Import(ctx, l.table, s).table), rest);
        assert Imports(events) == [s] + Imports(rest);
    }
  }

  /**
   However imports and drains interleave, an authority is in a drained or a held report if and only if its effective
   statements break the rules, and each of those reports is a proof drawn from them.
   */
  lemma ReportedOrDrainedExactly(ctx: Context, events: seq<Event>, a: AuthorityId)
    requires UniqueDigests(ctx)
    ensures PlayLedger(ctx, Ledger(EMPTY, map[]), events).Some?
    ensures var l := PlayLedger(ctx, Ledger(EMPTY, map[]), events).value;
            var log := EffectiveLog(ctx, EMPTY, Imports(events));
            && (a in l.drained || a in l.table.detectedMisbehavior <==> !FollowsRules(ctx, log, a))
            && forall m :: m in ReportsOf(l.drained, a) + Reports(l.table, a) ==> Proven(ctx, log, a, m)
  {
    UniqueIsCoherent(ctx);
    DrainsConserveReports(ctx, Ledger(EMPTY, map[]), events);
    assert Ledger(EMPTY, map[]).Whole() == EMPTY;
    ReportedExactlyWhenRulesBroken(ctx, Imports(events), a);
  }

  /** The digest a statement is about. */
  function Subject(ctx: Context, s: SignedStatement): Digest {
    match s.statement
    case Seconded(c) => ctx.candidateDigest(c)
    case Valid(d) => d
  }

  predicate HasVoted(t: TableState, d: Digest, a: AuthorityId) {
    d in t.candidateVotes && a in t.candidateVotes[d].validityVotes
  }

  /** An import returns a summary exactly when it adds a vote, and the summary counts that vote. */
  lemma SummaryExactly(ctx: Context, t: TableState, s: SignedStatement)
    requires WellFormed(ctx, t) && Import(ctx, t, s).Done?
    ensures var Done(t', summary) := Import(ctx, t, s);
            var d := Subject(ctx, s);
            && (summary.Some? <==> !HasVoted(t, d, s.sender) && HasVoted(t', d, s.sender))
            && (summary.Some? ==>
                  && Recorded(ctx, t', s)
                  && summary.value == Summary(d, t'.candidateVotes[d].groupId, |t'.candidateVotes[d].validityVotes|)
                  && |t'.candidateVotes[d].validityVotes| ==
                     1 + if d in t.candidateVotes then |t.candidateVotes[d].validityVotes| else 0)
  {
  }

  /** What a report names first is what the table holds: the first proposal, or the first of two signatures. */
  ghost predicate NamesHeldFirst(ctx: Context, t: TableState, a: AuthorityId, m: Misbehavior) {
    match m
    case MultipleCandidates((c, s), _) =>
      HasProposal(t, a) && t.authorityData[a].proposal.value == (ctx.candidateDigest(c), s)
    case DoubleSignSeconded(c, s, _) =>
      var d := ctx.candidateDigest(c);
      HasVoted(t, d, a) && t.candidateVotes[d].validityVotes[a] == IssuedVote(s)
    case DoubleSignValidity(d, s, _) => HasVoted(t, d, a) && t.candidateVotes[d].validityVotes[a] == ValidVote(s)
    case _ => true
  }

  ghost predicate AllNameHeldFirst(ctx: Context, t: TableState) {
    forall a, m :: a in t.detectedMisbehavior && m in t.detectedMisbehavior[a] ==> NamesHeldFirst(ctx, t, a, m)
  }

  lemma RejectionNamesHeldFirst(ctx: Context, t: TableState, s: SignedStatement)
    requires WellFormed(ctx, t) && Process(ctx, t, s).Rejected?
    ensures NamesHeldFirst(ctx, t, s.sender, Process(ctx, t, s).misbehavior)
  {
  }

  lemma HeldStays(ctx: Context, t: TableState, t': TableState, a: AuthorityId, m: Misbehavior)
    requires Extends(t, t') && NamesHeldFirst(ctx, t, a, m)
    ensures NamesHeldFirst(ctx, t', a, m)
  {
  }

  /** An import adds at most one report, the one for its own misbehavior. */
  lemma ReportedBefore(ctx: Context, t: TableState, s: SignedStatement, a: AuthorityId, m: Misbehavior)
    requires Import(ctx, t, s).Done?
    requires var after := Import(ctx, t, s).table.detectedMisbehavior; a in after && m in after[a]
    ensures || (a in t.detectedMisbehavior && m in t.detectedMisbehavior[a])
            || (a == s.sender && Process(ctx, t, s).Rejected? && m == Process(ctx, t, s).misbehavior)
  {
  }

  lemma ImportNamesHeldFirst(ctx: Context, t: TableState, s: SignedStatement)
    requires WellFormed(ctx, t) && AllNameHeldFirst(ctx, t) && Import(ctx, t, s).Done?
    ensures AllNameHeldFirst(ctx, Import(ctx, t, s).table)
  {
    var t' := Import(ctx, t, s).table;
    ImportExtends(ctx, t, s);
    if Process(ctx, t, s).Rejected? {
      RejectionNamesHeldFirst(ctx, t, s);
    }
    forall a, m | a in t'.detectedMisbehavior && m in t'.detectedMisbehavior[a]
      ensures NamesHeldFirst(ctx, t', a, m)
    {
      ReportedBefore(ctx, t, s, a, m);
      HeldStays(ctx, t, t', a, m);
    }
  }

  /** Over every run, reports name the first candidate or signature first. */
  lemma {:induction false} RunNamesHeldFirst(ctx: Context, t: TableState, ss: seq<SignedStatement>)
    requires Coherent(ctx) && WellFormed(ctx, t) && AllNameHeldFirst(ctx, t)
    ensures Run(ctx, t, ss).Some? && AllNameHeldFirst(ctx, Run(ctx, t, ss).value)
    decreases |ss|
  {
    if ss == [] {
    } else {
      ImportDoesNotPanic(ctx, t, ss[0]);
      ImportKeepsWellFormed(ctx, t, ss[0]);
      ImportNamesHeldFirst(ctx, t, ss[0]);
      RunNamesHeldFirst(ctx, Import(ctx, t, ss[0]).table, ss[1..]);
    }
  }

  /** The two statements that a report sets against each other in the order of their arrival. */
  function Opposed(a: AuthorityId, m: Misbehavior): Option<(SignedStatement, SignedStatement)> {
    match m
    case MultipleCandidates((c1, s1), (c2, s2)) =>
      Some((SignedStatement(Seconded(c1), s1, a), SignedStatement(Seconded(c2), s2, a)))
    case DoubleSignSeconded(c, s1, s2) =>
      Some((SignedStatement(Seconded(c), s1, a), SignedStatement(Seconded(c), s2, a)))
    case DoubleSignValidity(d, s1, s2) =>
      Some((SignedStatement(Valid(d), s1, a), SignedStatement(Valid(d), s2, a)))
    case _ => None
  }

  /** What the report names first was imported before what it names second. */
  ghost predicate InOrderOfArrival(past: seq<SignedStatement>, a: AuthorityId, m: Misbehavior) {
    Opposed(a, m).Some? ==>
      exists i, j :: 0 <= i < j < |past| && past[i] == Opposed(a, m).value.0 && past[j] == Opposed(a, m).value.1
  }

  ghost predicate AllInOrderOfArrival(t: TableState, past: seq<SignedStatement>) {
    forall a, m :: a in t.detectedMisbehavior && m in t.detectedMisbehavior[a] ==> InOrderOfArrival(past, a, m)
  }

  lemma RejectedIsNamedSecond(ctx: Context, t: TableState, log: set<SignedStatement>, s: SignedStatement)
    requires UniqueDigests(ctx) && Sound(ctx, t, log) && Process(ctx, t, s).Rejected?
    ensures var opposed := Opposed(s.sender, Process(ctx, t, s).misbehavior);
            opposed.Some? ==> opposed.value.0 in log && opposed.value.1 == s
  {
    if HasProposal(t, s.sender) {
      assert ProposalLogged(t, log, s.sender);
    }
  }

  lemma ArrivalStays(past: seq<SignedStatement>, s: SignedStatement, a: AuthorityId, m: Misbehavior)
    requires InOrderOfArrival(past, a, m)
    ensures InOrderOfArrival(past + [s], a, m)
  {
    if Opposed(a, m).Some? {
      var i, j :| 0 <= i < j < |past| && past[i] == Opposed(a, m).value.0 && past[j] == Opposed(a, m).value.1;
      assert (past + [s])[i] == past[i] && (past + [s])[j] == past[j];
    }
  }

  lemma ArrivesSecond(past: seq<SignedStatement>, s: SignedStatement, a: AuthorityId, m: Misbehavior)
    requires Opposed(a, m).Some? ==> Opposed(a, m).value.0 in past && Opposed(a, m).value.1 == s
    ensures InOrderOfArrival(past + [s], a, m)
  {
    if Opposed(a, m).Some? {
      var i :| 0 <= i < |past| && past[i] == Opposed(a, m).value.0;
      assert (past + [s])[i] == past[i] && (past + [s])[|past|] == s;
    }
  }

  lemma ImportKeepsArrival(ctx: Context, t: TableState, past: seq<SignedStatement>, s: SignedStatement)
    requires UniqueDigests(ctx) && Sound(ctx, t, (set p | p in past)) && AllInOrderOfArrival(t, past)
    requires Import(ctx, t, s).Done?
    ensures AllInOrderOfArrival(Import(ctx, t, s).table, past + [s])
  {
    var t' := Import(ctx, t, s).table;
    forall a, m | a in t'.detectedMisbehavior && m in t'.detectedMisbehavior[a]
      ensures InOrderOfArrival(past + [s], a, m)
    {
      ReportedBefore(ctx, t, s, a, m);
      if a in t.detectedMisbehavior && m in t.detectedMisbehavior[a] {
        ArrivalStays(past, s, a, m);
      } else {
        RejectedIsNamedSecond(ctx, t, (set p | p in past), s);
        ArrivesSecond(past, s, a, m);
      }
    }
  }

  lemma ImportIsSoundFor(ctx: Context, t: TableState, past: seq<SignedStatement>, s: SignedStatement)
    requires UniqueDigests(ctx) && Sound(ctx, t, (set p | p in past)) && Import(ctx, t, s).Done?
    ensures Sound(ctx, Import(ctx, t, s).table, (set p | p in past + [s]))
  {
    var log := set p | p in past;
    ImportIsSound(ctx, t, log, s);
    SoundGrows(ctx, Import(ctx, t, s).table, LogAfter(t, log, s), {s});
    assert LogAfter(t, log, s) + {s} == set p | p in past + [s];
  }

  lemma {:induction false} RunKeepsArrival(ctx: Context, t: TableState, past: seq<SignedStatement>,
                                           ss: seq<SignedStatement>)
    requires UniqueDigests(ctx) && Sound(ctx, t, (set p | p in past)) && AllInOrderOfArrival(t, past)
    ensures Run(ctx, t, ss).Some? && AllInOrderOfArrival(Run(ctx, t, ss).value, past + ss)
    decreases |ss|
  {
    if ss == [] {
      assert past + ss == past;
    } else {
      var s := ss[0];
      UniqueIsCoherent(ctx);
      ImportDoesNotPanic(ctx, t, s);
      ImportKeepsArrival(ctx, t, past, s);
      ImportIsSoundFor(ctx, t, past, s);
      RunKeepsArrival(ctx, Import(ctx, t, s).table, past + [s], ss[1..]);
      assert past + [s] + ss[1..] == past + ss;
    }
  }

  /** After any run, of two candidates or two signatures in a report the one named first arrived before the other. */
  lemma ReportsInOrderOfArrival(ctx: Context, ss: seq<SignedStatement>, a: AuthorityId, m: Misbehavior)
    requires UniqueDigests(ctx)
    ensures Run(ctx, EMPTY, ss).Some?
    ensures m in Reports(Run(ctx, EMPTY, ss).value, a) ==> InOrderOfArrival(ss, a, m)
  {
    RunKeepsArrival(ctx, EMPTY, [], ss);
    assert [] + ss == ss;
  }
}
