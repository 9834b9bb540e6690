/** The finality target stays on the branch, under the cap, and close enough to the leaf. */
module FinalitySafety {
  import opened Options
  import opened Numbers
  import opened Hashes
  import opened BlockTree
  import opened FinalityTarget

  ghost predicate Between(tree: Tree, low: Hash, h: Hash, high: Hash)
    requires Contiguous(tree)
  {
    AncestorOrEqual(tree, low, h) && AncestorOrEqual(tree, h, high)
  }

  lemma CapStays(store: Store, target: Hash, leaf: Hash, max: Option<nat>)
    requires Contiguous(store.tree) && target in store.tree && AncestorOrEqual(store.tree, target, leaf)
    ensures var tree := store.tree;
            var r := CapLeaf(store, target, tree[target].number, leaf, max);
            && (r.Stop? && r.result.Vote? ==>
                  r.result.hash == target && max.Some? && max.value <= tree[target].number)
            && (r.Go? ==>
                  && Between(tree, target, r.value, leaf)
                  && (max.Some? ==> tree[target].number < max.value && tree[r.value].number <= max.value))
  {
    var tree := store.tree;
    var r := CapLeaf(store, target, tree[target].number, leaf, max);
    if r.Go? && max.Some? && tree[leaf].number > max.value {
      WalkFindsAncestor(store, max.value, tree[leaf]);
      AncestorAtFacts(tree, leaf, max.value);
      AncestorsAreOrdered(tree, target, r.value, leaf);
    }
  }

  lemma ApprovalStays(tree: Tree, target: Hash, leaf: Hash, rs: Replies)
    requires Contiguous(tree) && target in tree && AncestorOrEqual(tree, target, leaf) && HonestApprovals(tree, rs)
    ensures var r := ApprovalHead(target, tree[target].number, leaf, rs);
            && (r.Stop? ==> r.result.Failure?)
            && (r.Go? ==>
                  && Between(tree, target, r.value.hash, leaf)
                  && HonestApproval(tree, leaf, tree[target].number, r.value))
  {
    var n := tree[target].number;
    var r := ApprovalHead(target, n, leaf, rs);
    if r.Go? && rs.approvedAncestor(leaf, n).value.Some? {
      AncestorsAreOrdered(tree, target, r.value.hash, leaf);
    }
  }

  /** A block named by the dispute coordinator is the target or lies on the approved path above it. */
  lemma DescribedBlockStays(tree: Tree, target: Hash, leaf: Hash, a: ApprovedBlock, n: nat, h: Hash)
    requires Contiguous(tree) && target in tree && AncestorOrEqual(tree, target, a.hash)
    requires HonestApproval(tree, leaf, tree[target].number, a)
    requires |a.descriptions| == a.number - tree[target].number
    requires WithinChain(tree[target].number, target, a.descriptions, n, h)
    ensures Between(tree, target, h, a.hash) && tree[h].number == n
  {
    if !(n == tree[target].number && h == target) {
      AncestorAtFacts(tree, a.hash, n);
      AncestorsAreOrdered(tree, target, h, a.hash);
    }
  }

  lemma DisputeStays(tree: Tree, disputesEnabled: bool, target: Hash, leaf: Hash, a: ApprovedBlock, rs: Replies)
    requires Contiguous(tree) && target in tree && leaf in tree
    requires Between(tree, target, a.hash, leaf) && HonestApproval(tree, leaf, tree[target].number, a)
    requires HonestDisputes(rs)
    ensures var r := DisputeHead(disputesEnabled, target, tree[target].number, tree[leaf].number, a, rs);
            && (r.Stop? ==> r.result == Vote(target))
            && (r.Go? ==>
                  && Between(tree, target, r.value.1, a.hash)
                  && r.value.0 == SatSub(tree[leaf].number, tree[r.value.1].number))
  {
    var n := tree[target].number;
    var r := DisputeHead(disputesEnabled, target, n, tree[leaf].number, a, rs);
    if r.Go? && disputesEnabled {
      var reply := rs.undisputedChain(n, target, a.descriptions);
      DescribedBlockStays(tree, target, leaf, a, reply.value.0, reply.value.1);
    }
  }

  /** What every ballot satisfies. */
  ghost predicate GoodBallot(tree: Tree, target: Hash, leaf: Hash, max: Option<nat>, b: Ballot)
    requires Contiguous(tree)
  {
    && target in tree && b.targetNumber == tree[target].number
    && b.initialLeaf in tree && b.initialNumber == tree[b.initialLeaf].number
    && AncestorOrEqual(tree, b.initialLeaf, leaf)
    && Between(tree, target, b.head, b.initialLeaf)
    && b.head in tree && b.lag == b.initialNumber - tree[b.head].number
    && (max.Some? ==> b.initialNumber <= max.value)
  }

  /** The leaf the pipeline starts from: the one chain selection names, or the longest chain. */
  function ChosenLeaf(disputesEnabled: bool, target: Hash, bestLeaf: Hash, rs: Replies): Hash {
    if !disputesEnabled then bestLeaf
    else
      match rs.bestLeafContaining(target)
      case Answer(Some(leaf)) => leaf
      case _ => target
  }

  /** From the capped leaf on: what approval and disputes leave of it. */
  lemma HeadStays(tree: Tree, disputesEnabled: bool, target: Hash, leaf: Hash, rs: Replies)
    requires Contiguous(tree) && target in tree && leaf in tree && AncestorOrEqual(tree, target, leaf)
    requires HonestApprovals(tree, rs) && HonestDisputes(rs)
    requires ApprovalHead(target, tree[target].number, leaf, rs).Go?
    ensures var a := ApprovalHead(target, tree[target].number, leaf, rs).value;
            var r := DisputeHead(disputesEnabled, target, tree[target].number, tree[leaf].number, a, rs);
            && (r.Stop? ==> r.result == Vote(target))
            && (r.Go? ==>
                  && Between(tree, target, r.value.1, leaf) && AncestorOrEqual(tree, r.value.1, a.hash)
                  && r.value.1 in tree && r.value.0 == tree[leaf].number - tree[r.value.1].number)
  {
    ApprovalStays(tree, target, leaf, rs);
    var a := ApprovalHead(target, tree[target].number, leaf, rs).value;
    DisputeStays(tree, disputesEnabled, target, leaf, a, rs);
    var r := DisputeHead(disputesEnabled, target, tree[target].number, tree[leaf].number, a, rs);
    if r.Go? {
      AncestorTransitive(tree, r.value.1, a.hash, leaf);
      AncestorFacts(tree, r.value.1, leaf);
    }
  }

  lemma PrepareStays(store: Store, disputesEnabled: bool, target: Hash, bestLeaf: Hash, max: Option<nat>, rs: Replies)
    requires Contiguous(store.tree) && target in store.tree
    requires !disputesEnabled ==> AncestorOrEqual(store.tree, target, bestLeaf)
    requires Honest(store.tree, target, rs)
    ensures var r := Prepare(store, disputesEnabled, target, bestLeaf, max, rs);
            && (r.Stop? && r.result.Vote? ==> r.result.hash == target)
            && (r.Go? ==>
                  GoodBallot(store.tree, target, ChosenLeaf(disputesEnabled, target, bestLeaf, rs), max, r.value))
  {
    var tree := store.tree;
    var leaf := ChosenLeaf(disputesEnabled, target, bestLeaf, rs);
    var n := tree[target].number;
    if ChooseLeaf(disputesEnabled, target, bestLeaf, rs).Go? {
      CapStays(store, target, leaf, max);
      var capped := CapLeaf(store, target, n, leaf, max);
      if capped.Go? {
        if ApprovalHead(target, n, capped.value, rs).Go? {
          HeadStays(tree, disputesEnabled, target, capped.value, rs);
        } else {
          ApprovalStays(tree, target, capped.value, rs);
        }
      }
    }
  }

  lemma SafeguardStays(store: Store, target: Hash, leaf: Hash, max: Option<nat>, b: Ballot)
    requires Contiguous(store.tree) && GoodBallot(store.tree, target, leaf, max, b)
    ensures var r := Safeguard(store, target, b);
            r.Vote? ==>
              && Between(store.tree, target, r.hash, b.initialLeaf)
              && r.hash in store.tree
              && store.tree[r.hash].number <= b.initialNumber <= store.tree[r.hash].number + MAX_FINALITY_LAG
  {
    var tree := store.tree;
    AncestorTransitive(tree, target, b.head, b.initialLeaf);
    AncestorFacts(tree, target, b.initialLeaf);
    AncestorFacts(tree, b.head, b.initialLeaf);
    if b.lag > MAX_FINALITY_LAG {
      var safeTarget := b.initialNumber - MAX_FINALITY_LAG;
      if safeTarget > b.targetNumber {
        WalkFindsAncestor(store, safeTarget, tree[b.initialLeaf]);
        AncestorAtFacts(tree, b.initialLeaf, safeTarget);
        AncestorsAreOrdered(tree, target, AncestorAt(tree, b.initialLeaf, safeTarget), b.initialLeaf);
      }
    }
  }

  /**
   The finality target stays on the branch: for every block tree and all answers that keep their promises,
   a vote is for the target or a descendant of it, for the chosen leaf or an ancestor of it, and not above
   the given maximum when that is above the target.
   */
  lemma TargetStaysOnBranch(store: Store, disputesEnabled: bool, target: Hash, bestLeaf: Hash, max: Option<nat>,
                            rs: Replies)
    requires Contiguous(store.tree) && target in store.tree
    requires !disputesEnabled ==> AncestorOrEqual(store.tree, target, bestLeaf)
    requires Honest(store.tree, target, rs)
    ensures var r := Target(store, disputesEnabled, target, bestLeaf, max, rs);
            r.Vote? ==>
              && Between(store.tree, target, r.hash, ChosenLeaf(disputesEnabled, target, bestLeaf, rs))
              && r.hash in store.tree
              && (max.Some? && max.value > store.tree[target].number ==> store.tree[r.hash].number <= max.value)
  {
    var tree := store.tree;
    var leaf := ChosenLeaf(disputesEnabled, target, bestLeaf, rs);
    PrepareStays(store, disputesEnabled, target, bestLeaf, max, rs);
    var p := Prepare(store, disputesEnabled, target, bestLeaf, max, rs);
    if p.Go? {
      SafeguardStays(store, target, leaf, max, p.value);
      var r := Safeguard(store, target, p.value);
      if r.Vote? {
        AncestorTransitive(tree, r.hash, p.value.initialLeaf, leaf);
      }
    }
  }

  /** On every path past the dispute step, the vote is at most the maximal lag below the constrained leaf. */
  lemma LagIsCapped(store: Store, disputesEnabled: bool, target: Hash, bestLeaf: Hash, max: Option<nat>, rs: Replies)
    requires Contiguous(store.tree) && target in store.tree
    requires !disputesEnabled ==> AncestorOrEqual(store.tree, target, bestLeaf)
    requires Honest(store.tree, target, rs)
    requires Prepare(store, disputesEnabled, target, bestLeaf, max, rs).Go?
    ensures var b := Prepare(store, disputesEnabled, target, bestLeaf, max, rs).value;
            var r := Target(store, disputesEnabled, target, bestLeaf, max, rs);
            r.Vote? ==>
              && AncestorOrEqual(store.tree, r.hash, b.initialLeaf)
              && r.hash in store.tree
              && b.initialNumber - 500 <= store.tree[r.hash].number <= b.initialNumber
  {
    PrepareStays(store, disputesEnabled, target, bestLeaf, max, rs);
    SafeguardStays(store, target, ChosenLeaf(disputesEnabled, target, bestLeaf, rs), max,
                   Prepare(store, disputesEnabled, target, bestLeaf, max, rs).value);
  }

  /** What an answer of approval voting stands for: the block it names, or else the target itself. */
  function Approved(answer: Option<ApprovedBlock>, target: Hash, n: nat): ApprovedBlock {
    if answer.Some? then answer.value else ApprovedBlock(target, n, [])
  }

  /** The ballot's head is what the dispute coordinator names below what approval voting allows, or that itself. */
  lemma HeadIsApprovedAndUndisputed(store: Store, disputesEnabled: bool, target: Hash, bestLeaf: Hash,
                                    max: Option<nat>, rs: Replies)
    requires Contiguous(store.tree) && target in store.tree
    requires !disputesEnabled ==> AncestorOrEqual(store.tree, target, bestLeaf)
    requires Honest(store.tree, target, rs)
    requires Prepare(store, disputesEnabled, target, bestLeaf, max, rs).Go?
    ensures var b := Prepare(store, disputesEnabled, target, bestLeaf, max, rs).value;
            var approval := rs.approvedAncestor(b.initialLeaf, b.targetNumber);
            && approval.Answer?
            && var approved := Approved(approval.value, target, b.targetNumber);
               && AncestorOrEqual(store.tree, b.head, approved.hash)
               && if disputesEnabled then
                    var named := rs.undisputedChain(b.targetNumber, target, approved.descriptions);
                    named.Answer? && named.value.1 == b.head
                  else b.head == approved.hash
  {
    PrepareStays(store, disputesEnabled, target, bestLeaf, max, rs);
    var b := Prepare(store, disputesEnabled, target, bestLeaf, max, rs).value;
    AncestorTransitive(store.tree, target, b.head, b.initialLeaf);
    HeadStays(store.tree, disputesEnabled, target, b.initialLeaf, rs);
  }

  lemma ForcedVoteNumber(store: Store, target: Hash, b: Ballot)
    requires Contiguous(store.tree) && target in store.tree && b.targetNumber == store.tree[target].number
    requires b.initialLeaf in store.tree && b.initialNumber == store.tree[b.initialLeaf].number
    requires MAX_FINALITY_LAG < b.lag <= b.initialNumber && Safeguard(store, target, b).Vote?
    ensures var h := Safeguard(store, target, b).hash;
            && h in store.tree
            && store.tree[h].number ==
               if b.targetNumber < b.initialNumber - MAX_FINALITY_LAG then b.initialNumber - MAX_FINALITY_LAG
               else b.targetNumber
  {
    var safeTarget := b.initialNumber - MAX_FINALITY_LAG;
    if safeTarget > b.targetNumber {
      WalkFindsAncestor(store, safeTarget, store.tree[b.initialLeaf]);
      AncestorAtFacts(store.tree, b.initialLeaf, safeTarget);
    }
  }

  /**
   A vote past the dispute step is on the chain that is approved and undisputed if and only if that chain ends at most
   the maximal lag below the constrained leaf, or the target does. Otherwise the safeguard forces a vote above it: for
   the block at the maximal lag.
   */
  lemma VoteIsApprovedUnlessForced(store: Store, disputesEnabled: bool, target: Hash, bestLeaf: Hash, max: Option<nat>,
                                   rs: Replies)
    requires Contiguous(store.tree) && target in store.tree
    requires !disputesEnabled ==> AncestorOrEqual(store.tree, target, bestLeaf)
    requires Honest(store.tree, target, rs)
    requires Prepare(store, disputesEnabled, target, bestLeaf, max, rs).Go?
    requires Target(store, disputesEnabled, target, bestLeaf, max, rs).Vote?
    ensures var b := Prepare(store, disputesEnabled, target, bestLeaf, max, rs).value;
            var vote := Target(store, disputesEnabled, target, bestLeaf, max, rs).hash;
            var held := b.lag <= MAX_FINALITY_LAG || b.initialNumber <= b.targetNumber + MAX_FINALITY_LAG;
            && (AncestorOrEqual(store.tree, vote, b.head) <==> held)
            && (!held ==>
                  && vote in store.tree && store.tree[vote].number == b.initialNumber - MAX_FINALITY_LAG
                  && b.head in store.tree && store.tree[b.head].number < store.tree[vote].number)
  {
    PrepareStays(store, disputesEnabled, target, bestLeaf, max, rs);
    var b := Prepare(store, disputesEnabled, target, bestLeaf, max, rs).value;
    var vote := Target(store, disputesEnabled, target, bestLeaf, max, rs).hash;
    AncestorFacts(store.tree, b.head, b.initialLeaf);
    if b.lag > MAX_FINALITY_LAG {
      ForcedVoteNumber(store, target, b);
      if AncestorOrEqual(store.tree, vote, b.head) {
        AncestorFacts(store.tree, vote, b.head);
      }
    }
  }

  /** The highest block of the leaf's chain that is not above the maximum. */
  function ConstrainedLeaf(tree: Tree, leaf: Hash, max: Option<nat>): Hash
    requires Contiguous(tree) && leaf in tree
  {
    if max.Some? && max.value < tree[leaf].number then AncestorAt(tree, leaf, max.value) else leaf
  }

  /** The block named at the end of the chain of answers: undisputed if disputes are enabled, else just approved. */
  function Selected(disputesEnabled: bool, target: Hash, n: nat, approved: ApprovedBlock, rs: Replies): (nat, Hash)
    requires disputesEnabled ==> rs.undisputedChain(n, target, approved.descriptions).Answer?
  {
    if disputesEnabled then rs.undisputedChain(n, target, approved.descriptions).value
    else (approved.number, approved.hash)
  }

  /** The chain selection names the leaf; without disputes it is the best one. */
  predicate NamesLeaf(disputesEnabled: bool, target: Hash, bestLeaf: Hash, leaf: Hash, rs: Replies) {
    if disputesEnabled then rs.bestLeafContaining(target) == Answer(Some(leaf)) else leaf == bestLeaf
  }

  /** If disputes are enabled, the approved block is described down to the target. */
  predicate Described(disputesEnabled: bool, n: nat, approved: ApprovedBlock) {
    disputesEnabled ==> approved.number == n + |approved.descriptions|
  }

  /** With every header readable the leaf is capped as the maximum asks. */
  lemma CapFindsConstrainedLeaf(store: Store, target: Hash, leaf: Hash, max: Option<nat>)
    requires Contiguous(store.tree) && target in store.tree && store.unreadable == {} && leaf in store.tree
    requires max.Some? ==> max.value > store.tree[target].number
    ensures var initial := ConstrainedLeaf(store.tree, leaf, max);
            && initial in store.tree
            && CapLeaf(store, target, store.tree[target].number, leaf, max) == Go(initial)
  {
    if max.Some? && max.value < store.tree[leaf].number {
      WalkFindsAncestor(store, max.value, store.tree[leaf]);
      AncestorAtFacts(store.tree, leaf, max.value);
    }
  }

  /** The safeguard on a ballot with every header readable. */
  lemma SafeguardExactly(store: Store, target: Hash, b: Ballot)
    requires Contiguous(store.tree) && store.unreadable == {}
    requires b.initialLeaf in store.tree && b.initialNumber == store.tree[b.initialLeaf].number
    requires b.lag <= b.initialNumber
    ensures Safeguard(store, target, b) == Vote(
              if b.lag <= MAX_FINALITY_LAG then b.head
              else if b.initialNumber <= b.targetNumber + MAX_FINALITY_LAG then target
              else AncestorAt(store.tree, b.initialLeaf, b.initialNumber - MAX_FINALITY_LAG))
  {
    if b.lag > MAX_FINALITY_LAG {
      WalkFindsAncestor(store, b.initialNumber - MAX_FINALITY_LAG, store.tree[b.initialLeaf]);
    }
  }

  /**
   With every header readable and every request answered, and the maximum above the target: the ballot starts at
   the highest block of the leaf's chain not above the maximum, its head is the block that the answers select
   below it, and its lag is how far that is behind.
   */
  lemma BallotExactly(store: Store, disputesEnabled: bool, target: Hash, bestLeaf: Hash, leaf: Hash, max: Option<nat>,
                      rs: Replies)
    requires Contiguous(store.tree) && target in store.tree && store.unreadable == {}
    requires leaf in store.tree && NamesLeaf(disputesEnabled, target, bestLeaf, leaf, rs)
    requires !disputesEnabled ==> bestLeaf != target
    requires max.Some? ==> max.value > store.tree[target].number
    requires var n := store.tree[target].number;
             var approval := rs.approvedAncestor(ConstrainedLeaf(store.tree, leaf, max), n);
             && approval.Answer?
             && var approved := Approved(approval.value, target, n);
                && Described(disputesEnabled, n, approved)
                && (disputesEnabled ==> rs.undisputedChain(n, target, approved.descriptions).Answer?)
    ensures var n := store.tree[target].number;
            var initial := ConstrainedLeaf(store.tree, leaf, max);
            var approved := Approved(rs.approvedAncestor(initial, n).value, target, n);
            var selected := Selected(disputesEnabled, target, n, approved, rs);
            && initial in store.tree
            && Prepare(store, disputesEnabled, target, bestLeaf, max, rs) ==
               Go(Ballot(n, initial, store.tree[initial].number,
                         SatSub(store.tree[initial].number, selected.0), selected.1))
  {
    CapFindsConstrainedLeaf(store, target, leaf, max);
  }

  /**
   The whole result, with every header readable and every request answered, with or without disputes: the selected
   block if it is at most the maximal lag below the constrained leaf; else the target if that is; else the
   block at the maximal lag. The vote stays at the target if that is the best leaf, or if with disputes enabled
   the approved chain is not described down to the target.
   */
  lemma TargetExactly(store: Store, disputesEnabled: bool, target: Hash, bestLeaf: Hash, leaf: Hash, max: Option<nat>,
                      rs: Replies)
    requires Contiguous(store.tree) && target in store.tree && store.unreadable == {}
    requires leaf in store.tree && NamesLeaf(disputesEnabled, target, bestLeaf, leaf, rs)
    requires max.Some? ==> max.value > store.tree[target].number
    requires var n := store.tree[target].number;
             var approval := rs.approvedAncestor(ConstrainedLeaf(store.tree, leaf, max), n);
             && approval.Answer?
             && var approved := Approved(approval.value, target, n);
                disputesEnabled && Described(disputesEnabled, n, approved) ==>
                  rs.undisputedChain(n, target, approved.descriptions).Answer?
    ensures var n := store.tree[target].number;
            var initial := ConstrainedLeaf(store.tree, leaf, max);
            var approved := Approved(rs.approvedAncestor(initial, n).value, target, n);
            && initial in store.tree
            && Target(store, disputesEnabled, target, bestLeaf, max, rs) == Vote(
                 if (!disputesEnabled && bestLeaf == target) || !Described(disputesEnabled, n, approved) then target
                 else
                   var selected := Selected(disputesEnabled, target, n, approved, rs);
                   if store.tree[initial].number <= selected.0 + MAX_FINALITY_LAG then selected.1
                   else if store.tree[initial].number <= n + MAX_FINALITY_LAG then target
                   else AncestorAt(store.tree, initial, store.tree[initial].number - MAX_FINALITY_LAG))
  {
    var n, initial := store.tree[target].number, ConstrainedLeaf(store.tree, leaf, max);
    CapFindsConstrainedLeaf(store, target, leaf, max);
    if (disputesEnabled || bestLeaf != target) &&
       Described(disputesEnabled, n, Approved(rs.approvedAncestor(initial, n).value, target, n))
    {
      BallotExactly(store, disputesEnabled, target, bestLeaf, leaf, max, rs);
      SafeguardExactly(store, target, Prepare(store, disputesEnabled, target, bestLeaf, max, rs).value);
    }
  }

  /** The approved and undisputed block is voted for, if it is at most the maximal lag below the leaf. */
  lemma ApprovedAndUndisputedIsVotedFor(store: Store, target: Hash, bestLeaf: Hash, leaf: Hash, a: ApprovedBlock,
                                        rs: Replies)
    requires Contiguous(store.tree) && target in store.tree && store.unreadable == {} && leaf in store.tree
    requires var n := store.tree[target].number;
             && rs.bestLeafContaining(target) == Answer(Some(leaf)) && rs.approvedAncestor(leaf, n) == Answer(Some(a))
             && a.number == n + |a.descriptions|
             && rs.undisputedChain(n, target, a.descriptions) == Answer((a.number, a.hash))
    requires store.tree[leaf].number <= a.number + 500
    ensures Target(store, true, target, bestLeaf, None, rs) == Vote(a.hash)
  {
    TargetExactly(store, true, target, bestLeaf, leaf, None, rs);
  }

  /**
   What happens when answers or headers are missing, stage by stage: without a leaf or above no maximum the vote
   stays at the target, as it does when the dispute coordinator is silent; a silent chain selection or approval
   voting is an error, and so is a header that cannot be read.
   */
  lemma TargetWithoutAnswers(store: Store, target: Hash, bestLeaf: Hash, leaf: Hash, max: Option<nat>, rs: Replies)
    requires Contiguous(store.tree) && target in store.tree && leaf in store.tree
    ensures var n := store.tree[target].number;
            var initial := ConstrainedLeaf(store.tree, leaf, max);
            var r := Target(store, true, target, bestLeaf, max, rs);
            match rs.bestLeafContaining(target)
            case Canceled => r == Failure(BestLeafContainingCanceled)
            case Answer(None) => r == Vote(target)
            case Answer(Some(l)) =>
              l == leaf ==>
                if target in store.unreadable then r == Failure(ChainLookup)
                else if max.Some? && max.value <= n then r == Vote(target)
                else if max.Some? && (leaf in store.unreadable ||
                                      (max.value < store.tree[leaf].number && Obstructed(store, leaf, max.value)))
                then r == Failure(ChainLookup)
                else if initial in store.unreadable then r == Failure(ChainLookup)
                else
                  match rs.approvedAncestor(initial, n)
                  case Canceled => r == Failure(ApprovedAncestorCanceled)
                  case Answer(a) =>
                    (|| !Described(true, n, Approved(a, target, n))
                     || rs.undisputedChain(n, target, Approved(a, target, n).descriptions).Canceled?) ==>
                      r == Vote(target)
  {
    if rs.bestLeafContaining(target) == Answer(Some(leaf)) && max.Some? && max.value < store.tree[leaf].number {
      WalkFindsAncestor(store, max.value, store.tree[leaf]);
      AncestorAtFacts(store.tree, leaf, max.value);
    }
  }

  /** A leaf more than the maximal lag above the target, and nothing approved in between: the vote leaves the target. */
  lemma NothingApprovedExample(store: Store, target: Hash, bestLeaf: Hash, leaf: Hash, rs: Replies)
    requires Contiguous(store.tree) && target in store.tree && store.unreadable == {}
    requires leaf in store.tree && store.tree[leaf].number > store.tree[target].number + MAX_FINALITY_LAG
    requires rs.bestLeafContaining(target) == Answer(Some(leaf))
    requires rs.approvedAncestor(leaf, store.tree[target].number) == Answer(None)
    requires rs.undisputedChain(store.tree[target].number, target, []) == Answer((store.tree[target].number, target))
    ensures var vote := AncestorAt(store.tree, leaf, store.tree[leaf].number - MAX_FINALITY_LAG);
            && Target(store, true, target, bestLeaf, None, rs) == Vote(vote)
            && vote in store.tree && store.tree[vote].number > store.tree[target].number
  {
    TargetExactly(store, true, target, bestLeaf, leaf, None, rs);
    AncestorAtFacts(store.tree, leaf, store.tree[leaf].number - MAX_FINALITY_LAG);
  }
}
