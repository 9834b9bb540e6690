/**
 The finality target: the block to vote for, given what chain selection, approval voting and the
 dispute coordinator answer.

 Each request is a function from its arguments to an answer or a cancellation. What the answers promise
 is the contract of the messages; nothing else is assumed of them.
 */
module FinalityTarget {
  import opened Options
  import opened Numbers
  import opened Hashes
  import opened BlockTree

  const MAX_FINALITY_LAG: nat := 500

  datatype Reply<+T> = Answer(value: T) | Canceled

  datatype BlockDescription = BlockDescription(blockHash: Hash)

  datatype ApprovedBlock = ApprovedBlock(hash: Hash, number: nat, descriptions: seq<BlockDescription>)

  datatype Replies = Replies(
    bestLeafContaining: Hash -> Reply<Option<Hash>>,
    approvedAncestor: (Hash, nat) -> Reply<Option<ApprovedBlock>>,
    undisputedChain: (nat, Hash, seq<BlockDescription>) -> Reply<(nat, Hash)>)

  datatype Error = ChainLookup | BestLeafContainingCanceled | ApprovedAncestorCanceled

  datatype TargetResult = Vote(hash: Hash) | Failure(error: Error)

  /** A stage of the pipeline ends the computation or hands a value on. */
  datatype Stage<+T> = Stop(result: TargetResult) | Go(value: T)

  /** What the last stage starts from. */
  datatype Ballot = Ballot(targetNumber: nat, initialLeaf: Hash, initialNumber: nat, lag: nat, head: Hash)

  function BlockNumber(store: Store, h: Hash): Option<nat> {
    if h in store.tree && h !in store.unreadable then Some(store.tree[h].number) else None
  }

  function BlockHeader(store: Store, h: Hash): Option<Header> {
    if h in store.tree && h !in store.unreadable then Some(store.tree[h]) else None
  }

  function ChooseLeaf(disputesEnabled: bool, target: Hash, bestLeaf: Hash, rs: Replies): Stage<Hash> {
    if disputesEnabled then
      match rs.bestLeafContaining(target)
      case Canceled => Stop(Failure(BestLeafContainingCanceled))
      case Answer(None) => Stop(Vote(target))
      case Answer(Some(best)) => Go(best)
    else if bestLeaf == target then Stop(Vote(target))
    else Go(bestLeaf)
  }

  function CapLeaf(store: Store, target: Hash, targetNumber: nat, leaf: Hash, max: Option<nat>): Stage<Hash>
    requires Contiguous(store.tree)
  {
    if max.None? then Go(leaf)
    else if max.value <= targetNumber then Stop(Vote(target))
    else
      match BlockHeader(store, leaf)
      case None => Stop(Failure(ChainLookup))
      case Some(header) =>
        if header.number <= max.value then Go(leaf)
        else
          match Walk(store, max.value, header)
          case Found(ancestor, _) => Go(ancestor)
          case LookupFailed => Stop(Failure(ChainLookup))
  }

  function ApprovalHead(target: Hash, targetNumber: nat, leaf: Hash, rs: Replies): Stage<ApprovedBlock> {
    match rs.approvedAncestor(leaf, targetNumber)
    case Canceled => Stop(Failure(ApprovedAncestorCanceled))
    case Answer(None) => Go(ApprovedBlock(target, targetNumber, []))
    case Answer(Some(approved)) => Go(approved)
  }

  function DisputeHead(disputesEnabled: bool, target: Hash, targetNumber: nat, initialNumber: nat,
                       approved: ApprovedBlock,
                       rs: Replies): Stage<(nat, Hash)>
  {
    if !disputesEnabled then Go((SatSub(initialNumber, approved.number), approved.hash))
    else if approved.number < targetNumber || |approved.descriptions| != approved.number - targetNumber then
      Stop(Vote(target))
    else
      match rs.undisputedChain(targetNumber, target, approved.descriptions)
      case Canceled => Stop(Vote(target))
      case Answer((n, h)) => Go((SatSub(initialNumber, n), h))
  }

  /** Everything up to and including the dispute step. */
  function Prepare(store: Store, disputesEnabled: bool, target: Hash, bestLeaf: Hash, max: Option<nat>, rs: Replies)
    : Stage<Ballot>
    requires Contiguous(store.tree)
  {
    match ChooseLeaf(disputesEnabled, target, bestLeaf, rs)
    case Stop(r) => Stop(r)
    case Go(leaf) =>
      match BlockNumber(store, target)
      case None => Stop(Failure(ChainLookup))
      case Some(targetNumber) =>
        match CapLeaf(store, target, targetNumber, leaf, max)
        case Stop(r) => Stop(r)
        case Go(initialLeaf) =>
          match BlockNumber(store, initialLeaf)
          case None => Stop(Failure(ChainLookup))
          case Some(initialNumber) =>
            match ApprovalHead(target, targetNumber, initialLeaf, rs)
            case Stop(r) => Stop(r)
            case Go(approved) =>
              match DisputeHead(disputesEnabled, target, targetNumber, initialNumber, approved, rs)
              case Stop(r) => Stop(r)
              case Go((lag, head)) => Go(Ballot(targetNumber, initialLeaf, initialNumber, lag, head))
  }

  /** The safeguard: no vote further than the maximal lag behind the constrained leaf. */
  function Safeguard(store: Store, target: Hash, b: Ballot): TargetResult
    requires Contiguous(store.tree)
    requires b.initialLeaf in store.tree && b.initialNumber == store.tree[b.initialLeaf].number
    requires b.lag <= b.initialNumber
  {
    if b.lag > MAX_FINALITY_LAG then
      var safeTarget := b.initialNumber - MAX_FINALITY_LAG;
      if safeTarget <= b.targetNumber then Vote(target)
      else
        match BlockHeader(store, b.initialLeaf)
        case None => Failure(ChainLookup)
        case Some(header) =>
          match Walk(store, safeTarget, header)
          case Found(forced, _) => Vote(forced)
          case LookupFailed => Failure(ChainLookup)
    else Vote(b.head)
  }

  function Target(store: Store, disputesEnabled: bool, target: Hash, bestLeaf: Hash, max: Option<nat>, rs: Replies)
    : TargetResult
    requires Contiguous(store.tree)
  {
    match Prepare(store, disputesEnabled, target, bestLeaf, max, rs)
    case Stop(r) => r
    case Go(b) => Safeguard(store, target, b)
  }

  // ---- what the answers promise

  /** A leaf containing the given block. */
  ghost predicate HonestLeaf(tree: Tree, target: Hash, rs: Replies)
    requires Contiguous(tree)
  {
    match rs.bestLeafContaining(target)
    case Answer(Some(leaf)) => AncestorOrEqual(tree, target, leaf)
    case _ => true
  }

  /** An ancestor of the given block no lower than asked, and the path of blocks that ends in it, lowest first. */
  ghost predicate HonestApproval(tree: Tree, leaf: Hash, n: nat, a: ApprovedBlock)
    requires Contiguous(tree)
  {
    && AncestorOrEqual(tree, a.hash, leaf)
    && a.hash in tree && a.number == tree[a.hash].number && n <= a.number
    && |a.descriptions| <= a.number
    && forall i :: 0 <= i < |a.descriptions| ==>
         a.descriptions[i].blockHash == AncestorAt(tree, a.hash, a.number - |a.descriptions| + 1 + i)
  }

  ghost predicate HonestApprovals(tree: Tree, rs: Replies)
    requires Contiguous(tree)
  {
    forall leaf, n ::
      leaf in tree && rs.approvedAncestor(leaf, n).Answer? && rs.approvedAncestor(leaf, n).value.Some? ==>
        HonestApproval(tree, leaf, n, rs.approvedAncestor(leaf, n).value.value)
  }

  /** The base, or one of the blocks described. */
  ghost predicate WithinChain(baseNumber: nat, base: Hash, descriptions: seq<BlockDescription>, n: nat, h: Hash) {
    || (n == baseNumber && h == base)
    || (baseNumber < n <= baseNumber + |descriptions| && h == descriptions[n - baseNumber - 1].blockHash)
  }

  ghost predicate HonestDisputes(rs: Replies) {
    forall n: nat, h, ds ::
      rs.undisputedChain(n, h, ds).Answer? ==>
        WithinChain(n, h, ds, rs.undisputedChain(n, h, ds).value.0, rs.undisputedChain(n, h, ds).value.1)
  }

  ghost predicate Honest(tree: Tree, target: Hash, rs: Replies)
    requires Contiguous(tree)
  {
    HonestLeaf(tree, target, rs) && HonestApprovals(tree, rs) && HonestDisputes(rs)
  }

}
