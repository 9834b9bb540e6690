/** The GRANDPA voting rule that pauses votes at a block for a number of blocks. */
module VotingPause {
  import opened Options
  import opened Hashes
  import opened BlockTree

  /** Pause at height `at`, until the best block passes `at + delay`. */
  datatype PauseAfterBlockFor = PauseAfterBlockFor(at: nat, delay: nat)

  /** The restricted vote, or `None` to leave the vote as it is. */
  function RestrictVote(rule: PauseAfterBlockFor, store: Store, base: Header, best: Header, current: Header)
    : Option<(Hash, nat)>
    requires Contiguous(store.tree) && current.hash in store.tree && store.tree[current.hash] == current
  {
    if current.number > rule.at then
      if best.number > rule.at + rule.delay then None
      else if base.number >= rule.at then Some((base.hash, base.number))
      else
        match Walk(store, rule.at, current)
        case Found(h, n) => Some((h, n))
        case LookupFailed => None
    else None
  }

  /** What is voted for once the rule has been applied. */
  function VoteUnder(rule: PauseAfterBlockFor, store: Store, base: Header, best: Header, current: Header): (Hash, nat)
    requires Contiguous(store.tree) && current.hash in store.tree && store.tree[current.hash] == current
  {
    var r := RestrictVote(rule, store, base, best, current);
    if r.Some? then r.value else (current.hash, current.number)
  }

  /** The rule only ever moves the vote down the branch, and not below the base. */
  lemma PauseStaysOnBranch(rule: PauseAfterBlockFor, store: Store, base: Header, best: Header, current: Header)
    requires Contiguous(store.tree) && current.hash in store.tree && store.tree[current.hash] == current
    requires base.hash in store.tree && store.tree[base.hash] == base
    requires AncestorOrEqual(store.tree, base.hash, current.hash)
    ensures var (h, n) := VoteUnder(rule, store, base, best, current);
            && AncestorOrEqual(store.tree, base.hash, h) && AncestorOrEqual(store.tree, h, current.hash)
            && h in store.tree && store.tree[h].number == n
  {
    var tree := store.tree;
    if current.number > rule.at && base.number < rule.at {
      WalkFindsAncestor(store, rule.at, current);
      AncestorAtFacts(tree, current.hash, rule.at);
      AncestorsAreOrdered(tree, base.hash, AncestorAt(tree, current.hash, rule.at), current.hash);
    }
  }

  /**
   During the pause no vote goes above the pause block, or above the base once that is past it, if and only if
   the rule has no header to load or can load them all: a failed lookup leaves the vote unrestricted.
   */
  lemma PauseHoldsExactly(rule: PauseAfterBlockFor, store: Store, base: Header, best: Header, current: Header)
    requires Contiguous(store.tree) && current.hash in store.tree && store.tree[current.hash] == current
    requires best.number <= rule.at + rule.delay
    ensures VoteUnder(rule, store, base, best, current).1 <=
              (if base.number < rule.at then rule.at else base.number) <==>
            current.number <= rule.at || base.number >= rule.at || !Obstructed(store, current.hash, rule.at)
  {
    if current.number > rule.at && base.number < rule.at {
      WalkFindsAncestor(store, rule.at, current);
    }
  }

  /** Three blocks, a pause at the second, whose header fails to load: the vote for the third stands. */
  lemma PauseExample(genesis: Hash, second: Hash, third: Hash)
    requires genesis != second && genesis != third && second != third
    ensures var tree := map[genesis := Header(genesis, 0, genesis),
                            second := Header(second, 1, genesis),
                            third := Header(third, 2, second)];
            && Contiguous(tree)
            && VoteUnder(PauseAfterBlockFor(1, 10), Store(tree, {second}), tree[genesis], tree[third], tree[third]) ==
               (third, 2)
  {
  }

  /** Before the pause block, and once the best block is past the pause, the vote is left alone. */
  lemma PauseEnds(rule: PauseAfterBlockFor, store: Store, base: Header, best: Header, current: Header)
    requires Contiguous(store.tree) && current.hash in store.tree && store.tree[current.hash] == current
    requires best.number > rule.at + rule.delay || current.number <= rule.at
    ensures RestrictVote(rule, store, base, best, current).None?
    ensures VoteUnder(rule, store, base, best, current) == (current.hash, current.number)
  {
  }

  /** During the pause, with every header readable, the vote is the branch's block at the pause height, or the base. */
  lemma PausedVote(rule: PauseAfterBlockFor, store: Store, base: Header, best: Header, current: Header)
    requires Contiguous(store.tree) && current.hash in store.tree && store.tree[current.hash] == current
    requires best.number <= rule.at + rule.delay && current.number > rule.at
    requires !Obstructed(store, current.hash, rule.at)
    ensures VoteUnder(rule, store, base, best, current) ==
            if base.number >= rule.at then (base.hash, base.number)
            else (AncestorAt(store.tree, current.hash, rule.at), rule.at)
  {
    WalkFindsAncestor(store, rule.at, current);
  }
}
