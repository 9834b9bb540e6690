/** The header store as a tree of blocks, and the walk towards its root. */
module BlockTree {
  import opened Hashes

  datatype Header = Header(hash: Hash, number: nat, parentHash: Hash)

  type Tree = map<Hash, Header>

  /** Headers are stored under their hash, and contiguously: the parent of a stored block is stored. */
  predicate Contiguous(tree: Tree) {
    forall h :: h in tree ==>
      && tree[h].hash == h
      && (tree[h].number > 0 ==>
            tree[h].parentHash in tree && tree[tree[h].parentHash].number == tree[h].number - 1)
  }

  predicate AncestorOrEqual(tree: Tree, a: Hash, d: Hash)
    requires Contiguous(tree)
    decreases if d in tree then tree[d].number else 0
  {
    && d in tree
    && (a == d || (tree[d].number > 0 && AncestorOrEqual(tree, a, tree[d].parentHash)))
  }

  /** The ancestor of `d`, or `d` itself, at height `n`. */
  function AncestorAt(tree: Tree, d: Hash, n: nat): Hash
    requires Contiguous(tree) && d in tree && n <= tree[d].number
    decreases tree[d].number
  {
    if tree[d].number == n then d else AncestorAt(tree, tree[d].parentHash, n)
  }

  lemma {:induction false} AncestorFacts(tree: Tree, a: Hash, d: Hash)
    requires Contiguous(tree) && AncestorOrEqual(tree, a, d)
    ensures a in tree && tree[a].number <= tree[d].number
    ensures AncestorAt(tree, d, tree[a].number) == a
    decreases tree[d].number
  {
    if a == d {
    } else {
      AncestorFacts(tree, a, tree[d].parentHash);
    }
  }

  lemma {:induction false} AncestorAtFacts(tree: Tree, d: Hash, n: nat)
    requires Contiguous(tree) && d in tree && n <= tree[d].number
    ensures AncestorAt(tree, d, n) in tree && tree[AncestorAt(tree, d, n)].number == n
    ensures AncestorOrEqual(tree, AncestorAt(tree, d, n), d)
    decreases tree[d].number
  {
    if tree[d].number == n {
    } else {
      AncestorAtFacts(tree, tree[d].parentHash, n);
    }
  }

  lemma {:induction false} AncestorTransitive(tree: Tree, a: Hash, b: Hash, c: Hash)
    requires Contiguous(tree) && AncestorOrEqual(tree, a, b) && AncestorOrEqual(tree, b, c)
    ensures AncestorOrEqual(tree, a, c)
    decreases tree[c].number
  {
    if b == c {
    } else {
      AncestorTransitive(tree, a, b, tree[c].parentHash);
    }
  }

  /** Of two ancestors of one block, the lower is an ancestor of the higher. */
  lemma {:induction false} AncestorsAreOrdered(tree: Tree, a: Hash, b: Hash, d: Hash)
    requires Contiguous(tree) && AncestorOrEqual(tree, a, d) && AncestorOrEqual(tree, b, d)
    requires a in tree && b in tree && tree[a].number <= tree[b].number
    ensures AncestorOrEqual(tree, a, b)
    decreases tree[d].number
  {
    if b == d {
    } else {
      AncestorFacts(tree, b, tree[d].parentHash);
      AncestorsAreOrdered(tree, a, b, tree[d].parentHash);
    }
  }

  /** The store as it answers: some headers may fail to load. */
  datatype Store = Store(tree: Tree, unreadable: set<Hash>)

  datatype WalkResult = Found(hash: Hash, number: nat) | LookupFailed

  /** Some block that the walk has to load cannot be loaded. */
  ghost predicate Obstructed(store: Store, d: Hash, n: nat)
    requires Contiguous(store.tree) && d in store.tree && n <= store.tree[d].number
  {
    exists k :: n <= k < store.tree[d].number && AncestorAt(store.tree, d, k) in store.unreadable
  }

  function Walk(store: Store, n: nat, header: Header): WalkResult
    requires Contiguous(store.tree) && header.hash in store.tree && store.tree[header.hash] == header
    requires n <= header.number
    decreases header.number
  {
    if header.number == n then Found(header.hash, n)
    else if header.parentHash in store.unreadable then LookupFailed
    else Walk(store, n, store.tree[header.parentHash])
  }

  /** A walk that starts at or above its goal returns the one ancestor at that height, unless a header fails to load. */
  lemma {:induction false} WalkFindsAncestor(store: Store, n: nat, header: Header)
    requires Contiguous(store.tree) && header.hash in store.tree && store.tree[header.hash] == header
    requires n <= header.number
    ensures Walk(store, n, header) ==
            if Obstructed(store, header.hash, n) then LookupFailed
            else Found(AncestorAt(store.tree, header.hash, n), n)
    decreases header.number
  {
    var tree, d := store.tree, header.hash;
    if header.number == n {
    } else {
      var p := header.parentHash;
      WalkFindsAncestor(store, n, tree[p]);
      assert AncestorAt(tree, d, header.number - 1) == p;
      if Obstructed(store, d, n) && p !in store.unreadable {
        var k :| n <= k < header.number && AncestorAt(tree, d, k) in store.unreadable;
        assert AncestorAt(tree, p, k) in store.unreadable;
      }
      if Obstructed(store, p, n) {
        var k :| n <= k < tree[p].number && AncestorAt(tree, p, k) in store.unreadable;
        assert AncestorAt(tree, d, k) in store.unreadable;
      }
    }
  }

  /** The loop: never below its goal, and every header it needs exists. */
  method WalkBackwardsToTargetBlock(store: Store, targetNumber: nat, currentHeader: Header) returns (r: WalkResult)
    requires Contiguous(store.tree)
    requires currentHeader.hash in store.tree && store.tree[currentHeader.hash] == currentHeader
    requires targetNumber <= currentHeader.number
    ensures r == if Obstructed(store, currentHeader.hash, targetNumber) then LookupFailed
                 else Found(AncestorAt(store.tree, currentHeader.hash, targetNumber), targetNumber)
  {
    WalkFindsAncestor(store, targetNumber, currentHeader);
    var targetHash := currentHeader.hash;
    var targetHeader := currentHeader;
    while true
      invariant targetHash in store.tree && store.tree[targetHash] == targetHeader && targetHeader.hash == targetHash
      invariant targetNumber <= targetHeader.number
      invariant Walk(store, targetNumber, targetHeader) == Walk(store, targetNumber, currentHeader)
      decreases targetHeader.number
    {
      if targetHeader.number == targetNumber {
        return Found(targetHash, targetNumber);
      }
      targetHash := targetHeader.parentHash;
      if targetHash in store.unreadable {
        return LookupFailed;
      }
      targetHeader := store.tree[targetHash];
    }
  }
}
