/** The batched walk that collects the new blocks below a head, against the naive one-parent-at-a-time walk. */
module NewBlocks {
  import opened Options
  import opened Numbers
  import opened Hashes
  import opened BlockTree

  const ANCESTRY_STEP: nat := 4

  datatype KnownReply = Known | Unknown | DatabaseError

  /** The chain API: `None` stands for a canceled or failed request, and for a header that is not there. */
  datatype ChainApi = ChainApi(
    ancestors: (Hash, nat) -> Option<seq<Hash>>,
    blockHeader: Hash -> Option<Header>)

  datatype NewBlocks = Blocks(ancestry: seq<(Hash, Header)>) | DatabaseFailure

  /** A reply about ancestors is a stretch of them, nearest first, of at most the length asked for, and maybe empty. */
  ghost predicate HonestAncestors(tree: Tree, h: Hash, k: nat, reply: seq<Hash>)
    requires Contiguous(tree) && h in tree
  {
    && |reply| <= k && |reply| <= tree[h].number
    && forall i :: 0 <= i < |reply| ==> reply[i] == AncestorAt(tree, h, tree[h].number - 1 - i)
  }

  ghost predicate HonestApi(tree: Tree, api: ChainApi)
    requires Contiguous(tree)
  {
    && (forall h, k: nat :: h in tree && 1 <= k <= tree[h].number && api.ancestors(h, k).Some? ==>
          HonestAncestors(tree, h, k, api.ancestors(h, k).value))
    && (forall h :: api.blockHeader(h).Some? ==> h in tree && api.blockHeader(h).value == tree[h])
  }

  /** No request to the chain API fails. */
  ghost predicate Answering(tree: Tree, api: ChainApi)
    requires Contiguous(tree)
  {
    && (forall h, k: nat :: h in tree && 1 <= k <= tree[h].number ==> api.ancestors(h, k).Some?)
    && (forall h :: h in tree ==> api.blockHeader(h).Some?)
  }

  /** The specification: one parent at a time, down to the lowest block needed or the first block that is not new. */
  function NaiveWalk(tree: Tree, isKnown: Hash -> KnownReply, h: Hash, lowest: nat): seq<(Hash, Header)>
    requires Contiguous(tree) && h in tree && lowest >= 1
    decreases tree[h].number
  {
    if !isKnown(h).Unknown? || tree[h].number < lowest then []
    else [(h, tree[h])] + if tree[h].number == lowest then [] else NaiveWalk(tree, isKnown, tree[h].parentHash, lowest)
  }

  /** Going down from `h`, the first block at or above the lowest one needed that is not new is a database error. */
  predicate ErrorAhead(tree: Tree, isKnown: Hash -> KnownReply, h: Hash, lowest: nat)
    requires Contiguous(tree) && h in tree && lowest >= 1
    decreases tree[h].number
  {
    && tree[h].number >= lowest
    && (|| isKnown(h).DatabaseError?
        || (isKnown(h).Unknown? && tree[h].number > lowest && ErrorAhead(tree, isKnown, tree[h].parentHash, lowest)))
  }

  /**
   The walk runs into a database error: at the head, at its parent if the head is new and needed (even if the parent is
   not needed), or further down.
   */
  predicate RunsIntoError(tree: Tree, isKnown: Hash -> KnownReply, head: Hash, lowest: nat)
    requires Contiguous(tree) && head in tree && lowest >= 1
  {
    || isKnown(head).DatabaseError?
    || (&& isKnown(head).Unknown? && tree[head].number >= lowest
        && (isKnown(tree[head].parentHash).DatabaseError? || ErrorAhead(tree, isKnown, head, lowest)))
  }

  // ---- the batched walk on values, one pass of its loop at a time

  /** The walk goes on from its last block, or has ended with a result. */
  datatype Progress = Walking(ancestry: seq<(Hash, Header)>) | Ended(result: NewBlocks)

  /** The headers that could be had, in order. */
  function Fetched(api: ChainApi, hashes: seq<Hash>): seq<Header> {
    if hashes == [] then []
    else
      var reply := api.blockHeader(hashes[|hashes| - 1]);
      Fetched(api, hashes[..|hashes| - 1]) + if reply.Some? then [reply.value] else []
  }

  /** The blocks of one batch from the i-th on, up to the first that is not new or the lowest one needed. */
  function AddBlocks(isKnown: Hash -> KnownReply, lowest: nat, ancestry: seq<(Hash, Header)>, hashes: seq<Hash>,
                     headers: seq<Header>, i: nat): Progress
    requires i <= |hashes| == |headers|
    decreases |hashes| - i
  {
    if i == |hashes| then Walking(ancestry)
    else
      var known, longer := isKnown(hashes[i]), ancestry + [(hashes[i], headers[i])];
      if known.DatabaseError? then Ended(DatabaseFailure)
      else if known.Known? || headers[i].number < lowest then Ended(Blocks(ancestry))
      else if headers[i].number == lowest then Ended(Blocks(longer))
      else AddBlocks(isKnown, lowest, longer, hashes, headers, i + 1)
  }

  /** The hashes of the next batch: the parent alone, or what the chain API says about ancestors. */
  function Batch(api: ChainApi, lastHash: Hash, lastHeader: Header, lowest: nat): Option<seq<Hash>> {
    var step := Min(ANCESTRY_STEP, SatSub(lastHeader.number, lowest));
    if step == 1 then Some([lastHeader.parentHash]) else api.ancestors(lastHash, step)
  }

  function Pass(api: ChainApi, isKnown: Hash -> KnownReply, lowest: nat, ancestry: seq<(Hash, Header)>): Progress
    requires ancestry != []
  {
    var (lastHash, lastHeader) := ancestry[|ancestry| - 1];
    match Batch(api, lastHash, lastHeader, lowest)
    case None => Ended(Blocks(ancestry))
    case Some(hashes) =>
      var headers := Fetched(api, hashes);
      if |headers| != |hashes| then Ended(Blocks(ancestry))
      else AddBlocks(isKnown, lowest, ancestry, hashes, headers, 0)
  }

  /** Before the loop: three ways to end at once. */
  function Start(isKnown: Hash -> KnownReply, head: Hash, header: Header, lowest: nat): Progress {
    var known, parentKnown := isKnown(head), isKnown(header.parentHash);
    if known.DatabaseError? then Ended(DatabaseFailure)
    else if known.Known? || header.number < lowest then Ended(Blocks([]))
    else if parentKnown.DatabaseError? then Ended(DatabaseFailure)
    else if parentKnown.Known? || header.number == lowest then Ended(Blocks([(head, header)]))
    else Walking([(head, header)])
  }

  /** The walk after `n` passes of the loop. */
  function After(api: ChainApi, isKnown: Hash -> KnownReply, lowest: nat, w: Progress, n: nat): Progress
    decreases n
  {
    if n == 0 || w.Ended? || w.ancestry == [] then w
    else After(api, isKnown, lowest, Pass(api, isKnown, lowest, w.ancestry), n - 1)
  }

  lemma {:induction false} ParentOfAncestor(tree: Tree, h: Hash, n: nat)
    requires Contiguous(tree) && h in tree && n < tree[h].number
    ensures AncestorAt(tree, h, n + 1) in tree
    ensures AncestorAt(tree, h, n) == tree[AncestorAt(tree, h, n + 1)].parentHash
    decreases tree[h].number
  {
    if n + 1 == tree[h].number {
    } else {
      ParentOfAncestor(tree, tree[h].parentHash, n);
    }
  }

  lemma {:induction false} FetchedFacts(api: ChainApi, hashes: seq<Hash>)
    ensures |Fetched(api, hashes)| <= |hashes|
    ensures |Fetched(api, hashes)| == |hashes| ==>
              forall i :: 0 <= i < |hashes| ==> api.blockHeader(hashes[i]) == Some(Fetched(api, hashes)[i])
    ensures (forall h :: h in hashes ==> api.blockHeader(h).Some?) ==> |Fetched(api, hashes)| == |hashes|
  {
    if hashes == [] {
    } else {
      FetchedFacts(api, hashes[..|hashes| - 1]);
    }
  }

  /** The last block collected, and what the naive walk still has below it. */
  ghost predicate OnTheWay(tree: Tree, isKnown: Hash -> KnownReply, head: Hash, lowest: nat,
                           ancestry: seq<(Hash, Header)>)
    requires Contiguous(tree) && head in tree && lowest >= 1
  {
    && ancestry != []
    && var (h, header) := ancestry[|ancestry| - 1];
       && h in tree && header == tree[h] && header.number > lowest && AncestorOrEqual(tree, h, head)
       && NaiveWalk(tree, isKnown, head, lowest) == ancestry + NaiveWalk(tree, isKnown, header.parentHash, lowest)
       && (RunsIntoError(tree, isKnown, head, lowest) <==> ErrorAhead(tree, isKnown, header.parentHash, lowest))
  }

  lemma ParentIsAncestor(tree: Tree, h: Hash, head: Hash)
    requires Contiguous(tree) && AncestorOrEqual(tree, h, head) && h in tree && tree[h].number > 0
    ensures AncestorOrEqual(tree, tree[h].parentHash, head)
  {
    AncestorTransitive(tree, tree[h].parentHash, h, head);
  }

  lemma Regroup<T>(a: seq<T>, e: T, b: seq<T>)
    ensures a + ([e] + b) == a + [e] + b
    ensures a + [e] <= a + [e] + b
    ensures b == [] ==> a + [e] + b == a + [e]
  {
  }

  /** One more block on the way: the parent of the last one is new and needed. */
  lemma OneFurther(tree: Tree, isKnown: Hash -> KnownReply, head: Hash, lowest: nat, ancestry: seq<(Hash, Header)>)
    requires Contiguous(tree) && head in tree && lowest >= 1 && OnTheWay(tree, isKnown, head, lowest, ancestry)
    requires isKnown(ancestry[|ancestry| - 1].1.parentHash).Unknown?
    requires AncestorOrEqual(tree, ancestry[|ancestry| - 1].1.parentHash, head)
    ensures var p := ancestry[|ancestry| - 1].1.parentHash;
            var longer := ancestry + [(p, tree[p])];
            && longer <= NaiveWalk(tree, isKnown, head, lowest)
            && (if tree[p].number == lowest then
                  longer == NaiveWalk(tree, isKnown, head, lowest) && !RunsIntoError(tree, isKnown, head, lowest)
                else OnTheWay(tree, isKnown, head, lowest, longer))
  {
    var p := ancestry[|ancestry| - 1].1.parentHash;
    var below := if tree[p].number == lowest then [] else NaiveWalk(tree, isKnown, tree[p].parentHash, lowest);
    Regroup(ancestry, (p, tree[p]), below);
  }

  /** No further: the parent of the last one is known or not needed. */
  lemma NothingFurther(tree: Tree, isKnown: Hash -> KnownReply, head: Hash, lowest: nat, ancestry: seq<(Hash, Header)>)
    requires Contiguous(tree) && head in tree && lowest >= 1 && OnTheWay(tree, isKnown, head, lowest, ancestry)
    requires var p := ancestry[|ancestry| - 1].1.parentHash; p in tree && (isKnown(p).Known? || tree[p].number < lowest)
    ensures ancestry == NaiveWalk(tree, isKnown, head, lowest) && !RunsIntoError(tree, isKnown, head, lowest)
  {
  }

  /** Each hash of a batch is the parent of the one before it. */
  lemma BatchLinks(tree: Tree, h: Hash, hashes: seq<Hash>, i: nat)
    requires Contiguous(tree) && h in tree && HonestAncestors(tree, h, |hashes|, hashes) && i < |hashes|
    ensures i > 0 ==> hashes[i - 1] in tree
    ensures hashes[i] == tree[if i == 0 then h else hashes[i - 1]].parentHash
  {
    ParentOfAncestor(tree, h, tree[h].number - 1 - i);
  }

  /** The walk has run to its end without an error and collected this. */
  ghost predicate EndsWith(tree: Tree, isKnown: Hash -> KnownReply, head: Hash, lowest: nat,
                           ancestry: seq<(Hash, Header)>)
    requires Contiguous(tree) && head in tree && lowest >= 1
  {
    ancestry == NaiveWalk(tree, isKnown, head, lowest) && !RunsIntoError(tree, isKnown, head, lowest)
  }

  /** The next hash of a batch: where it stands, and what the walk does with it. */
  lemma BatchStep(tree: Tree, isKnown: Hash -> KnownReply, head: Hash, lowest: nat, ancestry: seq<(Hash, Header)>,
                  lastHash: Hash, hashes: seq<Hash>, i: nat)
    requires Contiguous(tree) && head in tree && lowest >= 1 && OnTheWay(tree, isKnown, head, lowest, ancestry)
    requires lastHash in tree && HonestAncestors(tree, lastHash, |hashes|, hashes) && i < |hashes|
    requires ancestry[|ancestry| - 1].0 == if i == 0 then lastHash else hashes[i - 1]
    ensures var h := hashes[i];
            && h in tree && AncestorOrEqual(tree, h, head) && tree[h].number == ancestry[|ancestry| - 1].1.number - 1
            && tree[h].number >= lowest
            && (isKnown(h).DatabaseError? ==> RunsIntoError(tree, isKnown, head, lowest))
            && (isKnown(h).Known? ==> EndsWith(tree, isKnown, head, lowest, ancestry))
            && (isKnown(h).Unknown? ==>
                  var longer := ancestry + [(h, tree[h])];
                  if tree[h].number == lowest then EndsWith(tree, isKnown, head, lowest, longer)
                  else OnTheWay(tree, isKnown, head, lowest, longer))
  {
    BatchLinks(tree, lastHash, hashes, i);
    ParentIsAncestor(tree, ancestry[|ancestry| - 1].0, head);
    if isKnown(hashes[i]).Unknown? {
      OneFurther(tree, isKnown, head, lowest, ancestry);
    } else if isKnown(hashes[i]).Known? {
      NothingFurther(tree, isKnown, head, lowest, ancestry);
    }
  }

  /** Where a batch takes the walk, from its i-th hash on. */
  lemma {:induction false} AddBlocksFollowsWalk(tree: Tree, isKnown: Hash -> KnownReply, head: Hash, lowest: nat,
                                                ancestry: seq<(Hash, Header)>, lastHash: Hash, hashes: seq<Hash>,
                                                headers: seq<Header>, i: nat)
    requires Contiguous(tree) && head in tree && lowest >= 1 && OnTheWay(tree, isKnown, head, lowest, ancestry)
    requires lastHash in tree && HonestAncestors(tree, lastHash, |hashes|, hashes) && i <= |hashes| == |headers|
    requires forall k :: 0 <= k < |hashes| ==> hashes[k] in tree && headers[k] == tree[hashes[k]]
    requires ancestry[|ancestry| - 1].0 == if i == 0 then lastHash else hashes[i - 1]
    ensures Follows(tree, isKnown, head, lowest, ancestry[|ancestry| - 1].1.number - (|hashes| - i),
                    AddBlocks(isKnown, lowest, ancestry, hashes, headers, i))
    decreases |hashes| - i
  {
    if i == |hashes| {
    } else {
      BatchStep(tree, isKnown, head, lowest, ancestry, lastHash, hashes, i);
      var h := hashes[i];
      var longer := ancestry + [(h, tree[h])];
      if isKnown(h).Unknown? && tree[h].number > lowest {
        assert longer[|longer| - 1] == (h, tree[h]);
        AddBlocksFollowsWalk(tree, isKnown, head, lowest, longer, lastHash, hashes, headers, i + 1);
      }
    }
  }

  /**
   The walk is on the way with its last block at height `n`, or has ended with all of the naive walk, or in a
   database error.
   */
  ghost predicate Follows(tree: Tree, isKnown: Hash -> KnownReply, head: Hash, lowest: nat, n: int, w: Progress)
    requires Contiguous(tree) && head in tree && lowest >= 1
  {
    match w
    case Walking(ancestry) =>
      OnTheWay(tree, isKnown, head, lowest, ancestry) && ancestry[|ancestry| - 1].1.number == n
    case Ended(Blocks(ancestry)) => EndsWith(tree, isKnown, head, lowest, ancestry)
    case Ended(DatabaseFailure) => RunsIntoError(tree, isKnown, head, lowest)
  }

  /** The last block's ancestors are asked for and the answer is that there are none. */
  predicate EmptyAnswer(api: ChainApi, lowest: nat, ancestry: seq<(Hash, Header)>)
    requires ancestry != []
  {
    var (lastHash, lastHeader) := ancestry[|ancestry| - 1];
    Batch(api, lastHash, lastHeader, lowest) == Some([])
  }

  /**
   What a walk may end with: a prefix of the naive walk, or the database error it runs into; if every request is
   answered, the error whenever there is one, and all of the naive walk otherwise.
   */
  ghost predicate GoodEnd(tree: Tree, api: ChainApi, isKnown: Hash -> KnownReply, head: Hash, lowest: nat, r: NewBlocks)
    requires Contiguous(tree) && head in tree && lowest >= 1
  {
    match r
    case Blocks(ancestry) =>
      && ancestry <= NaiveWalk(tree, isKnown, head, lowest)
      && (NaiveWalk(tree, isKnown, head, lowest) != [] ==> ancestry != [])
      && (Answering(tree, api) ==> EndsWith(tree, isKnown, head, lowest, ancestry))
    case DatabaseFailure => RunsIntoError(tree, isKnown, head, lowest)
  }

  /** With every request answered there is only one good end. */
  lemma AnsweredEndExactly(tree: Tree, api: ChainApi, isKnown: Hash -> KnownReply, head: Hash, lowest: nat,
                           r: NewBlocks)
    requires Contiguous(tree) && head in tree && lowest >= 1 && Answering(tree, api)
    ensures GoodEnd(tree, api, isKnown, head, lowest, r) <==>
            r == if RunsIntoError(tree, isKnown, head, lowest) then DatabaseFailure
                 else Blocks(NaiveWalk(tree, isKnown, head, lowest))
  {
  }

  /** One pass ends well, or stays on the way, lower down unless the answer was empty. */
  lemma PassFacts(tree: Tree, api: ChainApi, isKnown: Hash -> KnownReply, head: Hash, lowest: nat,
                  ancestry: seq<(Hash, Header)>)
    requires Contiguous(tree) && head in tree && lowest >= 1 && HonestApi(tree, api)
    requires OnTheWay(tree, isKnown, head, lowest, ancestry)
    ensures var w := Pass(api, isKnown, lowest, ancestry);
            && (w.Ended? ==> GoodEnd(tree, api, isKnown, head, lowest, w.result))
            && (w.Walking? ==>
                  && OnTheWay(tree, isKnown, head, lowest, w.ancestry)
                  && if EmptyAnswer(api, lowest, ancestry) then w.ancestry == ancestry
                     else w.ancestry[|w.ancestry| - 1].1.number < ancestry[|ancestry| - 1].1.number)
            && (EmptyAnswer(api, lowest, ancestry) ==> w.Walking?)
  {
    var (lastHash, lastHeader) := ancestry[|ancestry| - 1];
    var batch := Batch(api, lastHash, lastHeader, lowest);
    if batch.Some? {
      var hashes := batch.value;
      BatchIsHonest(tree, api, lastHash, lowest);
      FetchedFacts(api, hashes);
      BatchIsNeeded(tree, lastHash, lowest, Min(ANCESTRY_STEP, lastHeader.number - lowest), hashes);
      var headers := Fetched(api, hashes);
      if |headers| == |hashes| {
        AddBlocksFollowsWalk(tree, isKnown, head, lowest, ancestry, lastHash, hashes, headers, 0);
      }
    }
  }

  lemma BatchIsHonest(tree: Tree, api: ChainApi, h: Hash, lowest: nat)
    requires Contiguous(tree) && h in tree && HonestApi(tree, api) && tree[h].number > lowest
    requires Batch(api, h, tree[h], lowest).Some?
    ensures HonestAncestors(tree, h, Min(ANCESTRY_STEP, tree[h].number - lowest), Batch(api, h, tree[h], lowest).value)
  {
  }

  /** A batch stays at or above the lowest block needed. */
  lemma BatchIsNeeded(tree: Tree, h: Hash, lowest: nat, step: nat, hashes: seq<Hash>)
    requires Contiguous(tree) && h in tree && lowest < tree[h].number && step <= tree[h].number - lowest
    requires HonestAncestors(tree, h, step, hashes)
    ensures forall x :: x in hashes ==> x in tree && tree[x].number >= lowest
  {
    forall i | 0 <= i < |hashes|
      ensures hashes[i] in tree && tree[hashes[i]].number >= lowest
    {
      AncestorAtFacts(tree, h, tree[h].number - 1 - i);
    }
  }

  /** A request that fails, for ancestors or for one of their headers, ends the walk with what it has collected. */
  lemma FailedRequestEndsWalk(api: ChainApi, isKnown: Hash -> KnownReply, lowest: nat, ancestry: seq<(Hash, Header)>,
                              i: nat)
    requires ancestry != [] && ancestry[|ancestry| - 1].1.number > lowest
    requires var (h, header) := ancestry[|ancestry| - 1];
             var distance := header.number - lowest;
             if distance == 1 then api.blockHeader(header.parentHash).None?
             else
               var reply := api.ancestors(h, if distance < 4 then distance else 4);
               reply.None? || (i < |reply.value| && api.blockHeader(reply.value[i]).None?)
    ensures Pass(api, isKnown, lowest, ancestry) == Ended(Blocks(ancestry))
  {
    var (h, header) := ancestry[|ancestry| - 1];
    var batch := Batch(api, h, header, lowest);
    if batch.Some? {
      FetchedFacts(api, batch.value);
    }
  }

  // ---- whole walks

  /** A walk on the way, or well ended. */
  ghost predicate OnCourse(tree: Tree, api: ChainApi, isKnown: Hash -> KnownReply, head: Hash, lowest: nat, w: Progress)
    requires Contiguous(tree) && head in tree && lowest >= 1
  {
    match w
    case Walking(ancestry) => OnTheWay(tree, isKnown, head, lowest, ancestry)
    case Ended(r) => GoodEnd(tree, api, isKnown, head, lowest, r)
  }

  lemma StartIsOnCourse(tree: Tree, api: ChainApi, isKnown: Hash -> KnownReply, head: Hash, lowest: nat)
    requires Contiguous(tree) && head in tree && lowest >= 1
    ensures OnCourse(tree, api, isKnown, head, lowest, Start(isKnown, head, tree[head], lowest))
  {
    if tree[head].number >= lowest {
      ParentIsAncestor(tree, head, head);
      assert !isKnown(tree[head].parentHash).Unknown? ==>
               (ErrorAhead(tree, isKnown, tree[head].parentHash, lowest) ==>
                  isKnown(tree[head].parentHash).DatabaseError?);
    }
  }

  /** Whatever fails, every walk stays on course, pass after pass. */
  lemma {:induction false} AfterIsOnCourse(tree: Tree, api: ChainApi, isKnown: Hash -> KnownReply, head: Hash,
                                           lowest: nat,
                                           w: Progress, n: nat)
    requires Contiguous(tree) && head in tree && lowest >= 1 && HonestApi(tree, api)
    requires OnCourse(tree, api, isKnown, head, lowest, w)
    ensures OnCourse(tree, api, isKnown, head, lowest, After(api, isKnown, lowest, w, n))
    decreases n
  {
    if n == 0 || w.Ended? {
    } else {
      PassFacts(tree, api, isKnown, head, lowest, w.ancestry);
      AfterIsOnCourse(tree, api, isKnown, head, lowest, Pass(api, isKnown, lowest, w.ancestry), n - 1);
    }
  }

  lemma {:induction false} AfterMore(api: ChainApi, isKnown: Hash -> KnownReply, lowest: nat, w: Progress, n: nat,
                                     k: nat)
    ensures After(api, isKnown, lowest, After(api, isKnown, lowest, w, n), k) == After(api, isKnown, lowest, w, n + k)
    decreases n
  {
    if n == 0 || w.Ended? || w.ancestry == [] {
    } else {
      AfterMore(api, isKnown, lowest, Pass(api, isKnown, lowest, w.ancestry), n - 1, k);
    }
  }

  lemma EndedStays(api: ChainApi, isKnown: Hash -> KnownReply, lowest: nat, w: Progress, n: nat, k: nat)
    requires n <= k && After(api, isKnown, lowest, w, n).Ended?
    ensures After(api, isKnown, lowest, w, k) == After(api, isKnown, lowest, w, n)
  {
    AfterMore(api, isKnown, lowest, w, n, k - n);
  }

  /** The walk has come to a block whose ancestors are answered with an empty list. */
  predicate Stuck(api: ChainApi, lowest: nat, w: Progress) {
    w.Walking? && w.ancestry != [] && EmptyAnswer(api, lowest, w.ancestry)
  }

  /** An empty answer is asked for again and again. */
  lemma {:induction false} StuckForever(api: ChainApi, isKnown: Hash -> KnownReply, lowest: nat, w: Progress, n: nat)
    requires Stuck(api, lowest, w)
    ensures After(api, isKnown, lowest, w, n) == w
  {
    if n == 0 {
    } else {
      StuckForever(api, isKnown, lowest, w, n - 1);
    }
  }

  /** No block that the walk comes to is answered with an empty list. */
  ghost predicate NeverStuck(api: ChainApi, isKnown: Hash -> KnownReply, lowest: nat, w: Progress) {
    forall n: nat :: !Stuck(api, lowest, After(api, isKnown, lowest, w, n))
  }

  lemma {:induction false} EndsInTime(tree: Tree, api: ChainApi, isKnown: Hash -> KnownReply, head: Hash, lowest: nat,
                                      ancestry: seq<(Hash, Header)>, n: nat)
    requires Contiguous(tree) && head in tree && lowest >= 1 && HonestApi(tree, api)
    requires OnTheWay(tree, isKnown, head, lowest, ancestry) && NeverStuck(api, isKnown, lowest, Walking(ancestry))
    requires n >= ancestry[|ancestry| - 1].1.number - lowest
    ensures After(api, isKnown, lowest, Walking(ancestry), n).Ended?
    decreases n
  {
    var w := Pass(api, isKnown, lowest, ancestry);
    PassFacts(tree, api, isKnown, head, lowest, ancestry);
    assert !Stuck(api, lowest, After(api, isKnown, lowest, Walking(ancestry), 0));
    if w.Ended? {
    } else {
      forall k: nat
        ensures !Stuck(api, lowest, After(api, isKnown, lowest, w, k))
      {
        assert After(api, isKnown, lowest, Walking(ancestry), k + 1) == After(api, isKnown, lowest, w, k);
      }
      EndsInTime(tree, api, isKnown, head, lowest, w.ancestry, n - 1);
    }
  }

  /**
   The walk ends if and only if no block that it comes to is answered with an empty list, and then within as many
   passes as the head is above the lowest block needed.
   */
  lemma EndsExactly(tree: Tree, api: ChainApi, isKnown: Hash -> KnownReply, head: Hash, lowest: nat)
    requires Contiguous(tree) && head in tree && lowest >= 1 && HonestApi(tree, api)
    ensures var w := Start(isKnown, head, tree[head], lowest);
            && ((exists n: nat :: After(api, isKnown, lowest, w, n).Ended?) <==> NeverStuck(api, isKnown, lowest, w))
            && (NeverStuck(api, isKnown, lowest, w) <==>
                After(api, isKnown, lowest, w, SatSub(tree[head].number, lowest)).Ended?)
  {
    var w := Start(isKnown, head, tree[head], lowest);
    StartIsOnCourse(tree, api, isKnown, head, lowest);
    if NeverStuck(api, isKnown, lowest, w) {
      if w.Walking? {
        EndsInTime(tree, api, isKnown, head, lowest, w.ancestry, tree[head].number - lowest);
      }
      assert After(api, isKnown, lowest, w, SatSub(tree[head].number, lowest)).Ended?;
    } else {
      var k: nat :| Stuck(api, lowest, After(api, isKnown, lowest, w, k));
      forall n: nat
        ensures After(api, isKnown, lowest, w, n).Walking?
      {
        StuckNeverEnds(api, isKnown, lowest, w, k, n);
      }
    }
  }

  lemma StuckNeverEnds(api: ChainApi, isKnown: Hash -> KnownReply, lowest: nat, w: Progress, k: nat, n: nat)
    requires Stuck(api, lowest, After(api, isKnown, lowest, w, k))
    ensures After(api, isKnown, lowest, w, n).Walking?
  {
    if n <= k {
      if After(api, isKnown, lowest, w, n).Ended? {
        EndedStays(api, isKnown, lowest, w, n, k);
      }
    } else {
      AfterMore(api, isKnown, lowest, w, k, n - k);
      StuckForever(api, isKnown, lowest, After(api, isKnown, lowest, w, k), n - k);
    }
  }

  /** It is enough that no ancestor of the head is answered with an empty list. */
  lemma AnsweredAncestorsSuffice(tree: Tree, api: ChainApi, isKnown: Hash -> KnownReply, head: Hash, lowest: nat)
    requires Contiguous(tree) && head in tree && lowest >= 1 && HonestApi(tree, api)
    requires forall h, k :: AncestorOrEqual(tree, h, head) ==> api.ancestors(h, k) != Some([])
    ensures NeverStuck(api, isKnown, lowest, Start(isKnown, head, tree[head], lowest))
  {
    var w := Start(isKnown, head, tree[head], lowest);
    StartIsOnCourse(tree, api, isKnown, head, lowest);
    forall n: nat
      ensures !Stuck(api, lowest, After(api, isKnown, lowest, w, n))
    {
      AfterIsOnCourse(tree, api, isKnown, head, lowest, w, n);
    }
  }

  /** Four blocks, all new, and a chain API that finds no header, which is honest: the walk from the last never ends. */
  lemma MissingHeaderExample(a: Hash, b: Hash, c: Hash, d: Hash, n: nat)
    requires a != b && a != c && a != d && b != c && b != d && c != d
    ensures var tree := map[a := Header(a, 0, a), b := Header(b, 1, a), c := Header(c, 2, b), d := Header(d, 3, c)];
            var api := ChainApi((h, k) => Some([]), h => None);
            && Contiguous(tree) && HonestApi(tree, api)
            && After(api, h => Unknown, 1, Start(h => Unknown, d, tree[d], 1), n) == Walking([(d, tree[d])])
  {
    StuckForever(ChainApi((h, k) => Some([]), h => None), h => Unknown, 1, Walking([(d, Header(d, 3, c))]), n);
  }

  // ---- the program

  /** Requests every header of a batch; those that fail are skipped. */
  method FetchHeaders(api: ChainApi, hashes: seq<Hash>) returns (headers: seq<Header>)
    ensures headers == Fetched(api, hashes)
  {
    headers := [];
    for i := 0 to |hashes|
      invariant headers == Fetched(api, hashes[..i])
    {
      var reply := api.blockHeader(hashes[i]);
      assert hashes[..i + 1][..i] == hashes[..i];
      if reply.Some? {
        headers := headers + [reply.value];
      }
    }
    assert hashes[..|hashes|] == hashes;
  }

  /** Adds the blocks of one batch. */
  method AddBatch(isKnown: Hash -> KnownReply, lowest: nat, start: seq<(Hash, Header)>, hashes: seq<Hash>,
                  headers: seq<Header>)
    returns (w: Progress)
    requires |hashes| == |headers|
    ensures w == AddBlocks(isKnown, lowest, start, hashes, headers, 0)
  {
    var ancestry := start;
    var i := 0;
    while i < |hashes|
      invariant i <= |hashes|
      invariant AddBlocks(isKnown, lowest, ancestry, hashes, headers, i) ==
                AddBlocks(isKnown, lowest, start, hashes, headers, 0)
    {
      var hash, header := hashes[i], headers[i];
      var known := isKnown(hash);
      if known.DatabaseError? {
        return Ended(DatabaseFailure);
      }
      if known.Known? || header.number < lowest {
        return Ended(Blocks(ancestry));
      }
      ancestry := ancestry + [(hash, header)];
      if header.number == lowest {
        return Ended(Blocks(ancestry));
      }
      i := i + 1;
    }
    return Walking(ancestry);
  }

  /** One more pass. */
  lemma AfterOneMore(api: ChainApi, isKnown: Hash -> KnownReply, lowest: nat, w: Progress, n: nat)
    requires After(api, isKnown, lowest, w, n).Walking? && After(api, isKnown, lowest, w, n).ancestry != []
    ensures After(api, isKnown, lowest, w, n + 1) ==
            Pass(api, isKnown, lowest, After(api, isKnown, lowest, w, n).ancestry)
  {
    AfterMore(api, isKnown, lowest, w, n, 1);
  }

  /** A walk that ended, whenever it did, ended as it does within the bound. */
  lemma EndIsTheEnd(tree: Tree, api: ChainApi, isKnown: Hash -> KnownReply, head: Hash, lowest: nat, n: nat)
    requires Contiguous(tree) && head in tree && lowest >= 1 && HonestApi(tree, api)
    requires After(api, isKnown, lowest, Start(isKnown, head, tree[head], lowest), n).Ended?
    ensures var w := Start(isKnown, head, tree[head], lowest);
            && After(api, isKnown, lowest, w, SatSub(tree[head].number, lowest)) == After(api, isKnown, lowest, w, n)
            && OnCourse(tree, api, isKnown, head, lowest, After(api, isKnown, lowest, w, n))
  {
    var w, bound := Start(isKnown, head, tree[head], lowest), SatSub(tree[head].number, lowest);
    EndsExactly(tree, api, isKnown, head, lowest);
    EndedStays(api, isKnown, lowest, w, Min(n, bound), if n <= bound then bound else n);
    StartIsOnCourse(tree, api, isKnown, head, lowest);
    AfterIsOnCourse(tree, api, isKnown, head, lowest, w, n);
  }

  /**
   The batched walk, when no block it comes to is answered with an empty list. Whatever else fails, it returns a prefix
   of the naive walk with the head in it if that is new, or the database error it ran into; if every request is
   answered it returns the error whenever there is one, and else the whole naive walk. It asks for no header below the
   lowest block needed.
   */
  method DetermineNewBlocks(ghost tree: Tree, api: ChainApi, isKnown: Hash -> KnownReply, head: Hash, header: Header,
                            lowerBound: nat)
    returns (r: NewBlocks, requested: seq<Hash>)
    requires Contiguous(tree) && head in tree && tree[head] == header && HonestApi(tree, api)
    requires NeverStuck(api, isKnown, lowerBound + 1, Start(isKnown, head, header, lowerBound + 1))
    ensures Ended(r) == After(api, isKnown, lowerBound + 1, Start(isKnown, head, header, lowerBound + 1),
                              SatSub(header.number, lowerBound + 1))
    ensures GoodEnd(tree, api, isKnown, head, lowerBound + 1, r)
    ensures forall h :: h in requested ==> h in tree && tree[h].number >= lowerBound + 1
  {
    requested := [];
    var lowest := lowerBound + 1;
    ghost var start, n := Start(isKnown, head, header, lowest), 0;
    StartIsOnCourse(tree, api, isKnown, head, lowest);
    var known := isKnown(head);
    if known.DatabaseError? {
      return DatabaseFailure, requested;
    }
    if known.Known? || header.number < lowest {
      return Blocks([]), requested;
    }
    var ancestry := [(head, header)];
    known := isKnown(header.parentHash);
    if known.DatabaseError? {
      return DatabaseFailure, requested;
    }
    if known.Known? || header.number == lowest {
      return Blocks(ancestry), requested;
    }
    while true
      invariant OnTheWay(tree, isKnown, head, lowest, ancestry)
      invariant After(api, isKnown, lowest, start, n) == Walking(ancestry)
      invariant forall h :: h in requested ==> h in tree && tree[h].number >= lowest
      decreases ancestry[|ancestry| - 1].1.number
    {
      PassFacts(tree, api, isKnown, head, lowest, ancestry);
      AfterOneMore(api, isKnown, lowest, start, n);
      var more;
      r, more, ancestry, requested := OnePass(tree, api, isKnown, head, lowest, ancestry, requested);
      n := n + 1;
      if !more {
        EndIsTheEnd(tree, api, isKnown, head, lowest, n);
        return;
      }
    }
  }

  /** One pass of the loop: a batch of hashes, their headers, and the blocks added. */
  method OnePass(ghost tree: Tree, api: ChainApi, isKnown: Hash -> KnownReply, ghost head: Hash, lowest: nat,
                 start: seq<(Hash, Header)>, before: seq<Hash>)
    returns (r: NewBlocks, more: bool, ancestry: seq<(Hash, Header)>, requested: seq<Hash>)
    requires Contiguous(tree) && head in tree && lowest >= 1 && HonestApi(tree, api)
    requires OnTheWay(tree, isKnown, head, lowest, start)
    requires forall h :: h in before ==> h in tree && tree[h].number >= lowest
    ensures Pass(api, isKnown, lowest, start) == if more then Walking(ancestry) else Ended(r)
    ensures forall h :: h in requested ==> h in tree && tree[h].number >= lowest
  {
    r, more, ancestry, requested := Blocks(start), false, start, before;
    var (lastHash, lastHeader) := start[|start| - 1];
    var step := Min(ANCESTRY_STEP, lastHeader.number - lowest);
    var hashes := [lastHeader.parentHash];
    if step != 1 {
      var reply := api.ancestors(lastHash, step);
      if reply.None? {
        return;
      }
      hashes := reply.value;
    }
    BatchIsHonest(tree, api, lastHash, lowest);
    BatchIsNeeded(tree, lastHash, lowest, step, hashes);
    requested := before + hashes;
    var headers := FetchHeaders(api, hashes);
    if |headers| != |hashes| {
      return;
    }
    var w := AddBatch(isKnown, lowest, start, hashes, headers);
    match w {
      case Walking(longer) => more, ancestry := true, longer;
      case Ended(result) => r := result;
    }
  }

  // ---- the naive walk

  /** The naive walk lists the ancestors of the head, each one lower than the last, all new and all needed. */
  lemma {:induction false} NaiveWalkIsAncestry(tree: Tree, isKnown: Hash -> KnownReply, h: Hash, lowest: nat, i: nat)
    requires Contiguous(tree) && h in tree && lowest >= 1 && i < |NaiveWalk(tree, isKnown, h, lowest)|
    ensures var (x, header) := NaiveWalk(tree, isKnown, h, lowest)[i];
            && i <= tree[h].number - lowest
            && x == AncestorAt(tree, h, tree[h].number - i) && x in tree && header == tree[x]
            && isKnown(x).Unknown?
    decreases tree[h].number
  {
    if i == 0 {
    } else {
      NaiveWalkIsAncestry(tree, isKnown, tree[h].parentHash, lowest, i - 1);
    }
  }

  /** It ends only at the lowest block needed or just above a block that is not new. */
  lemma {:induction false} NaiveWalkEnds(tree: Tree, isKnown: Hash -> KnownReply, h: Hash, lowest: nat)
    requires Contiguous(tree) && h in tree && lowest >= 1 && tree[h].number >= lowest
    ensures var w := NaiveWalk(tree, isKnown, h, lowest);
            || |w| == tree[h].number - lowest + 1
            || (|w| <= tree[h].number - lowest && !isKnown(AncestorAt(tree, h, tree[h].number - |w|)).Unknown?)
    decreases tree[h].number
  {
    if !isKnown(h).Unknown? || tree[h].number == lowest {
    } else {
      NaiveWalkEnds(tree, isKnown, tree[h].parentHash, lowest);
    }
  }
}
