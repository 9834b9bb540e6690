/** The overseer as the program runs it: handlers that change its maps in place and broadcast signals. */
module Overseer {
  import opened Options
  import opened Hashes
  import opened LruCache
  import opened Sequences
  import opened Signals
  import opened ActiveLeavesMachine

  /** The tracing span of a leaf, and the leaf whose span it follows from. */
  datatype Span = Span(leaf: Hash, followsFrom: Option<Hash>)

  class Overseer {
    const supportsParachains: Hash -> bool
    var activationExternalListeners: map<Hash, seq<Listener>>
    var spanPerActiveLeaf: map<Hash, Span>
    var activeLeaves: map<Hash, nat>
    /** The cache of leaves seen, from the one seen longest ago to the one seen last. */
    var knownLeaves: seq<Hash>
    /** The outgoing side of the channels: signals broadcast and listeners answered, oldest first. */
    var sent: seq<Signal>
    var answered: seq<(Hash, Listener)>

    constructor (supportsParachains: Hash -> bool)
      ensures this.supportsParachains == supportsParachains && Contents() == INITIAL
    {
      this.supportsParachains := supportsParachains;
      activationExternalListeners, spanPerActiveLeaf, activeLeaves := map[], map[], map[];
      knownLeaves, sent, answered := [], [], [];
    }

    function Contents(): LeafState
      reads this
    {
      LeafState(activeLeaves, spanPerActiveLeaf.Keys, knownLeaves, activationExternalListeners, answered, sent)
    }

    method OnHeadActivated(hash: Hash, parentHash: Option<Hash>) returns (r: Option<LeafStatus>)
      modifies this`activationExternalListeners, this`spanPerActiveLeaf, this`knownLeaves, this`answered
      ensures r == if supportsParachains(hash) then Some(StatusOf(old(knownLeaves), hash)) else None
      ensures Contents() == if supportsParachains(hash) then Activate(old(Contents()), hash) else old(Contents())
      ensures forall h :: h in spanPerActiveLeaf && h != hash ==>
                h in old(spanPerActiveLeaf) && spanPerActiveLeaf[h] == old(spanPerActiveLeaf)[h]
      ensures supportsParachains(hash) ==>
                && spanPerActiveLeaf[hash].leaf == hash
                && spanPerActiveLeaf[hash].followsFrom ==
                   if parentHash.Some? && parentHash.value in old(spanPerActiveLeaf) then parentHash else None
    {
      if !supportsParachains(hash) {
        return None;
      }
      if hash in activationExternalListeners {
        var listeners := activationExternalListeners[hash];
        activationExternalListeners := activationExternalListeners - {hash};
        answered := answered + Label(hash, listeners);
      }
      assert activationExternalListeners == old(activationExternalListeners) - {hash};
      var follows := if parentHash.Some? && parentHash.value in spanPerActiveLeaf then parentHash else None;
      spanPerActiveLeaf := spanPerActiveLeaf[hash := Span(hash, follows)];
      r := Some(StatusOf(knownLeaves, hash));
      knownLeaves := Put(KNOWN_LEAVES_CACHE_SIZE, knownLeaves, hash);
    }

    method OnHeadDeactivated(hash: Hash)
      modifies this`activationExternalListeners, this`spanPerActiveLeaf
      ensures Contents() == Deactivate(old(Contents()), {hash})
    {
      activationExternalListeners := activationExternalListeners - {hash};
      spanPerActiveLeaf := spanPerActiveLeaf - {hash};
    }

    method CleanUpExternalListeners(canceled: set<Listener>)
      modifies this`activationExternalListeners
      ensures Contents() == CleanUp(old(Contents()), canceled)
    {
      activationExternalListeners :=
        map h | h in activationExternalListeners && Keep(activationExternalListeners[h], canceled) != []
          :: Keep(activationExternalListeners[h], canceled);
    }

    method BroadcastSignal(s: Signal)
      modifies this`sent
      ensures Contents() == Broadcast(old(Contents()), s)
    {
      sent := sent + [s];
    }

    /** Announces the leaves known at start-up. */
    method StartUp(leaves: seq<(Hash, nat)>)
      modifies this
      ensures Contents() == Run(supportsParachains, old(Contents()), StartEvents(leaves))
    {
      ghost var s0 := Contents();
      for i := 0 to |leaves|
        invariant Run(supportsParachains, Contents(), StartEvents(leaves[i..])) ==
                  Run(supportsParachains, s0, StartEvents(leaves))
      {
        var (hash, number) := leaves[i];
        assert StartEvents(leaves[i..])[1..] == StartEvents(leaves[i + 1..]);
        activeLeaves := activeLeaves[hash := number];
        var status := OnHeadActivated(hash, None);
        if status.Some? {
          BroadcastSignal(ActiveLeaves(ActiveLeavesUpdate(Some(ActivatedLeaf(hash, number, status.value)), [])));
        }
      }
    }

    method HandleBlockImported(block: BlockInfo, canceled: set<Listener>)
      modifies this
      ensures Contents() == ImportStep(supportsParachains, old(Contents()), block, canceled)
    {
      if block.hash in activeLeaves {
        return;
      }
      activeLeaves := activeLeaves[block.hash := block.number];
      var status := OnHeadActivated(block.hash, Some(block.parentHash));
      var activated := if status.Some? then Some(ActivatedLeaf(block.hash, block.number, status.value)) else None;
      var deactivated := [];
      if block.parentHash in activeLeaves {
        activeLeaves := activeLeaves - {block.parentHash};
        deactivated := [block.parentHash];
        OnHeadDeactivated(block.parentHash);
      }
      CleanUpExternalListeners(canceled);
      if activated.Some? || deactivated != [] {
        BroadcastSignal(ActiveLeaves(ActiveLeavesUpdate(activated, deactivated)));
      }
    }

    /** The orphaned leaves are dropped from the active leaves, in whatever order the map yields them. */
    method Prune(block: BlockInfo) returns (deactivated: seq<Hash>)
      modifies this`activeLeaves
      ensures Possible(old(Contents()), BlockFinalization(block, deactivated))
      ensures activeLeaves == old(activeLeaves) - Elements(deactivated)
    {
      deactivated := [];
      var todo := activeLeaves.Keys;
      ghost var all := activeLeaves;
      while todo != {}
        invariant todo <= all.Keys
        invariant Elements(deactivated) == set h | h in all && h !in todo && all[h] <= block.number && h != block.hash
        invariant forall i, j :: 0 <= i < j < |deactivated| ==> deactivated[i] != deactivated[j]
        invariant activeLeaves == all - Elements(deactivated)
      {
        var h :| h in todo;
        todo := todo - {h};
        assert h !in Elements(deactivated);
        if activeLeaves[h] <= block.number && h != block.hash {
          ghost var before := deactivated;
          deactivated := deactivated + [h];
          assert Elements(deactivated) == Elements(before) + {h};
          activeLeaves := activeLeaves - {h};
        }
      }
      assert Elements(deactivated) == Orphaned(old(Contents()), block);
    }

    method DeactivateAll(hashes: seq<Hash>)
      modifies this`activationExternalListeners, this`spanPerActiveLeaf
      ensures Contents() == Deactivate(old(Contents()), Elements(hashes))
    {
      ghost var s0 := Contents();
      for i := 0 to |hashes|
        invariant Contents() == Deactivate(s0, Elements(hashes[..i]))
      {
        assert Elements(hashes[..i + 1]) == Elements(hashes[..i]) + {hashes[i]} by {
          assert hashes[..i + 1] == hashes[..i] + [hashes[i]];
        }
        OnHeadDeactivated(hashes[i]);
      }
      assert hashes[..|hashes|] == hashes;
    }

    method HandleBlockFinalized(block: BlockInfo) returns (ghost order: seq<Hash>)
      modifies this
      ensures Possible(old(Contents()), BlockFinalization(block, order))
      ensures Contents() == FinalizeStep(old(Contents()), block, order)
    {
      var deactivated := Prune(block);
      DeactivateAll(deactivated);
      BroadcastSignal(BlockFinalized(block.hash, block.number));
      if deactivated != [] {
        BroadcastSignal(ActiveLeaves(ActiveLeavesUpdate(None, deactivated)));
      }
      order := deactivated;
    }

    method HandleExternalRequest(hash: Hash, listener: Listener)
      modifies this`activationExternalListeners, this`answered
      ensures Contents() == WaitStep(old(Contents()), hash, listener)
    {
      if hash in knownLeaves {
        answered := answered + [(hash, listener)];
      } else {
        var listeners := if hash in activationExternalListeners then activationExternalListeners[hash] else [];
        activationExternalListeners := activationExternalListeners[hash := listeners + [listener]];
      }
    }

    /** The whole run: the start-up leaves, then one request after the other. */
    method RunLoop(leaves: seq<(Hash, nat)>, requests: seq<Request>)
      requires Agreement(supportsParachains, Contents())
      modifies this
      ensures Agreement(supportsParachains, Contents())
    {
      StartIsPossible(supportsParachains, Contents(), leaves);
      RunKeepsAgreement(supportsParachains, Contents(), StartEvents(leaves));
      StartUp(leaves);
      for i := 0 to |requests|
        invariant Agreement(supportsParachains, Contents())
      {
        match requests[i] {
          case Imported(block, canceled) =>
            ImportKeeps(supportsParachains, Contents(), block, canceled);
            HandleBlockImported(block, canceled);
          case Finalized(block) =>
            ghost var before := Contents();
            ghost var order := HandleBlockFinalized(block);
            FinalizeKeeps(supportsParachains, before, block, order);
          case External(hash, listener) =>
            StepKeepsAgreement(supportsParachains, Contents(), WaitForActivation(hash, listener));
            HandleExternalRequest(hash, listener);
        }
      }
    }
  }

  /** What reaches the event loop; some waiting listeners may have given up by the time of an import. */
  datatype Request =
    | Imported(block: BlockInfo, canceled: set<Listener>)
    | Finalized(block: BlockInfo)
    | External(hash: Hash, listener: Listener)

  lemma {:induction false} StartIsPossible(supports: Hash -> bool, s: LeafState, leaves: seq<(Hash, nat)>)
    ensures AllPossible(supports, s, StartEvents(leaves))
    decreases |leaves|
  {
    if leaves == [] {
    } else {
      assert StartEvents(leaves)[1..] == StartEvents(leaves[1..]);
      StartIsPossible(supports, Step(supports, s, StartEvents(leaves)[0]), leaves[1..]);
    }
  }

  function StartEvents(leaves: seq<(Hash, nat)>): seq<Event> {
    seq(|leaves|, i requires 0 <= i < |leaves| => StartLeaf(leaves[i].0, leaves[i].1))
  }
}
