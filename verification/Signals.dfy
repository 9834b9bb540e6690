/** The signals the overseer broadcasts, and the set of leaves that a listener rebuilds from them. */
module Signals {
  import opened Options
  import opened Hashes
  import opened LruCache
  import opened Sets

  datatype LeafStatus = Fresh | Stale

  datatype ActivatedLeaf = ActivatedLeaf(hash: Hash, number: nat, status: LeafStatus)

  /** A delta of the active leaves. */
  datatype ActiveLeavesUpdate = ActiveLeavesUpdate(activated: Option<ActivatedLeaf>, deactivated: seq<Hash>)

  datatype Signal =
    | ActiveLeaves(update: ActiveLeavesUpdate)
    | BlockFinalized(hash: Hash, number: nat)
    | Conclude

  function ActivatedBy(s: Signal): set<Hash> {
    if s.ActiveLeaves? && s.update.activated.Some? then {s.update.activated.value.hash} else {}
  }

  /** One delta applied: the activation first, then the deactivations. */
  function ApplyDelta(leaves: set<Hash>, s: Signal): set<Hash> {
    if s.ActiveLeaves? then leaves + ActivatedBy(s) - Elements(s.update.deactivated) else leaves
  }

  /** All deltas applied in order, from no leaves at all. */
  function Replay(signals: seq<Signal>): set<Hash> {
    if signals == [] then {}
    else ApplyDelta(Replay(signals[..|signals| - 1]), signals[|signals| - 1])
  }

  /** The leaves activated so far, in order. */
  function Activations(signals: seq<Signal>): seq<Hash> {
    if signals == [] then []
    else
      var last := signals[|signals| - 1];
      Activations(signals[..|signals| - 1]) +
      if last.ActiveLeaves? && last.update.activated.Some? then [last.update.activated.value.hash] else []
  }

  lemma ActivationsSnoc(signals: seq<Signal>, s: Signal)
    ensures Activations(signals + [s]) ==
            Activations(signals) +
            if s.ActiveLeaves? && s.update.activated.Some? then [s.update.activated.value.hash] else []
    ensures ActivatedBy(s) == {} ==> Activations(signals + [s]) == Activations(signals)
    ensures Elements(Activations(signals + [s])) == Elements(Activations(signals)) + ActivatedBy(s)
  {
    assert (signals + [s])[..|signals|] == signals;
    assert Activations(signals) + [] == Activations(signals);
  }

  /** Whatever is active according to the signals was activated by one of them. */
  lemma {:induction false} ReplayedWasActivated(signals: seq<Signal>)
    ensures Replay(signals) <= Elements(Activations(signals))
  {
    if signals == [] {
    } else {
      var before, last := signals[..|signals| - 1], signals[|signals| - 1];
      ReplayedWasActivated(before);
      assert signals == before + [last];
      ActivationsSnoc(before, last);
    }
  }

  /**
   If the i-th signal activates a leaf, its status is fresh exactly if a cache of the earlier ones does not hold it.
   */
  ghost predicate StatusFromCache(cap: nat, signals: seq<Signal>, i: nat)
    requires i < |signals|
  {
    signals[i].ActiveLeaves? && signals[i].update.activated.Some? ==>
      var leaf := signals[i].update.activated.value;
      leaf.status.Fresh? <==> leaf.hash !in Cached(cap, Activations(signals[..i]))
  }

  ghost predicate StatusesFromCache(cap: nat, signals: seq<Signal>) {
    forall i :: 0 <= i < |signals| ==> StatusFromCache(cap, signals, i)
  }

  lemma StatusesSnoc(cap: nat, signals: seq<Signal>, s: Signal)
    requires StatusesFromCache(cap, signals)
    requires s.ActiveLeaves? && s.update.activated.Some? ==>
               (s.update.activated.value.status.Fresh? <==>
                s.update.activated.value.hash !in Cached(cap, Activations(signals)))
    ensures StatusesFromCache(cap, signals + [s])
  {
    var all := signals + [s];
    forall i | 0 <= i < |all|
      ensures StatusFromCache(cap, all, i)
    {
      if i < |signals| {
        assert StatusFromCache(cap, signals, i);
        assert all[..i] == signals[..i];
      } else {
        assert all[..i] == signals;
      }
    }
  }

  /**
   A stale leaf has been announced before. A fresh one is announced for the first time, if and only if it has not been
   evicted: since it was last announced, fewer others were announced than the cache holds.
   */
  lemma FreshMeansFirstExactly(cap: nat, signals: seq<Signal>, i: nat)
    requires cap >= 1 && StatusesFromCache(cap, signals)
    requires i < |signals| && signals[i].ActiveLeaves? && signals[i].update.activated.Some?
    ensures var leaf := signals[i].update.activated.value;
            var earlier := Activations(signals[..i]);
            && (leaf.status.Stale? ==> leaf.hash in earlier)
            && ((leaf.status.Fresh? <==> leaf.hash !in earlier) <==> !Evicted(cap, earlier, leaf.hash))
  {
    assert StatusFromCache(cap, signals, i);
    CachedExactly(cap, Activations(signals[..i]));
  }

  /** With no more leaves ever announced than the cache holds, fresh always means first. */
  lemma FewLeavesAreFreshOnce(cap: nat, signals: seq<Signal>, i: nat)
    requires cap >= 1 && StatusesFromCache(cap, signals)
    requires i < |signals| && signals[i].ActiveLeaves? && signals[i].update.activated.Some?
    requires |Elements(Activations(signals[..i]))| <= cap
    ensures var leaf := signals[i].update.activated.value;
            leaf.status.Fresh? <==> leaf.hash !in Activations(signals[..i])
  {
    var h, earlier := signals[i].update.activated.value.hash, Activations(signals[..i]);
    FreshMeansFirstExactly(cap, signals, i);
    if h in earlier {
      SubsetCard(Since(earlier, h), Elements(earlier) - {h});
    }
  }
}
