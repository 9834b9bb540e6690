/** The pallet as the program runs it: storage items updated call by call. */
module AssignedSlotsPallet {
  import opened Options
  import opened Numbers
  import opened AssignedSlots
  import opened SlotQueue

  class Pallet {
    const cfg: Config
    var permanentSlots: map<ParaId, (nat, nat)>
    var permanentSlotCount: nat
    var temporarySlots: Slots
    var temporarySlotCount: nat
    var activeTemporarySlotCount: nat

    constructor (cfg: Config)
      ensures this.cfg == cfg && Contents() == Storage(map[], 0, map[], 0, 0)
    {
      this.cfg := cfg;
      permanentSlots, permanentSlotCount := map[], 0;
      temporarySlots, temporarySlotCount, activeTemporarySlotCount := map[], 0, 0;
    }

    function Contents(): Storage
      reads this
    {
      Storage(permanentSlots, permanentSlotCount, temporarySlots, temporarySlotCount, activeTemporarySlotCount)
    }

    method AssignPermanentSlot(period: nat, id: ParaId, q: Answers) returns (r: DispatchResult)
      modifies this
      ensures (Contents(), r) == AssignPermanent(cfg, old(Contents()), period, id, q)
    {
      if !q.authorized { return Err(BadOrigin); }
      if q.manager.None? { return Err(ParaDoesntExist); }
      if !q.isParathread { return Err(NotParathread); }
      if id in permanentSlots || id in temporarySlots { return Err(SlotAlreadyAssigned); }
      if q.alreadyLeased { return Err(OngoingLeaseExists); }
      if permanentSlotCount >= cfg.maxPermanent { return Err(MaxPermanentSlotsExceeded); }
      if !q.leaseAccepted { return Err(CannotUpgrade); }
      permanentSlots := permanentSlots[id := (period, cfg.permanentLength)];
      permanentSlotCount := SatAdd(permanentSlotCount, 1);
      return Ok;
    }

    method AssignTemporarySlot(period: nat, id: ParaId, start: SlotLeasePeriodStart, q: Answers)
      returns (r: DispatchResult)
      modifies this
      ensures (Contents(), r) == AssignTemporary(cfg, old(Contents()), period, id, start, q)
    {
      if !q.authorized { return Err(BadOrigin); }
      if q.manager.None? { return Err(ParaDoesntExist); }
      if !q.isParathread { return Err(NotParathread); }
      if id in permanentSlots || id in temporarySlots { return Err(SlotAlreadyAssigned); }
      if q.alreadyLeased { return Err(OngoingLeaseExists); }
      if temporarySlotCount >= cfg.maxTemporary { return Err(MaxTemporarySlotsExceeded); }
      var slot := TemporarySlot(q.manager.value, if start.Current? then period else period + 1,
                                cfg.temporaryLength, None, 0);
      if start.Current? && activeTemporarySlotCount < cfg.maxPerPeriod {
        if q.leaseAccepted {
          activeTemporarySlotCount := SatAdd(activeTemporarySlotCount, 1);
          slot := slot.(lastLease := Some(slot.periodBegin), leaseCount := slot.leaseCount + 1);
        }
      }
      temporarySlots := temporarySlots[id := slot];
      temporarySlotCount := SatAdd(temporarySlotCount, 1);
      return Ok;
    }

    method UnassignSlot(id: ParaId, q: Answers) returns (r: DispatchResult)
      modifies this
      ensures (Contents(), r) == Unassign(old(Contents()), id, q)
    {
      if !q.authorized { return Err(BadOrigin); }
      if id !in permanentSlots && id !in temporarySlots { return Err(SlotNotAssigned); }
      if !q.leasesCleared { return Err(LeaseNotCleared); }
      if id in permanentSlots {
        permanentSlots := permanentSlots - {id};
        permanentSlotCount := SatSub(permanentSlotCount, 1);
      } else {
        temporarySlots := temporarySlots - {id};
        temporarySlotCount := SatSub(temporarySlotCount, 1);
        if q.isParachain {
          activeTemporarySlotCount := SatSub(activeTemporarySlotCount, 1);
        }
      }
      return Ok;
    }

    /** Counts the running leases and collects the pending slots, in whatever order the storage yields them. */
    method Classify(period: nat) returns (active: nat, pending: seq<Entry>)
      ensures active == |Active(temporarySlots, period)|
      ensures Lists(temporarySlots, pending, Pending(temporarySlots, period))
    {
      active, pending := 0, [];
      var todo := temporarySlots.Keys;
      ghost var running: set<ParaId> := {};
      ghost var waiting: set<ParaId> := {};
      while todo != {}
        invariant todo <= temporarySlots.Keys
        invariant forall x :: x in running <==> x in temporarySlots && x !in todo && ActiveAt(temporarySlots[x], period)
        invariant forall x :: x in waiting <==>
                    x in temporarySlots && x !in todo && PendingAt(temporarySlots[x], period)
        invariant active == |running|
        invariant Lists(temporarySlots, pending, waiting)
      {
        var para :| para in todo;
        var slot := temporarySlots[para];
        todo := todo - {para};
        match slot.lastLease {
          case Some(last) =>
            if last <= period < SatAdd(last, slot.periodCount) {
              active := active + 1;
              running := running + {para};
            } else if SatAdd(last, SatMul(slot.periodCount, 2)) <= period {
              ListsOneMore(temporarySlots, pending, waiting, para);
              pending := pending + [Entry(para, slot)];
              waiting := waiting + {para};
            }
          case None =>
            if slot.periodBegin <= period {
              ListsOneMore(temporarySlots, pending, waiting, para);
              pending := [Entry(para, slot)] + pending;
              waiting := waiting + {para};
            }
        }
      }
      assert running == Active(temporarySlots, period) && waiting == Pending(temporarySlots, period);
    }

    /** Leases the first `take` entries of the queue in turn, up to the first refusal. */
    method LeaseInTurn(period: nat, refused: set<ParaId>, queue: seq<Entry>, take: nat) returns (created: nat)
      requires Lists(temporarySlots, queue, Pending(temporarySlots, period)) && take <= |queue|
      modifies this`temporarySlots
      ensures created <= take && IdsOf(queue[..created]) !! refused
      ensures created < take ==> queue[created].id in refused
      ensures temporarySlots == LeaseAll(old(temporarySlots), period, IdsOf(queue[..created]))
    {
      ghost var slots := temporarySlots;
      created := 0;
      LeaseNone(slots, period, queue);
      while created < take && queue[created].id !in refused
        invariant created <= take && IdsOf(queue[..created]) !! refused
        invariant temporarySlots == LeaseAll(slots, period, IdsOf(queue[..created]))
      {
        var e := queue[created];
        LeaseOneMore(slots, period, queue, created);
        temporarySlots := temporarySlots[e.id := Leased(e.slot, period)];
        assert queue[..created + 1] == queue[..created] + [e];
        created := created + 1;
      }
    }

    /** Leases the sorted queue in turn as far as there is room, and sets the active count. */
    method LeaseQueue(period: nat, refused: set<ParaId>, active: nat, queue: seq<Entry>) returns (r: DispatchResult)
      requires active == |Active(temporarySlots, period)| && Sorted(queue)
      requires Lists(temporarySlots, queue, Pending(temporarySlots, period))
      modifies this`temporarySlots, this`activeTemporarySlotCount
      ensures (Contents(), r) == Allocate(cfg, old(Contents()), period, refused)
    {
      ghost var s := Contents();
      var take := Min(|queue|, SatSub(cfg.maxPerPeriod, active));
      var created := LeaseInTurn(period, refused, queue, take);
      assert Contents() == s.(temporarySlots := temporarySlots);
      if created < take {
        AllocationStopped(cfg, s, period, refused, queue, created);
        return Err(CannotUpgrade);
      }
      AllocationFinished(cfg, s, period, refused, queue, created);
      activeTemporarySlotCount := active + created;
      return Ok;
    }

    /** A period start: leases the chosen slots in turn and stops at the first refusal. */
    method AllocateTemporarySlotLeases(period: nat, refused: set<ParaId>) returns (r: DispatchResult)
      modifies this
      ensures (Contents(), r) == Allocate(cfg, old(Contents()), period, refused)
    {
      var active, pending := Classify(period);
      if active < cfg.maxPerPeriod && pending != [] {
        SortLists(temporarySlots, pending, Pending(temporarySlots, period));
        r := LeaseQueue(period, refused, active, SortByTurn(pending));
      } else {
        NothingToLease(cfg, Contents(), period, refused, pending);
        activeTemporarySlotCount := active;
        return Ok;
      }
    }

    /** The hook at a lease-period start: a failed allocation is only logged. */
    method ManageLeasePeriodStart(period: nat, refused: set<ParaId>)
      modifies this
      ensures Contents() == Allocate(cfg, old(Contents()), period, refused).0
    {
      var _ := AllocateTemporarySlotLeases(period, refused);
    }
  }

  lemma ListsOneMore(slots: Slots, v: seq<Entry>, ids: set<ParaId>, x: ParaId)
    requires Lists(slots, v, ids) && x in slots && x !in ids
    ensures Lists(slots, v + [Entry(x, slots[x])], ids + {x})
    ensures Lists(slots, [Entry(x, slots[x])] + v, ids + {x})
  {
  }

  lemma LeaseNone(slots: Slots, period: nat, q: seq<Entry>)
    ensures LeaseAll(slots, period, IdsOf(q[..0])) == slots
  {
  }

  lemma LeaseOneMore(slots: Slots, period: nat, q: seq<Entry>, i: nat)
    requires Lists(slots, q, Pending(slots, period)) && i < |q|
    ensures q[i].id in slots && q[i].slot == slots[q[i].id]
    ensures LeaseAll(slots, period, IdsOf(q[..i]))[q[i].id := Leased(q[i].slot, period)] ==
            LeaseAll(slots, period, IdsOf(q[..i + 1]))
  {
  }

  /** When the i-th lease is the first refused one, exactly those before it are granted. */
  lemma GrantedUpTo(slots: Slots, period: nat, cap: nat, refused: set<ParaId>, q: seq<Entry>, i: nat)
    requires Lists(slots, q, Pending(slots, period)) && Sorted(q)
    requires i < Min(|q|, Room(slots, period, cap)) && q[i].id in refused && IdsOf(q[..i]) !! refused
    ensures Granted(slots, period, cap, refused) == IdsOf(q[..i])
  {
    QueueRank(slots, period, q, i);
    assert q[i] in q;
    GrantedAheadOfRefusal(slots, period, cap, refused, q[i].id);
  }

  lemma GrantedAll(slots: Slots, period: nat, cap: nat, refused: set<ParaId>, q: seq<Entry>)
    requires Lists(slots, q, Pending(slots, period)) && Sorted(q)
    requires IdsOf(q[..Min(|q|, Room(slots, period, cap))]) !! refused
    ensures Chosen(slots, period, cap) !! refused
    ensures Granted(slots, period, cap, refused) == Chosen(slots, period, cap) ==
            IdsOf(q[..Min(|q|, Room(slots, period, cap))])
  {
    ChosenIsPrefix(slots, period, cap, q);
    AllGranted(slots, period, cap, refused);
  }

  /** The allocation that leased the first `n` entries and ran to its end. */
  lemma AllocationFinished(cfg: Config, s: Storage, period: nat, refused: set<ParaId>, q: seq<Entry>, n: nat)
    requires Lists(s.temporarySlots, q, Pending(s.temporarySlots, period)) && Sorted(q)
    requires n == Min(|q|, Room(s.temporarySlots, period, cfg.maxPerPeriod)) && IdsOf(q[..n]) !! refused
    ensures Allocate(cfg, s, period, refused) ==
            (s.(temporarySlots := LeaseAll(s.temporarySlots, period, IdsOf(q[..n])),
                activeTemporarySlotCount := |Active(s.temporarySlots, period)| + n), Ok)
  {
    GrantedAll(s.temporarySlots, period, cfg.maxPerPeriod, refused, q);
    IdsCount(q[..n]);
  }

  /** Without room or without pending slots only the active count is set. */
  lemma NothingToLease(cfg: Config, s: Storage, period: nat, refused: set<ParaId>, pending: seq<Entry>)
    requires Lists(s.temporarySlots, pending, Pending(s.temporarySlots, period))
    requires cfg.maxPerPeriod <= |Active(s.temporarySlots, period)| || pending == []
    ensures Allocate(cfg, s, period, refused) ==
            (s.(activeTemporarySlotCount := |Active(s.temporarySlots, period)|), Ok)
  {
    var q := SortByTurn(pending);
    LeaseNone(s.temporarySlots, period, q);
    AllocationFinished(cfg, s, period, refused, q, 0);
  }

  /** The allocation that leased the first `i` entries and was refused the next. */
  lemma AllocationStopped(cfg: Config, s: Storage, period: nat, refused: set<ParaId>, q: seq<Entry>, i: nat)
    requires Lists(s.temporarySlots, q, Pending(s.temporarySlots, period)) && Sorted(q)
    requires i < Min(|q|, Room(s.temporarySlots, period, cfg.maxPerPeriod))
    requires q[i].id in refused && IdsOf(q[..i]) !! refused
    ensures Allocate(cfg, s, period, refused) ==
            (s.(temporarySlots := LeaseAll(s.temporarySlots, period, IdsOf(q[..i]))), Err(CannotUpgrade))
  {
    GrantedUpTo(s.temporarySlots, period, cfg.maxPerPeriod, refused, q, i);
    ChosenIsPrefix(s.temporarySlots, period, cfg.maxPerPeriod, q);
  }
}
