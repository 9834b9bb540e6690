/** Temporary slots take turns fairly: a pending slot waits for a bounded number of period starts. */
module SlotFairness {
  import opened Numbers
  import opened AssignedSlots
  import opened SlotQueue
  import opened SlotAccounting

  /** The slots after a period start at which the leases of `refused` are refused. */
  function NextSlots(slots: Slots, cap: nat, period: nat, refused: set<ParaId>): Slots {
    LeaseAll(slots, period, Granted(slots, period, cap, refused))
  }

  /** How many more leases `y` may take before `x` must go first. */
  function Lead(slots: Slots, x: ParaId, y: ParaId): nat
    requires x in slots && y in slots
  {
    SatSub(slots[x].leaseCount + 1, slots[y].leaseCount)
  }

  ghost function LeadOver(slots: Slots, x: ParaId, ids: set<ParaId>): nat
    requires x in slots && ids <= slots.Keys
  {
    if ids == {} then 0
    else
      var y :| y in ids;
      Lead(slots, x, y) + LeadOver(slots, x, ids - {y})
  }

  /** The number of leases that can still be granted ahead of `x`. */
  ghost function Potential(slots: Slots, x: ParaId): nat
    requires x in slots
  {
    LeadOver(slots, x, slots.Keys - {x})
  }

  lemma {:induction false} LeadOverRemove(slots: Slots, x: ParaId, ids: set<ParaId>, y: ParaId)
    requires x in slots && ids <= slots.Keys && y in ids
    ensures LeadOver(slots, x, ids) == Lead(slots, x, y) + LeadOver(slots, x, ids - {y})
  {
    var z :| z in ids && LeadOver(slots, x, ids) == Lead(slots, x, z) + LeadOver(slots, x, ids - {z});
    if z == y {
    } else {
      LeadOverRemove(slots, x, ids - {z}, y);
      LeadOverRemove(slots, x, ids - {y}, z);
      assert ids - {z} - {y} == ids - {y} - {z};
    }
  }

  lemma {:induction false} LeadOverDrops(slots: Slots, slots': Slots, x: ParaId, ids: set<ParaId>, granted: set<ParaId>)
    requires slots'.Keys == slots.Keys && x in slots && ids <= slots.Keys
    requires forall y :: y in ids ==>
               Lead(slots, x, y) == Lead(slots', x, y) + (if y in granted then 1 else 0)
    ensures LeadOver(slots', x, ids) + |ids * granted| == LeadOver(slots, x, ids)
  {
    if ids == {} {
    } else {
      var y :| y in ids;
      LeadOverRemove(slots, x, ids, y);
      LeadOverRemove(slots', x, ids, y);
      LeadOverDrops(slots, slots', x, ids - {y}, granted);
      SharedWithout(ids, granted, y);
    }
  }

  lemma SharedWithout(ids: set<ParaId>, granted: set<ParaId>, y: ParaId)
    requires y in ids
    ensures |ids * granted| == |(ids - {y}) * granted| + (if y in granted then 1 else 0)
  {
    assert ids * granted == (ids - {y}) * granted + (if y in granted then {y} else {});
  }

  /** Each lease granted while `x` is passed over or refused uses up one unit of the potential. */
  lemma PassingOverCosts(slots: Slots, cap: nat, period: nat, refused: set<ParaId>, x: ParaId)
    requires x in Pending(slots, period) && x !in Granted(slots, period, cap, refused)
    ensures NextSlots(slots, cap, period, refused)[x] == slots[x]
    ensures Potential(NextSlots(slots, cap, period, refused), x) + |Granted(slots, period, cap, refused)| ==
            Potential(slots, x)
  {
    var granted := Granted(slots, period, cap, refused);
    var slots' := NextSlots(slots, cap, period, refused);
    var others := slots.Keys - {x};
    forall y | y in others
      ensures Lead(slots, x, y) == Lead(slots', x, y) + (if y in granted then 1 else 0)
    {
      if y in granted {
        GrantedAreLeast(slots, period, cap, refused, x, y);
      }
    }
    LeadOverDrops(slots, slots', x, others, granted);
    assert others * granted == granted;
  }

  /** `x` stays pending and unchanged until it is leased, at one of consecutive period starts with these refusals. */
  predicate ServedWithin(slots: Slots, cap: nat, period: nat, x: ParaId, refusals: seq<set<ParaId>>)
    requires x in slots
    decreases |refusals|
  {
    && refusals != []
    && x in Pending(slots, period)
    && (x in Granted(slots, period, cap, refusals[0]) ||
        (var slots' := NextSlots(slots, cap, period, refusals[0]);
         slots'[x] == slots[x] && ServedWithin(slots', cap, period + 1, x, refusals[1..])))
  }

  /** At no period start is the first in turn refused. */
  predicate HeadsAccepted(slots: Slots, cap: nat, period: nat, refusals: seq<set<ParaId>>)
    decreases |refusals|
  {
    refusals == [] ||
    (&& HeadAccepted(slots, period, cap, refusals[0])
     && HeadsAccepted(NextSlots(slots, cap, period, refusals[0]), cap, period + 1, refusals[1..]))
  }

  /** Every lease so far started before `period`. */
  predicate LeasesBefore(slots: Slots, length: nat, period: nat) {
    forall y :: y in slots ==>
      slots[y].periodCount == length && (slots[y].lastLease.Some? ==> slots[y].lastLease.value < period)
  }

  /** Every lease so far started before `period` and has run out by `horizon`. */
  predicate ExpireBy(slots: Slots, length: nat, period: nat, horizon: nat) {
    forall y :: y in slots ==>
      && slots[y].periodCount == length
      && (slots[y].lastLease.Some? ==>
            slots[y].lastLease.value < period && slots[y].lastLease.value + length <= horizon)
  }

  /** With nobody leased though the head is accepted, the cap must be used up, so some lease is still running. */
  lemma NobodyLeased(slots: Slots, cap: nat, length: nat, period: nat, horizon: nat, refused: set<ParaId>, x: ParaId)
    requires cap >= 1 && ExpireBy(slots, length, period, horizon)
    requires x in Pending(slots, period) && HeadAccepted(slots, period, cap, refused)
    requires Granted(slots, period, cap, refused) == {}
    ensures period < horizon && NextSlots(slots, cap, period, refused) == slots
  {
    SomebodyIsLeasedExactly(slots, period, cap, refused);
  }

  /** `count` lease lengths, one after the other. */
  function Lengths(count: nat, length: nat): nat {
    if count == 0 then 0 else length + Lengths(count - 1, length)
  }

  lemma {:induction false} LengthsGrow(a: nat, b: nat, length: nat)
    requires a < b
    ensures length + Lengths(a, length) <= Lengths(b, length)
  {
    if a + 1 == b {
    } else {
      LengthsGrow(a, b - 1, length);
    }
  }

  lemma {:induction false} LengthsProduct(count: nat, length: nat)
    ensures Lengths(count, length) == count * length
  {
    if count == 0 {
    } else {
      LengthsProduct(count - 1, length);
    }
  }

  lemma {:induction false} WaitUntilHorizon(slots: Slots, cap: nat, length: nat, period: nat, horizon: nat, x: ParaId,
                                            refusals: seq<set<ParaId>>)
    requires cap >= 1 && length >= 1 && period <= horizon
    requires ExpireBy(slots, length, period, horizon) && x in Pending(slots, period)
    requires HeadsAccepted(slots, cap, period, refusals)
    requires |refusals| >= horizon - period + 1 + Lengths(Potential(slots, x), length)
    ensures ServedWithin(slots, cap, period, x, refusals)
    decreases |refusals|
  {
    if x in Granted(slots, period, cap, refusals[0]) {
    } else {
      var slots' := NextSlots(slots, cap, period, refusals[0]);
      var horizon' := PassedOver(slots, cap, length, period, horizon, refusals[0], x);
      WaitUntilHorizon(slots', cap, length, period + 1, horizon', x, refusals[1..]);
    }
  }

  /**
   A period start that passes over `x` leaves it pending. Either a lease was granted and the potential is smaller,
   or none was and the same leases are still running out.
   */
  lemma PassedOver(slots: Slots, cap: nat, length: nat, period: nat, horizon: nat, refused: set<ParaId>,
                   x: ParaId)
    returns (horizon': nat)
    requires cap >= 1 && length >= 1 && period <= horizon
    requires ExpireBy(slots, length, period, horizon) && HeadAccepted(slots, period, cap, refused)
    requires x in Pending(slots, period) && x !in Granted(slots, period, cap, refused)
    ensures var slots' := NextSlots(slots, cap, period, refused);
            && x in Pending(slots', period + 1) && slots'[x] == slots[x]
            && period + 1 <= horizon' && ExpireBy(slots', length, period + 1, horizon')
            && horizon' + Lengths(Potential(slots', x), length) <= horizon + Lengths(Potential(slots, x), length)
  {
    var slots' := NextSlots(slots, cap, period, refused);
    PassingOverCosts(slots, cap, period, refused, x);
    if Granted(slots, period, cap, refused) == {} {
      NobodyLeased(slots, cap, length, period, horizon, refused, x);
      horizon' := horizon;
    } else {
      LengthsGrow(Potential(slots', x), Potential(slots, x), length);
      horizon' := period + length;
    }
  }

  /**
   Bounded waiting: if the first in turn is never refused, a pending slot is leased within (potential + 1) lease
   lengths of consecutive period starts, and stays pending until then, whatever is refused behind the first.
   */
  lemma BoundedWaiting(slots: Slots, cap: nat, length: nat, period: nat, x: ParaId,
                       refusals: seq<set<ParaId>>)
    requires cap >= 1 && length >= 1 && x in Pending(slots, period) && LeasesBefore(slots, length, period)
    requires HeadsAccepted(slots, cap, period, refusals)
    requires |refusals| >= Lengths(Potential(slots, x) + 1, length)
    ensures ServedWithin(slots, cap, period, x, refusals)
  {
    WaitUntilHorizon(slots, cap, length, period, period + length - 1, x, refusals);
  }

  /** Over the events, `x` keeps its place until a period start leases it. */
  predicate ServedDuring(cfg: Config, m: Machine, events: seq<Event>, x: ParaId)
    decreases |events|
  {
    && events != [] && x in m.storage.temporarySlots
    && var m' := Step(cfg, m, events[0]);
       && x in m'.storage.temporarySlots
       && (m'.storage.temporarySlots[x] == Leased(m.storage.temporarySlots[x], m'.period) ||
           (m'.storage.temporarySlots[x] == m.storage.temporarySlots[x] && ServedDuring(cfg, m', events[1..], x)))
  }

  /** Consecutive period starts, nothing else. */
  predicate PeriodStarts(period: nat, events: seq<Event>) {
    forall i :: 0 <= i < |events| ==> events[i].PeriodStart? && events[i].period == period + 1 + i
  }

  function Refusals(period: nat, events: seq<Event>): seq<set<ParaId>>
    requires PeriodStarts(period, events)
  {
    seq(|events|, i requires 0 <= i < |events| => events[i].refused)
  }

  lemma StartStep(cfg: Config, m: Machine, e: Event)
    requires e.PeriodStart?
    ensures var m' := Step(cfg, m, e);
            && m'.period == e.period
            && m'.storage.temporarySlots ==
               NextSlots(m.storage.temporarySlots, cfg.maxPerPeriod, e.period, e.refused)
  {
  }

  lemma RestOfRefusals(cfg: Config, m: Machine, events: seq<Event>)
    requires PeriodStarts(m.period, events) && events != []
    ensures var m' := Step(cfg, m, events[0]);
            && m'.storage.temporarySlots ==
               NextSlots(m.storage.temporarySlots, cfg.maxPerPeriod, m.period + 1, events[0].refused)
            && m'.period == m.period + 1 && PeriodStarts(m'.period, events[1..])
            && Refusals(m.period, events)[0] == events[0].refused
            && Refusals(m.period, events)[1..] == Refusals(m'.period, events[1..])
  {
  }

  lemma {:induction false} ServedInRun(cfg: Config, m: Machine, events: seq<Event>, x: ParaId)
    requires x in m.storage.temporarySlots && PeriodStarts(m.period, events)
    requires ServedWithin(m.storage.temporarySlots, cfg.maxPerPeriod, m.period + 1, x, Refusals(m.period, events))
    ensures ServedDuring(cfg, m, events, x)
    decreases |events|
  {
    RestOfRefusals(cfg, m, events);
    if x in Granted(m.storage.temporarySlots, m.period + 1, cfg.maxPerPeriod, events[0].refused) {
    } else {
      ServedInRun(cfg, Step(cfg, m, events[0]), events[1..], x);
    }
  }

  /** In every reachable state the leases so far started before the next period. */
  lemma LeasesLieBehind(cfg: Config, m: Machine)
    requires Accounted(cfg, m)
    ensures LeasesBefore(m.storage.temporarySlots, cfg.temporaryLength, m.period + 1)
  {
  }

  /**
   In any run of consecutive period starts at which the first in turn is not refused, a slot pending at the first of
   them is leased within (potential + 1) lease lengths, and keeps its place until then.
   */
  lemma BoundedWaitingInRun(cfg: Config, m: Machine, events: seq<Event>, x: ParaId)
    requires cfg.maxPerPeriod >= 1 && cfg.temporaryLength >= 1
    requires LeasesBefore(m.storage.temporarySlots, cfg.temporaryLength, m.period + 1)
    requires PeriodStarts(m.period, events)
    requires HeadsAccepted(m.storage.temporarySlots, cfg.maxPerPeriod, m.period + 1, Refusals(m.period, events))
    requires x in Pending(m.storage.temporarySlots, m.period + 1)
    requires |events| >= Lengths(Potential(m.storage.temporarySlots, x) + 1, cfg.temporaryLength)
    ensures ServedDuring(cfg, m, events, x)
  {
    BoundedWaiting(m.storage.temporarySlots, cfg.maxPerPeriod, cfg.temporaryLength, m.period + 1, x,
                   Refusals(m.period, events));
    ServedInRun(cfg, m, events, x);
  }

  /** Runs without any refusal are such runs. */
  lemma {:induction false} CooperationAcceptsHeads(cfg: Config, m: Machine, events: seq<Event>)
    requires PeriodStarts(m.period, events) && AllCooperative(cfg, m, events)
    ensures HeadsAccepted(m.storage.temporarySlots, cfg.maxPerPeriod, m.period + 1, Refusals(m.period, events))
    decreases |events|
  {
    if events == [] {
    } else {
      RestOfRefusals(cfg, m, events);
      CooperationAcceptsHeads(cfg, Step(cfg, m, events[0]), events[1..]);
    }
  }

  /**
   A period start leases some slot if and only if there is room, some slot waits and the first in turn is not
   refused.
   */
  lemma StartLeasesExactly(cfg: Config, m: Machine, p: nat, refused: set<ParaId>)
    ensures var slots := m.storage.temporarySlots;
            Step(cfg, m, PeriodStart(p, refused)).storage.temporarySlots != slots <==>
            && Room(slots, p, cfg.maxPerPeriod) > 0 && Pending(slots, p) != {}
            && HeadAccepted(slots, p, cfg.maxPerPeriod, refused)
  {
    var slots := m.storage.temporarySlots;
    var granted := Granted(slots, p, cfg.maxPerPeriod, refused);
    SomebodyIsLeasedExactly(slots, p, cfg.maxPerPeriod, refused);
    if granted == {} {
      assert LeaseAll(slots, p, granted) == slots;
    } else {
      var y :| y in granted;
      assert LeaseAll(slots, p, granted)[y] != slots[y];
    }
  }

  /** With the first in turn refused waiting is unbounded: as long as that goes on, nothing ever changes. */
  lemma {:induction false} RefusedHeadStarvesAll(cfg: Config, m: Machine, events: seq<Event>, y: ParaId)
    requires PeriodStarts(m.period, events)
    requires y in Pending(m.storage.temporarySlots, m.period + 1)
    requires m.storage.temporarySlots[y].lastLease.Some? ==> m.storage.temporarySlots[y].lastLease.value <= m.period
    requires forall i :: 0 <= i < |events| ==> y in events[i].refused
    requires forall z :: z in m.storage.temporarySlots && z != y ==>
               TurnBefore(y, m.storage.temporarySlots[y], z, m.storage.temporarySlots[z])
    ensures Run(cfg, m, events).storage.temporarySlots == m.storage.temporarySlots
    decreases |events|
  {
    if events == [] {
    } else {
      BlockedStart(cfg, m, events[0], y);
      RefusedHeadStarvesAll(cfg, Step(cfg, m, events[0]), events[1..], y);
    }
  }

  lemma BlockedStart(cfg: Config, m: Machine, e: Event, y: ParaId)
    requires e.PeriodStart? && e.period == m.period + 1 && y in e.refused
    requires y in Pending(m.storage.temporarySlots, e.period)
    requires m.storage.temporarySlots[y].lastLease.Some? ==> m.storage.temporarySlots[y].lastLease.value <= m.period
    requires forall z :: z in m.storage.temporarySlots && z != y ==>
               TurnBefore(y, m.storage.temporarySlots[y], z, m.storage.temporarySlots[z])
    ensures Step(cfg, m, e).storage.temporarySlots == m.storage.temporarySlots
    ensures y in Pending(m.storage.temporarySlots, e.period + 1)
  {
  }

  // ---- waiting while slots come and go

  lemma {:induction false} LeadOverSame(slots: Slots, slots': Slots, x: ParaId, ids: set<ParaId>)
    requires x in slots && x in slots' && slots[x] == slots'[x] && ids <= slots.Keys && ids <= slots'.Keys
    requires forall y :: y in ids ==> slots[y] == slots'[y]
    ensures LeadOver(slots, x, ids) == LeadOver(slots', x, ids)
  {
    if ids == {} {
    } else {
      var y :| y in ids;
      LeadOverRemove(slots, x, ids, y);
      LeadOverRemove(slots', x, ids, y);
      LeadOverSame(slots, slots', x, ids - {y});
    }
  }

  /** A new slot can take at most one more lease than `x` has before `x` goes first. */
  lemma NewSlotCosts(slots: Slots, x: ParaId, id: ParaId, slot: TemporarySlot)
    requires x in slots && id !in slots
    ensures Potential(slots[id := slot], x) <= Potential(slots, x) + slots[x].leaseCount + 1
  {
    var slots', others := slots[id := slot], slots.Keys - {x};
    assert slots'.Keys - {x} == others + {id} && others + {id} - {id} == others;
    LeadOverRemove(slots', x, others + {id}, id);
    LeadOverSame(slots, slots', x, others);
  }

  lemma GoneSlotCostsNothing(slots: Slots, x: ParaId, id: ParaId)
    requires x in slots && id in slots && x != id
    ensures Potential(slots - {id}, x) <= Potential(slots, x)
  {
    var slots', others := slots - {id}, slots.Keys - {x};
    assert slots'.Keys - {x} == others - {id};
    LeadOverRemove(slots, x, others, id);
    LeadOverSame(slots, slots', x, others - {id});
  }

  lemma {:induction false} LengthsAdd(a: nat, b: nat, length: nat)
    ensures Lengths(a + b, length) == Lengths(a, length) + Lengths(b, length)
  {
    if a == 0 {
    } else {
      LengthsAdd(a - 1, b, length);
    }
  }

  lemma LengthsMonotone(a: nat, b: nat, length: nat)
    requires a <= b
    ensures Lengths(a, length) <= Lengths(b, length)
  {
    LengthsAdd(a, b - a, length);
  }

  /** Period starts are consecutive; calls may come in between. */
  predicate ConsecutiveStarts(period: nat, events: seq<Event>)
    decreases |events|
  {
    events == [] ||
    match events[0]
    case PeriodStart(p, _) => p == period + 1 && ConsecutiveStarts(p, events[1..])
    case _ => ConsecutiveStarts(period, events[1..])
  }

  function Starts(events: seq<Event>): nat {
    if events == [] then 0 else (if events[0].PeriodStart? then 1 else 0) + Starts(events[1..])
  }

  function Assignments(events: seq<Event>): nat {
    if events == [] then 0 else (if events[0].TemporaryCall? then 1 else 0) + Assignments(events[1..])
  }

  /** At no period start of the run is the first in turn refused. */
  predicate HeadsAcceptedInRun(cfg: Config, m: Machine, events: seq<Event>)
    decreases |events|
  {
    events == [] ||
    (&& (events[0].PeriodStart? ==>
           HeadAccepted(m.storage.temporarySlots, events[0].period, cfg.maxPerPeriod, events[0].refused))
     && HeadsAcceptedInRun(cfg, Step(cfg, m, events[0]), events[1..]))
  }

  /** What `x` may still have to wait for, with so many assignments to come. */
  ghost function Budget(slots: Slots, x: ParaId, length: nat, assignments: nat): nat
    requires x in slots
  {
    Lengths(Potential(slots, x) + Lengths(assignments, slots[x].leaseCount + 2), length)
  }

  lemma BudgetProduct(slots: Slots, x: ParaId, length: nat, assignments: nat)
    requires x in slots
    ensures length + Budget(slots, x, length, assignments) ==
            (Potential(slots, x) + 1 + assignments * (slots[x].leaseCount + 2)) * length
  {
    var units := Potential(slots, x) + Lengths(assignments, slots[x].leaseCount + 2);
    LengthsProduct(assignments, slots[x].leaseCount + 2);
    LengthsProduct(units + 1, length);
  }

  /** What a call between the starts may do to the slots: nothing, add one, or remove one. */
  lemma CallShape(cfg: Config, m: Machine, e: Event)
    requires !e.PeriodStart?
    ensures var slots, m' := m.storage.temporarySlots, Step(cfg, m, e);
            var slots' := m'.storage.temporarySlots;
            && m'.period == m.period
            && (|| slots' == slots
                || (&& e.TemporaryCall? && e.id !in slots && e.id in slots' && slots' == slots[e.id := slots'[e.id]]
                    && slots'[e.id].periodCount == cfg.temporaryLength
                    && (slots'[e.id].lastLease.Some? ==> slots'[e.id].lastLease.value == m.period))
                || (e.UnassignCall? && e.id in slots && slots' == slots - {e.id}))
  {
  }

  /** An assignment spends its share of the budget: the leases it can take ahead of `x`, and the one it may have now. */
  lemma AssignmentCosts(slots: Slots, x: ParaId, id: ParaId, slot: TemporarySlot, length: nat, rest: nat)
    requires x in slots && id !in slots
    ensures length + Budget(slots[id := slot], x, length, rest) <= Budget(slots, x, length, rest + 1)
  {
    var slots', shares := slots[id := slot], Lengths(rest, slots[x].leaseCount + 2);
    NewSlotCosts(slots, x, id, slot);
    assert Lengths(rest + 1, slots[x].leaseCount + 2) == slots[x].leaseCount + 2 + shares;
    LengthsMonotone(1 + Potential(slots', x) + shares, Potential(slots, x) + slots[x].leaseCount + 2 + shares, length);
  }

  lemma RemovalCostsNothing(slots: Slots, x: ParaId, id: ParaId, length: nat, rest: nat)
    requires x in slots && id in slots && x != id
    ensures Budget(slots - {id}, x, length, rest) <= Budget(slots, x, length, rest)
  {
    var shares := Lengths(rest, slots[x].leaseCount + 2);
    GoneSlotCostsNothing(slots, x, id);
    LengthsMonotone(Potential(slots - {id}, x) + shares, Potential(slots, x) + shares, length);
  }

  lemma RefusedAssignmentCostsNothing(slots: Slots, x: ParaId, length: nat, rest: nat)
    requires x in slots
    ensures Budget(slots, x, length, rest) <= Budget(slots, x, length, rest + 1)
  {
    var shares := Lengths(rest, slots[x].leaseCount + 2);
    assert Lengths(rest + 1, slots[x].leaseCount + 2) == slots[x].leaseCount + 2 + shares;
    LengthsMonotone(Potential(slots, x) + shares, Potential(slots, x) + slots[x].leaseCount + 2 + shares, length);
  }

  /** A call between the starts leaves `x` in its place, and the budget still covers the wait. */
  lemma CallKeepsPlace(cfg: Config, m: Machine, e: Event, rest: nat, horizon: nat, x: ParaId)
    returns (horizon': nat)
    requires !e.PeriodStart? && m.period + 1 <= horizon
    requires x in m.storage.temporarySlots && x in Step(cfg, m, e).storage.temporarySlots
    requires ExpireBy(m.storage.temporarySlots, cfg.temporaryLength, m.period + 1, horizon)
    ensures var slots, slots' := m.storage.temporarySlots, Step(cfg, m, e).storage.temporarySlots;
            && slots'[x] == slots[x] && m.period + 1 <= horizon'
            && ExpireBy(slots', cfg.temporaryLength, m.period + 1, horizon')
            && horizon' + Budget(slots', x, cfg.temporaryLength, rest) <=
               horizon + Budget(slots, x, cfg.temporaryLength, rest + if e.TemporaryCall? then 1 else 0)
  {
    var slots, slots' := m.storage.temporarySlots, Step(cfg, m, e).storage.temporarySlots;
    var length := cfg.temporaryLength;
    CallShape(cfg, m, e);
    horizon' := horizon;
    if slots' == slots {
      RefusedAssignmentCostsNothing(slots, x, length, rest);
    } else if e.TemporaryCall? {
      horizon' := horizon + length;
      AssignmentCosts(slots, x, e.id, slots'[e.id], length, rest);
    } else {
      RemovalCostsNothing(slots, x, e.id, length, rest);
    }
  }

  /** A period start that passes over `x` leaves it in its place, and the budget still covers the wait. */
  lemma StartKeepsPlace(slots: Slots, cap: nat, length: nat, period: nat, horizon: nat, refused: set<ParaId>, x: ParaId,
                        rest: nat)
    returns (horizon': nat)
    requires cap >= 1 && length >= 1 && period <= horizon
    requires ExpireBy(slots, length, period, horizon) && HeadAccepted(slots, period, cap, refused)
    requires x in Pending(slots, period) && x !in Granted(slots, period, cap, refused)
    ensures var slots' := NextSlots(slots, cap, period, refused);
            && x in Pending(slots', period + 1) && slots'[x] == slots[x] && period + 1 <= horizon'
            && ExpireBy(slots', length, period + 1, horizon')
            && horizon' + Budget(slots', x, length, rest) <= horizon + Budget(slots, x, length, rest)
  {
    var shares := Lengths(rest, slots[x].leaseCount + 2);
    horizon' := PassedOver(slots, cap, length, period, horizon, refused, x);
    LengthsAdd(Potential(slots, x), shares, length);
    LengthsAdd(Potential(NextSlots(slots, cap, period, refused), x), shares, length);
  }

  lemma {:induction false} WaitInRun(cfg: Config, m: Machine, events: seq<Event>, horizon: nat, x: ParaId)
    requires cfg.maxPerPeriod >= 1 && cfg.temporaryLength >= 1 && m.period + 1 <= horizon
    requires ConsecutiveStarts(m.period, events) && HeadsAcceptedInRun(cfg, m, events)
    requires KeptThroughout(cfg, m, events, x) && x in Pending(m.storage.temporarySlots, m.period + 1)
    requires ExpireBy(m.storage.temporarySlots, cfg.temporaryLength, m.period + 1, horizon)
    requires Starts(events) >= horizon - m.period +
                               Budget(m.storage.temporarySlots, x, cfg.temporaryLength, Assignments(events))
    ensures ServedDuring(cfg, m, events, x)
    decreases |events|
  {
    var e, rest := events[0], events[1..];
    if !e.PeriodStart? {
      CallShape(cfg, m, e);
      var horizon' := CallKeepsPlace(cfg, m, e, Assignments(rest), horizon, x);
      WaitInRun(cfg, Step(cfg, m, e), rest, horizon', x);
    } else {
      var slots := m.storage.temporarySlots;
      StartStep(cfg, m, e);
      if x !in Granted(slots, e.period, cfg.maxPerPeriod, e.refused) {
        var horizon' := StartKeepsPlace(slots, cfg.maxPerPeriod, cfg.temporaryLength, e.period, horizon, e.refused, x,
                                        Assignments(rest));
        WaitInRun(cfg, Step(cfg, m, e), rest, horizon', x);
      }
    }
  }

  /**
   Bounded waiting while slots are assigned and removed between the period starts: each temporary assignment adds at
   most two more lease lengths than `x` has had leases to the bound, a removal nothing.
   */
  lemma BoundedWaitingAmongCalls(cfg: Config, m: Machine, events: seq<Event>, x: ParaId)
    requires cfg.maxPerPeriod >= 1 && cfg.temporaryLength >= 1
    requires LeasesBefore(m.storage.temporarySlots, cfg.temporaryLength, m.period + 1)
    requires ConsecutiveStarts(m.period, events) && HeadsAcceptedInRun(cfg, m, events)
    requires KeptThroughout(cfg, m, events, x) && x in Pending(m.storage.temporarySlots, m.period + 1)
    requires var slot := m.storage.temporarySlots[x];
             Starts(events) >= (Potential(m.storage.temporarySlots, x) + 1 +
                                Assignments(events) * (slot.leaseCount + 2)) * cfg.temporaryLength
    ensures ServedDuring(cfg, m, events, x)
  {
    BudgetProduct(m.storage.temporarySlots, x, cfg.temporaryLength, Assignments(events));
    WaitInRun(cfg, m, events, m.period + cfg.temporaryLength, x);
  }
}
