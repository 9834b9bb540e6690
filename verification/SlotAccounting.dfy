/** What every call and every period start keeps: the counters match the maps, and the caps hold. */
module SlotAccounting {
  import opened Options
  import opened Numbers
  import opened Sets
  import opened AssignedSlots
  import opened SlotQueue

  /** The storage together with the current lease period. */
  datatype Machine = Machine(storage: Storage, period: nat)

  datatype Event =
    | PermanentCall(id: ParaId, answers: Answers)
    | TemporaryCall(id: ParaId, start: SlotLeasePeriodStart, answers: Answers)
    | UnassignCall(id: ParaId, answers: Answers)
    | PeriodStart(period: nat, refused: set<ParaId>)

  function Step(cfg: Config, m: Machine, e: Event): Machine {
    match e
    case PermanentCall(id, q) => m.(storage := AssignPermanent(cfg, m.storage, m.period, id, q).0)
    case TemporaryCall(id, start, q) => m.(storage := AssignTemporary(cfg, m.storage, m.period, id, start, q).0)
    case UnassignCall(id, q) => m.(storage := Unassign(m.storage, id, q).0)
    case PeriodStart(p, refused) => Machine(Allocate(cfg, m.storage, p, refused).0, p)
  }

  function Run(cfg: Config, m: Machine, events: seq<Event>): Machine
    decreases |events|
  {
    if events == [] then m else Run(cfg, Step(cfg, m, events[0]), events[1..])
  }

  /** Lease periods only move forward, and stay below the largest 32-bit number. */
  predicate Timely(m: Machine, e: Event) {
    e.PeriodStart? ==> m.period < e.period < U32_MAX
  }

  predicate AllTimely(cfg: Config, m: Machine, events: seq<Event>)
    decreases |events|
  {
    events == [] || (Timely(m, events[0]) && AllTimely(cfg, Step(cfg, m, events[0]), events[1..]))
  }

  predicate ConfigOk(cfg: Config) {
    && cfg.maxPermanent <= U32_MAX && cfg.maxTemporary <= U32_MAX && cfg.maxPerPeriod <= U32_MAX
    && cfg.temporaryLength >= 1
  }

  predicate SlotOk(cfg: Config, slot: TemporarySlot, period: nat) {
    && slot.periodCount == cfg.temporaryLength
    && (slot.lastLease.Some? <==> slot.leaseCount > 0)
    && (slot.lastLease.Some? ==> slot.periodBegin <= slot.lastLease.value <= period)
  }

  ghost predicate Accounted(cfg: Config, m: Machine) {
    var s := m.storage;
    && s.permanentSlotCount == |s.permanentSlots| <= cfg.maxPermanent
    && s.temporarySlotCount == |s.temporarySlots| <= cfg.maxTemporary
    && s.permanentSlots.Keys !! s.temporarySlots.Keys
    && m.period < U32_MAX
    && forall x :: x in s.temporarySlots ==> SlotOk(cfg, s.temporarySlots[x], m.period)
  }

  lemma PermanentKeepsAccounts(cfg: Config, m: Machine, id: ParaId, q: Answers)
    requires ConfigOk(cfg) && Accounted(cfg, m)
    ensures Accounted(cfg, Step(cfg, m, PermanentCall(id, q)))
  {
  }

  lemma TemporaryKeepsAccounts(cfg: Config, m: Machine, id: ParaId, start: SlotLeasePeriodStart, q: Answers)
    requires ConfigOk(cfg) && Accounted(cfg, m)
    ensures Accounted(cfg, Step(cfg, m, TemporaryCall(id, start, q)))
  {
  }

  lemma UnassignKeepsAccounts(cfg: Config, m: Machine, id: ParaId, q: Answers)
    requires ConfigOk(cfg) && Accounted(cfg, m)
    ensures Accounted(cfg, Step(cfg, m, UnassignCall(id, q)))
  {
  }

  lemma StartKeepsAccounts(cfg: Config, m: Machine, p: nat, refused: set<ParaId>)
    requires ConfigOk(cfg) && Accounted(cfg, m) && m.period < p < U32_MAX
    ensures Accounted(cfg, Step(cfg, m, PeriodStart(p, refused)))
  {
    var slots := m.storage.temporarySlots;
    var granted := Granted(slots, p, cfg.maxPerPeriod, refused);
    var after := LeaseAll(slots, p, granted);
    assert after.Keys == slots.Keys;
    forall x | x in after
      ensures SlotOk(cfg, after[x], p)
    {
    }
  }

  /** Every call and every period start, whatever the outside answers, keeps the accounts. */
  lemma StepKeepsAccounts(cfg: Config, m: Machine, e: Event)
    requires ConfigOk(cfg) && Accounted(cfg, m) && Timely(m, e)
    ensures Accounted(cfg, Step(cfg, m, e))
  {
    match e
    case PermanentCall(id, q) => PermanentKeepsAccounts(cfg, m, id, q);
    case TemporaryCall(id, start, q) => TemporaryKeepsAccounts(cfg, m, id, start, q);
    case UnassignCall(id, q) => UnassignKeepsAccounts(cfg, m, id, q);
    case PeriodStart(p, refused) => StartKeepsAccounts(cfg, m, p, refused);
  }

  /** In every reachable state the counts are the map sizes, the maps are disjoint and both caps hold. */
  lemma {:induction false} RunKeepsAccounts(cfg: Config, m: Machine, events: seq<Event>)
    requires ConfigOk(cfg) && Accounted(cfg, m) && AllTimely(cfg, m, events)
    ensures Accounted(cfg, Run(cfg, m, events))
    decreases |events|
  {
    if events == [] {
    } else {
      StepKeepsAccounts(cfg, m, events[0]);
      RunKeepsAccounts(cfg, Step(cfg, m, events[0]), events[1..]);
    }
  }

  /** The slot's last lease covers the period, in plain arithmetic. */
  predicate Covers(slot: TemporarySlot, period: nat) {
    slot.lastLease.Some? && slot.lastLease.value <= period < slot.lastLease.value + slot.periodCount
  }

  function Covered(slots: Slots, period: nat): set<ParaId> {
    set x | x in slots && Covers(slots[x], period)
  }

  /** The active count is the number of running leases. */
  predicate CountExact(m: Machine) {
    m.storage.activeTemporarySlotCount == |Covered(m.storage.temporarySlots, m.period)|
  }

  /** After a period start, the running leases are those still active and those just granted. */
  lemma CoveredAfterStart(cfg: Config, m: Machine, p: nat, refused: set<ParaId>)
    requires ConfigOk(cfg) && Accounted(cfg, m) && m.period < p < U32_MAX
    ensures var slots := m.storage.temporarySlots;
            var granted := Granted(slots, p, cfg.maxPerPeriod, refused);
            && Covered(LeaseAll(slots, p, granted), p) == Active(slots, p) + granted
            && |Covered(LeaseAll(slots, p, granted), p)| == |Active(slots, p)| + |granted|
  {
    var slots := m.storage.temporarySlots;
    var granted := Granted(slots, p, cfg.maxPerPeriod, refused);
    var after := LeaseAll(slots, p, granted);
    forall x
      ensures x in Covered(after, p) <==> x in Active(slots, p) + granted
    {
    }
  }

  /** What runs at the new period was already running before it. */
  lemma ActiveBefore(cfg: Config, m: Machine, p: nat)
    requires ConfigOk(cfg) && Accounted(cfg, m) && m.period < p < U32_MAX
    ensures Active(m.storage.temporarySlots, p) <= Covered(m.storage.temporarySlots, m.period)
    ensures |Active(m.storage.temporarySlots, p)| <= |Covered(m.storage.temporarySlots, m.period)|
  {
    var slots := m.storage.temporarySlots;
    forall x | x in Active(slots, p)
      ensures x in Covered(slots, m.period)
    {
    }
    SubsetCard(Active(slots, p), Covered(slots, m.period));
  }

  /** No chosen lease is refused, and a removed para is a parachain just when its lease is running. */
  predicate Cooperative(cfg: Config, m: Machine, e: Event) {
    match e
    case PeriodStart(p, refused) => Chosen(m.storage.temporarySlots, p, cfg.maxPerPeriod) !! refused
    case UnassignCall(id, q) =>
      id in m.storage.temporarySlots ==> (q.isParachain <==> Covers(m.storage.temporarySlots[id], m.period))
    case _ => true
  }

  predicate AllCooperative(cfg: Config, m: Machine, events: seq<Event>)
    decreases |events|
  {
    events == [] || (Cooperative(cfg, m, events[0]) && AllCooperative(cfg, Step(cfg, m, events[0]), events[1..]))
  }

  lemma StartKeepsCount(cfg: Config, m: Machine, p: nat, refused: set<ParaId>)
    requires ConfigOk(cfg) && Accounted(cfg, m) && m.period < p < U32_MAX
    requires |Covered(m.storage.temporarySlots, m.period)| <= cfg.maxPerPeriod
    requires Chosen(m.storage.temporarySlots, p, cfg.maxPerPeriod) !! refused
    ensures CountExact(Step(cfg, m, PeriodStart(p, refused)))
    ensures Step(cfg, m, PeriodStart(p, refused)).storage.activeTemporarySlotCount <= cfg.maxPerPeriod
  {
    var slots := m.storage.temporarySlots;
    AllGranted(slots, p, cfg.maxPerPeriod, refused);
    CoveredAfterStart(cfg, m, p, refused);
    ActiveBefore(cfg, m, p);
    ChosenCount(slots, p, cfg.maxPerPeriod);
  }

  lemma RemovalChangesCovered(slots: Slots, period: nat, id: ParaId)
    requires id in slots
    ensures |Covered(slots - {id}, period)| == |Covered(slots, period)| - (if Covers(slots[id], period) then 1 else 0)
  {
    assert Covered(slots - {id}, period) == Covered(slots, period) - {id};
  }

  lemma InsertionChangesCovered(slots: Slots, period: nat, id: ParaId, slot: TemporarySlot)
    requires id !in slots
    ensures |Covered(slots[id := slot], period)| == |Covered(slots, period)| + (if Covers(slot, period) then 1 else 0)
  {
    assert Covered(slots[id := slot], period) ==
           Covered(slots, period) + (if Covers(slot, period) then {id} else {});
  }

  lemma StepKeepsCount(cfg: Config, m: Machine, e: Event)
    requires ConfigOk(cfg) && Accounted(cfg, m) && Timely(m, e) && Cooperative(cfg, m, e)
    requires CountExact(m) && m.storage.activeTemporarySlotCount <= cfg.maxPerPeriod
    ensures CountExact(Step(cfg, m, e))
    ensures Step(cfg, m, e).storage.activeTemporarySlotCount <= cfg.maxPerPeriod
  {
    var s := m.storage;
    match e {
      case PermanentCall(id, q) =>
      case TemporaryCall(id, start, q) =>
        var (s', r) := AssignTemporary(cfg, s, m.period, id, start, q);
        if r.Ok? {
          InsertionChangesCovered(s.temporarySlots, m.period, id, s'.temporarySlots[id]);
        }
      case UnassignCall(id, q) =>
        if id in s.temporarySlots {
          RemovalChangesCovered(s.temporarySlots, m.period, id);
        }
      case PeriodStart(p, refused) =>
        StartKeepsCount(cfg, m, p, refused);
    }
  }

  /**
   Over any run in which the outside cooperates, the active count is the number of slots whose lease
   covers the current period, and it never exceeds the cap.
   */
  lemma {:induction false} RunKeepsCount(cfg: Config, m: Machine, events: seq<Event>)
    requires ConfigOk(cfg) && Accounted(cfg, m) && AllTimely(cfg, m, events) && AllCooperative(cfg, m, events)
    requires CountExact(m) && m.storage.activeTemporarySlotCount <= cfg.maxPerPeriod
    ensures CountExact(Run(cfg, m, events))
    ensures Run(cfg, m, events).storage.activeTemporarySlotCount <= cfg.maxPerPeriod
    decreases |events|
  {
    if events == [] {
    } else {
      StepKeepsAccounts(cfg, m, events[0]);
      StepKeepsCount(cfg, m, events[0]);
      RunKeepsCount(cfg, Step(cfg, m, events[0]), events[1..]);
    }
  }

  /**
   Removing a temporary slot keeps the count exact just when `is_parachain` agrees with the lease, or nothing runs.
   */
  lemma RemovalKeepsCountExactly(cfg: Config, m: Machine, id: ParaId, q: Answers)
    requires Accounted(cfg, m) && CountExact(m)
    requires id in m.storage.temporarySlots && q.authorized && q.leasesCleared
    ensures CountExact(Step(cfg, m, UnassignCall(id, q))) <==>
            (q.isParachain <==> Covers(m.storage.temporarySlots[id], m.period)) ||
            m.storage.activeTemporarySlotCount == 0
  {
    RemovalChangesCovered(m.storage.temporarySlots, m.period, id);
  }

  /** The registrar says a para with a running lease is no parachain: nothing runs any more and the count says one. */
  lemma RemovalExample(manager: AccountId, q: Answers)
    requires q.authorized && q.leasesCleared && !q.isParachain
    ensures var cfg := Config(1, 1, 1, 2, 2);
            var m := Machine(Storage(map[], 0, map[1 := TemporarySlot(manager, 0, 1, Some(0), 1)], 1, 1), 0);
            var m' := Step(cfg, m, UnassignCall(1, q));
            && CountExact(m)
            && m'.storage.activeTemporarySlotCount == 1
            && Covered(m'.storage.temporarySlots, 0) == {}
  {
    assert Covered(map[1 := TemporarySlot(manager, 0, 1, Some(0), 1)], 0) == {1};
  }

  /** After a refusal the count keeps its old value. */
  lemma CountAfterRefusal(cfg: Config, m: Machine, p: nat, refused: set<ParaId>)
    requires ConfigOk(cfg) && Accounted(cfg, m) && m.period < p < U32_MAX
    requires !(Chosen(m.storage.temporarySlots, p, cfg.maxPerPeriod) !! refused)
    ensures var slots := m.storage.temporarySlots;
            CountExact(Step(cfg, m, PeriodStart(p, refused))) <==>
            m.storage.activeTemporarySlotCount ==
            |Active(slots, p)| + |Granted(slots, p, cfg.maxPerPeriod, refused)|
  {
    var slots := m.storage.temporarySlots;
    var after := LeaseAll(slots, p, Granted(slots, p, cfg.maxPerPeriod, refused));
    assert Step(cfg, m, PeriodStart(p, refused)) == Machine(m.storage.(temporarySlots := after), p);
    CoveredAfterStart(cfg, m, p, refused);
  }

  /** The leases that were running at the machine's period and no longer are at `p`. */
  function RanOut(m: Machine, p: nat): set<ParaId> {
    Covered(m.storage.temporarySlots, m.period) - Active(m.storage.temporarySlots, p)
  }

  /** The first of the chosen slots that is refused. */
  ghost predicate FirstRefused(slots: Slots, p: nat, cap: nat, refused: set<ParaId>, first: ParaId) {
    first in Chosen(slots, p, cap) && first in refused && Ahead(slots, p, first) !! refused
  }

  /**
   If the count was exact before a refusal, it still is if and only if as many leases have run out as pending slots are
   ahead of the first one refused; and there is a first one.
   */
  lemma RefusalKeepsCountExactly(cfg: Config, m: Machine, p: nat, refused: set<ParaId>)
    requires ConfigOk(cfg) && Accounted(cfg, m) && CountExact(m) && m.period < p < U32_MAX
    requires !(Chosen(m.storage.temporarySlots, p, cfg.maxPerPeriod) !! refused)
    ensures var slots := m.storage.temporarySlots;
            && (exists first :: FirstRefused(slots, p, cfg.maxPerPeriod, refused, first))
            && forall first :: FirstRefused(slots, p, cfg.maxPerPeriod, refused, first) ==>
                 (CountExact(Step(cfg, m, PeriodStart(p, refused))) <==> |RanOut(m, p)| == |Ahead(slots, p, first)|)
  {
    var slots := m.storage.temporarySlots;
    var y :| y in Chosen(slots, p, cfg.maxPerPeriod) && y in refused;
    var f := SomebodyIsRefusedFirst(slots, p, cfg.maxPerPeriod, refused, y);
    assert FirstRefused(slots, p, cfg.maxPerPeriod, refused, f);
    CountAfterRefusal(cfg, m, p, refused);
    ActiveBefore(cfg, m, p);
    assert Covered(slots, m.period) == RanOut(m, p) + Active(slots, p);
    forall first | FirstRefused(slots, p, cfg.maxPerPeriod, refused, first)
      ensures CountExact(Step(cfg, m, PeriodStart(p, refused))) <==> |RanOut(m, p)| == |Ahead(slots, p, first)|
    {
      GrantedAheadOfRefusal(slots, p, cfg.maxPerPeriod, refused, first);
    }
  }

  /** Two waiting slots, the second refused: one lease runs and the count still says none. */
  lemma RefusalExample(manager: AccountId)
    ensures var cfg := Config(1, 1, 1, 2, 2);
            var slot := TemporarySlot(manager, 0, 1, None, 0);
            var m := Machine(Storage(map[], 0, map[1 := slot, 2 := slot], 2, 0), 0);
            var m' := Step(cfg, m, PeriodStart(1, {2}));
            && CountExact(m)
            && m'.storage.activeTemporarySlotCount == 0
            && Covered(m'.storage.temporarySlots, 1) == {1}
  {
    var slot := TemporarySlot(manager, 0, 1, None, 0);
    var slots: Slots := map[1 := slot, 2 := slot];
    assert Ahead(slots, 1, 1) == {} && Ahead(slots, 1, 2) == {1};
  }

  /** The slot of `x` is there before and after every event. */
  predicate KeptThroughout(cfg: Config, m: Machine, events: seq<Event>, x: ParaId)
    decreases |events|
  {
    x in m.storage.temporarySlots && (events == [] || KeptThroughout(cfg, Step(cfg, m, events[0]), events[1..], x))
  }

  /** The periods at which `x` is leased during the run. */
  function LeaseStarts(cfg: Config, m: Machine, events: seq<Event>, x: ParaId): seq<nat>
    requires KeptThroughout(cfg, m, events, x)
    decreases |events|
  {
    if events == [] then []
    else
      var m' := Step(cfg, m, events[0]);
      assert KeptThroughout(cfg, m', events[1..], x);
      (if m'.storage.temporarySlots[x] != m.storage.temporarySlots[x] then [m'.period] else [])
      + LeaseStarts(cfg, m', events[1..], x)
  }

  /** No start is before `begin`, and each is at least `gap` after the one before it, the first after `prev`. */
  predicate Spaced(prev: Option<nat>, begin: nat, starts: seq<nat>, gap: nat)
    decreases |starts|
  {
    starts == [] ||
    (&& begin <= starts[0]
     && (prev.Some? ==> prev.value + gap <= starts[0])
     && Spaced(Some(starts[0]), begin, starts[1..], gap))
  }

  /** Over a whole run, a slot's leases start two lease lengths apart and not before its first period. */
  lemma {:induction false} RunSpacesLeases(cfg: Config, m: Machine, events: seq<Event>, x: ParaId)
    requires ConfigOk(cfg) && Accounted(cfg, m) && AllTimely(cfg, m, events) && KeptThroughout(cfg, m, events, x)
    ensures Spaced(m.storage.temporarySlots[x].lastLease, m.storage.temporarySlots[x].periodBegin,
                   LeaseStarts(cfg, m, events, x), 2 * cfg.temporaryLength)
    decreases |events|
  {
    if events == [] {
    } else {
      var m' := Step(cfg, m, events[0]);
      StepKeepsAccounts(cfg, m, events[0]);
      RunSpacesLeases(cfg, m', events[1..], x);
      StepSpacesLease(cfg, m, events[0], x);
      var rest := LeaseStarts(cfg, m', events[1..], x);
      assert [] + rest == rest;
    }
  }

  lemma StepSpacesLease(cfg: Config, m: Machine, e: Event, x: ParaId)
    requires ConfigOk(cfg) && Accounted(cfg, m) && Timely(m, e)
    requires x in m.storage.temporarySlots && x in Step(cfg, m, e).storage.temporarySlots
    ensures var m' := Step(cfg, m, e);
            var was, now := m.storage.temporarySlots[x], m'.storage.temporarySlots[x];
            && now.periodBegin == was.periodBegin
            && (now != was ==>
                  && now.lastLease == Some(m'.period) && was.periodBegin <= m'.period
                  && (was.lastLease.Some? ==> was.lastLease.value + 2 * cfg.temporaryLength <= m'.period))
  {
  }

  // ---- when a slot competes, and whose turn it is

  /**
   Below the 32-bit limit: a lease runs for its length, its slot competes again from two lengths after its start on, and
   a slot without a lease competes from its first period on.
   */
  lemma CompetesExactly(slot: TemporarySlot, p: nat)
    requires slot.periodCount >= 1
    requires slot.lastLease.Some? ==> slot.lastLease.value + 2 * slot.periodCount <= U32_MAX
    ensures match slot.lastLease
            case Some(last) =>
              && (ActiveAt(slot, p) <==> last <= p < last + slot.periodCount)
              && (PendingAt(slot, p) <==> last + 2 * slot.periodCount <= p)
            case None => !ActiveAt(slot, p) && (PendingAt(slot, p) <==> slot.periodBegin <= p)
  {
  }

  /** Fewer leases; or as many, and the last one longer ago or none at all; or the same last one, and a smaller id. */
  predicate ServedLess(x: ParaId, sx: TemporarySlot, y: ParaId, sy: TemporarySlot) {
    || sx.leaseCount < sy.leaseCount
    || (&& sx.leaseCount == sy.leaseCount
        && (|| (sy.lastLease.Some? && (sx.lastLease.None? || sx.lastLease.value < sy.lastLease.value))
            || (sx.lastLease == sy.lastLease && x < y)))
  }

  /** What a period start does to a slot: nothing, or one more lease from that period on, and nothing else. */
  lemma StartChangesOnlyLease(cfg: Config, m: Machine, p: nat, refused: set<ParaId>, x: ParaId)
    requires x in m.storage.temporarySlots
    ensures var slot := m.storage.temporarySlots[x];
            var slots' := Step(cfg, m, PeriodStart(p, refused)).storage.temporarySlots;
            && slots'.Keys == m.storage.temporarySlots.Keys
            && (|| slots'[x] == slot
                || slots'[x] ==
                   TemporarySlot(slot.manager, slot.periodBegin, slot.periodCount, Some(p), slot.leaseCount + 1))
            && (slots'[x] != slot ==> PendingAt(slot, p) && x !in refused)
  {
  }

  /** At a period start, if a slot is leased, so is every competing slot that was served less. */
  lemma ServedLessGoesFirst(cfg: Config, m: Machine, p: nat, refused: set<ParaId>, x: ParaId, y: ParaId)
    requires var slots := m.storage.temporarySlots;
             && x in slots && y in slots && PendingAt(slots[x], p) && ServedLess(x, slots[x], y, slots[y])
    requires var slots' := Step(cfg, m, PeriodStart(p, refused)).storage.temporarySlots;
             y in slots' && slots'[y] != m.storage.temporarySlots[y]
    ensures var slots' := Step(cfg, m, PeriodStart(p, refused)).storage.temporarySlots;
            x in slots' && slots'[x] != m.storage.temporarySlots[x]
  {
    var slots := m.storage.temporarySlots;
    var granted := Granted(slots, p, cfg.maxPerPeriod, refused);
    assert y in granted;
    if x !in granted {
      GrantedAreLeast(slots, p, cfg.maxPerPeriod, refused, x, y);
    }
  }

  /** The slots that a period start leases. */
  function LeasedBy(cfg: Config, m: Machine, p: nat, refused: set<ParaId>): set<ParaId> {
    var slots' := Step(cfg, m, PeriodStart(p, refused)).storage.temporarySlots;
    set x | x in m.storage.temporarySlots && x in slots' && slots'[x] != m.storage.temporarySlots[x]
  }

  /** A period start reports success if and only if it leases as many slots as compete and fit. */
  lemma StartSucceedsExactly(cfg: Config, m: Machine, p: nat, refused: set<ParaId>)
    ensures var slots := m.storage.temporarySlots;
            var r := Allocate(cfg, m.storage, p, refused).1;
            && (r == Ok <==>
                |LeasedBy(cfg, m, p, refused)| ==
                Min(|Pending(slots, p)|, SatSub(cfg.maxPerPeriod, |Active(slots, p)|)))
            && (r == Ok || r == Err(CannotUpgrade))
  {
    var slots := m.storage.temporarySlots;
    var chosen, granted := Chosen(slots, p, cfg.maxPerPeriod), Granted(slots, p, cfg.maxPerPeriod, refused);
    ChosenCount(slots, p, cfg.maxPerPeriod);
    assert LeasedBy(cfg, m, p, refused) == granted;
    if chosen !! refused {
      AllGranted(slots, p, cfg.maxPerPeriod, refused);
    } else {
      var y :| y in chosen && y in refused;
      SubsetCard(granted, chosen - {y});
    }
  }

  /** A slot has had a lease exactly if its count is not zero. */
  predicate LeasesCounted(slots: Slots) {
    forall x :: x in slots ==> (slots[x].leaseCount == 0 <==> slots[x].lastLease.None?)
  }

  /** Every call and period start keeps it so. */
  lemma StepCountsLeases(cfg: Config, m: Machine, e: Event)
    requires LeasesCounted(m.storage.temporarySlots)
    ensures LeasesCounted(Step(cfg, m, e).storage.temporarySlots)
  {
  }

  /** Over a whole run the lease count of a slot grows by the number of its lease starts. */
  lemma {:induction false} RunCountsLeases(cfg: Config, m: Machine, events: seq<Event>, x: ParaId)
    requires KeptThroughout(cfg, m, events, x)
    ensures x in Run(cfg, m, events).storage.temporarySlots
    ensures Run(cfg, m, events).storage.temporarySlots[x].leaseCount ==
            m.storage.temporarySlots[x].leaseCount + |LeaseStarts(cfg, m, events, x)|
    decreases |events|
  {
    if events == [] {
    } else {
      RunCountsLeases(cfg, Step(cfg, m, events[0]), events[1..], x);
    }
  }

  // ---- what the calls answer

  /** Nothing stands in the way of an assignment. */
  predicate Assignable(s: Storage, id: ParaId, q: Answers) {
    && q.authorized && q.manager.Some? && q.isParathread && !q.alreadyLeased
    && id !in s.permanentSlots && id !in s.temporarySlots
  }

  /**
   A temporary assignment succeeds exactly when the para is assignable and the cap is not reached, and a failure
   changes nothing. A lease runs at once exactly when asked for now, with room for it and no refusal.
   */
  lemma AssignsTemporaryExactly(cfg: Config, m: Machine, id: ParaId, start: SlotLeasePeriodStart, q: Answers)
    requires ConfigOk(cfg) && Accounted(cfg, m)
    ensures var (s', r) := AssignTemporary(cfg, m.storage, m.period, id, start, q);
            && (r.Ok? <==> Assignable(m.storage, id, q) && |m.storage.temporarySlots| < cfg.maxTemporary)
            && (r.Err? ==> s' == m.storage)
            && (r.Ok? ==>
                  && id in s'.temporarySlots
                  && s'.temporarySlots == m.storage.temporarySlots[id := s'.temporarySlots[id]]
                  && (Covers(s'.temporarySlots[id], m.period) <==>
                      start.Current? && q.leaseAccepted && m.storage.activeTemporarySlotCount < cfg.maxPerPeriod)
                  && (start.Next? ==> !PendingAt(s'.temporarySlots[id], m.period) &&
                                      PendingAt(s'.temporarySlots[id], m.period + 1))
                  && var slot := s'.temporarySlots[id];
                     && slot.manager == q.manager.value && slot.periodCount == cfg.temporaryLength
                     && slot.periodBegin == m.period + (if start.Next? then 1 else 0)
                     && (slot.lastLease == None || slot.lastLease == Some(m.period))
                     && (slot.leaseCount == if slot.lastLease.Some? then 1 else 0))
  {
  }

  /** A permanent assignment also fails when its lease is refused. */
  lemma AssignsPermanentExactly(cfg: Config, m: Machine, id: ParaId, q: Answers)
    requires ConfigOk(cfg) && Accounted(cfg, m)
    ensures var (s', r) := AssignPermanent(cfg, m.storage, m.period, id, q);
            && (r.Ok? <==>
                Assignable(m.storage, id, q) && |m.storage.permanentSlots| < cfg.maxPermanent && q.leaseAccepted)
            && (r.Err? ==> s' == m.storage)
            && (r.Ok? ==> s'.permanentSlots == m.storage.permanentSlots[id := (m.period, cfg.permanentLength)])
  {
  }

  /** Which error an assignment meets first. */
  lemma AssignmentErrorExactly(cfg: Config, s: Storage, period: nat, id: ParaId, start: SlotLeasePeriodStart,
                               q: Answers)
    ensures var permanent := AssignPermanent(cfg, s, period, id, q).1;
            var temporary := AssignTemporary(cfg, s, period, id, start, q).1;
            && (permanent == Err(BadOrigin) <==> !q.authorized)
            && (permanent == Err(ParaDoesntExist) <==> q.authorized && q.manager.None?)
            && (permanent == Err(NotParathread) <==> q.authorized && q.manager.Some? && !q.isParathread)
            && (q.authorized && q.manager.Some? && q.isParathread ==>
                  && (permanent == Err(SlotAlreadyAssigned) <==> id in s.permanentSlots || id in s.temporarySlots)
                  && (id !in s.permanentSlots && id !in s.temporarySlots ==>
                        && (permanent == Err(OngoingLeaseExists) <==> q.alreadyLeased)
                        && (!q.alreadyLeased ==>
                              && (permanent == Err(MaxPermanentSlotsExceeded) <==>
                                  s.permanentSlotCount >= cfg.maxPermanent)
                              && (permanent == Err(CannotUpgrade) <==>
                                  s.permanentSlotCount < cfg.maxPermanent && !q.leaseAccepted)
                              && (temporary == Err(MaxTemporarySlotsExceeded) <==>
                                  s.temporarySlotCount >= cfg.maxTemporary))))
            && (!Assignable(s, id, q) ==> permanent == temporary)
  {
  }

  /** A removal succeeds exactly if authorised, with a slot there and its leases cleared; else nothing changes. */
  lemma UnassignsExactly(s: Storage, id: ParaId, q: Answers)
    ensures var (s', r) := Unassign(s, id, q);
            && (r == Ok <==> q.authorized && (id in s.permanentSlots || id in s.temporarySlots) && q.leasesCleared)
            && (r == Err(BadOrigin) <==> !q.authorized)
            && (r == Err(SlotNotAssigned) <==>
                q.authorized && id !in s.permanentSlots && id !in s.temporarySlots)
            && (r == Ok || r == Err(BadOrigin) || r == Err(SlotNotAssigned) || r == Err(LeaseNotCleared))
            && (r != Ok ==> s' == s)
            && (r == Ok && id in s.permanentSlots ==>
                  s' == s.(permanentSlots := s'.permanentSlots, permanentSlotCount := s'.permanentSlotCount) &&
                  s'.permanentSlots == s.permanentSlots - {id})
            && (r == Ok && id !in s.permanentSlots ==>
                  && s'.permanentSlots == s.permanentSlots && s'.permanentSlotCount == s.permanentSlotCount
                  && s'.temporarySlots == s.temporarySlots - {id})
  {
  }

  /**
   Unassigning in the same period undoes an assignment, down to every counter, if and only if the registrar takes the
   para for a parachain just when it was leased at once, or it was not and the count was zero anyway.
   */
  lemma UnassignUndoesTemporary(cfg: Config, m: Machine, id: ParaId, start: SlotLeasePeriodStart, q: Answers,
                                q': Answers)
    requires ConfigOk(cfg) && Accounted(cfg, m) && m.storage.activeTemporarySlotCount <= cfg.maxPerPeriod
    requires AssignTemporary(cfg, m.storage, m.period, id, start, q).1.Ok? && q'.authorized && q'.leasesCleared
    ensures var m' := Step(cfg, m, TemporaryCall(id, start, q));
            var leased := Covers(m'.storage.temporarySlots[id], m.period);
            Step(cfg, m', UnassignCall(id, q')) == m <==>
            (q'.isParachain <==> leased) || (!leased && m.storage.activeTemporarySlotCount == 0)
  {
  }

  lemma UnassignUndoesPermanent(cfg: Config, m: Machine, id: ParaId, q: Answers, q': Answers)
    requires ConfigOk(cfg) && Accounted(cfg, m)
    requires AssignPermanent(cfg, m.storage, m.period, id, q).1.Ok? && q'.authorized && q'.leasesCleared
    ensures Step(cfg, Step(cfg, m, PermanentCall(id, q)), UnassignCall(id, q')) == m
  {
  }

  /** A slot that never had a turn goes before every slot that had one. */
  lemma NeverLeasedGoesFirst(cfg: Config, m: Machine, x: ParaId, y: ParaId)
    requires Accounted(cfg, m) && x in m.storage.temporarySlots && y in m.storage.temporarySlots
    requires m.storage.temporarySlots[x].lastLease.None? && m.storage.temporarySlots[y].lastLease.Some?
    ensures TurnBefore(x, m.storage.temporarySlots[x], y, m.storage.temporarySlots[y])
  {
  }
}
