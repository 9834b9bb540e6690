/**
 The assigned-slots pallet: what each call does to its storage.

 The leasing system, the registrar and the origin check are outside the pallet; what they answer is a
 parameter. Lease periods are 32-bit unsigned numbers, so the saturating operations are written out.
 */
module AssignedSlots {
  import opened Options
  import opened Numbers

  type AccountId(==, !new)
  type ParaId = nat

  datatype Config = Config(
    permanentLength: nat,
    temporaryLength: nat,
    maxPermanent: nat,
    maxTemporary: nat,
    maxPerPeriod: nat)

  datatype SlotLeasePeriodStart = Current | Next

  datatype TemporarySlot = TemporarySlot(
    manager: AccountId,
    periodBegin: nat,
    periodCount: nat,
    lastLease: Option<nat>,
    leaseCount: nat)

  type Slots = map<ParaId, TemporarySlot>

  datatype Storage = Storage(
    permanentSlots: map<ParaId, (nat, nat)>,
    permanentSlotCount: nat,
    temporarySlots: Slots,
    temporarySlotCount: nat,
    activeTemporarySlotCount: nat)

  datatype Error =
    | BadOrigin
    | ParaDoesntExist
    | NotParathread
    | CannotUpgrade
    | SlotAlreadyAssigned
    | SlotNotAssigned
    | OngoingLeaseExists
    | MaxPermanentSlotsExceeded
    | MaxTemporarySlotsExceeded
    | LeaseNotCleared

  datatype DispatchResult = Ok | Err(error: Error)

  /** What the origin check, the registrar and the leasing system answer during one call. */
  datatype Answers = Answers(
    authorized: bool,
    manager: Option<AccountId>,
    isParathread: bool,
    isParachain: bool,
    alreadyLeased: bool,
    leaseAccepted: bool,
    leasesCleared: bool)

  predicate Assigned(s: Storage, id: ParaId) {
    id in s.permanentSlots || id in s.temporarySlots
  }

  /** The checks that both assignment calls make first, in order. */
  function AssignmentError(s: Storage, id: ParaId, q: Answers): Option<Error> {
    if !q.authorized then Some(BadOrigin)
    else if q.manager.None? then Some(ParaDoesntExist)
    else if !q.isParathread then Some(NotParathread)
    else if Assigned(s, id) then Some(SlotAlreadyAssigned)
    else if q.alreadyLeased then Some(OngoingLeaseExists)
    else None
  }

  function AssignPermanent(cfg: Config, s: Storage, period: nat, id: ParaId, q: Answers): (Storage, DispatchResult) {
    var e := AssignmentError(s, id, q);
    if e.Some? then (s, Err(e.value))
    else if s.permanentSlotCount >= cfg.maxPermanent then (s, Err(MaxPermanentSlotsExceeded))
    else if !q.leaseAccepted then (s, Err(CannotUpgrade))
    else
      (s.(permanentSlots := s.permanentSlots[id := (period, cfg.permanentLength)],
          permanentSlotCount := SatAdd(s.permanentSlotCount, 1)), Ok)
  }

  function AssignTemporary(cfg: Config, s: Storage, period: nat, id: ParaId, start: SlotLeasePeriodStart, q: Answers)
    : (Storage, DispatchResult)
  {
    var e := AssignmentError(s, id, q);
    if e.Some? then (s, Err(e.value))
    else if s.temporarySlotCount >= cfg.maxTemporary then (s, Err(MaxTemporarySlotsExceeded))
    else
      var begin := if start.Current? then period else period + 1;
      var waiting := TemporarySlot(q.manager.value, begin, cfg.temporaryLength, None, 0);
      var leased := start.Current? && s.activeTemporarySlotCount < cfg.maxPerPeriod && q.leaseAccepted;
      var slot := if leased then waiting.(lastLease := Some(begin), leaseCount := 1) else waiting;
      (s.(temporarySlots := s.temporarySlots[id := slot],
          temporarySlotCount := SatAdd(s.temporarySlotCount, 1),
          activeTemporarySlotCount :=
            if leased then SatAdd(s.activeTemporarySlotCount, 1) else s.activeTemporarySlotCount), Ok)
  }

  function Unassign(s: Storage, id: ParaId, q: Answers): (Storage, DispatchResult) {
    if !q.authorized then (s, Err(BadOrigin))
    else if !Assigned(s, id) then (s, Err(SlotNotAssigned))
    else if !q.leasesCleared then (s, Err(LeaseNotCleared))
    else if id in s.permanentSlots then
      (s.(permanentSlots := s.permanentSlots - {id},
          permanentSlotCount := SatSub(s.permanentSlotCount, 1)), Ok)
    else
      (s.(temporarySlots := s.temporarySlots - {id},
          temporarySlotCount := SatSub(s.temporarySlotCount, 1),
          activeTemporarySlotCount :=
            if q.isParachain then SatSub(s.activeTemporarySlotCount, 1) else s.activeTemporarySlotCount), Ok)
  }

  /** The slot's lease is running at the period, by the test the program makes. */
  predicate ActiveAt(slot: TemporarySlot, period: nat) {
    slot.lastLease.Some? && slot.lastLease.value <= period < SatAdd(slot.lastLease.value, slot.periodCount)
  }

  /** The slot competes for a lease at the period. */
  predicate PendingAt(slot: TemporarySlot, period: nat) {
    match slot.lastLease
    case Some(last) => !ActiveAt(slot, period) && SatAdd(last, SatMul(slot.periodCount, 2)) <= period
    case None => slot.periodBegin <= period
  }

  /** Fewer leases first, then the older last lease (none is oldest), then the smaller id. */
  predicate TurnBefore(x: ParaId, sx: TemporarySlot, y: ParaId, sy: TemporarySlot) {
    if sx.leaseCount != sy.leaseCount then sx.leaseCount < sy.leaseCount
    else if sx.lastLease != sy.lastLease then
      sx.lastLease.None? || (sy.lastLease.Some? && sx.lastLease.value < sy.lastLease.value)
    else x < y
  }

  function Active(slots: Slots, period: nat): set<ParaId> {
    set x | x in slots && ActiveAt(slots[x], period)
  }

  function Pending(slots: Slots, period: nat): set<ParaId> {
    set x | x in slots && PendingAt(slots[x], period)
  }

  /** The pending slots whose turn comes before that of `y`. */
  function Ahead(slots: Slots, period: nat, y: ParaId): set<ParaId>
    requires y in slots
  {
    set x | x in Pending(slots, period) && TurnBefore(x, slots[x], y, slots[y])
  }

  function Room(slots: Slots, period: nat, cap: nat): nat {
    SatSub(cap, |Active(slots, period)|)
  }

  /** The slots picked at a period start: those with fewer pending slots ahead of them than there is room. */
  function Chosen(slots: Slots, period: nat, cap: nat): set<ParaId> {
    set y | y in Pending(slots, period) && |Ahead(slots, period, y)| < Room(slots, period, cap)
  }

  /** The picked slots that are leased when the leasing system refuses `refused`: those before the first refusal. */
  function Granted(slots: Slots, period: nat, cap: nat, refused: set<ParaId>): set<ParaId> {
    set y | y in Chosen(slots, period, cap) && y !in refused && Ahead(slots, period, y) !! refused
  }

  function Leased(slot: TemporarySlot, period: nat): TemporarySlot {
    slot.(lastLease := Some(period), leaseCount := slot.leaseCount + 1)
  }

  function LeaseAll(slots: Slots, period: nat, ids: set<ParaId>): Slots {
    map x | x in slots :: if x in ids then Leased(slots[x], period) else slots[x]
  }

  /** A period start. When a lease is refused the call stops there and the active count keeps its old value. */
  function Allocate(cfg: Config, s: Storage, period: nat, refused: set<ParaId>): (Storage, DispatchResult) {
    var slots := s.temporarySlots;
    var chosen := Chosen(slots, period, cfg.maxPerPeriod);
    var s' := s.(temporarySlots := LeaseAll(slots, period, Granted(slots, period, cfg.maxPerPeriod, refused)));
    if chosen !! refused then
      (s'.(activeTemporarySlotCount := |Active(slots, period)| + |chosen|), Ok)
    else (s', Err(CannotUpgrade))
  }
}
