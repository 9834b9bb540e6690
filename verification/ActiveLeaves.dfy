/**
 The overseer's active-leaves machine: what each event does to the leaves, the spans, the waiting
 listeners and the signals broadcast so far, and what holds after every run.
 */
module ActiveLeavesMachine {
  import opened Options
  import opened Hashes
  import opened LruCache
  import opened Sequences
  import opened Signals

  type Listener(==, !new)

  datatype BlockInfo = BlockInfo(hash: Hash, parentHash: Hash, number: nat)

  datatype LeafState = LeafState(
    active: map<Hash, nat>,
    spans: set<Hash>,
    known: seq<Hash>,
    waiting: map<Hash, seq<Listener>>,
    answered: seq<(Hash, Listener)>,
    sent: seq<Signal>)

  const INITIAL := LeafState(map[], {}, [], map[], [], [])

  /** Two days of blocks, one every six seconds. */
  const KNOWN_LEAVES_CACHE_SIZE: nat := 2 * 24 * 3600 / 6

  /** The order in which a finalisation drops leaves is the map's own; it comes with the event. */
  datatype Event =
    | StartLeaf(hash: Hash, number: nat)
    | BlockImported(block: BlockInfo, canceled: set<Listener>)
    | BlockFinalization(block: BlockInfo, order: seq<Hash>)
    | WaitForActivation(hash: Hash, listener: Listener)

  function StatusOf(known: seq<Hash>, h: Hash): LeafStatus {
    if h in known then Stale else Fresh
  }

  function Learn(known: seq<Hash>, h: Hash): seq<Hash> {
    Put(KNOWN_LEAVES_CACHE_SIZE, known, h)
  }

  /** A supported head becomes active: its listeners are answered, it gets a span, it is the leaf known best. */
  function Activate(s: LeafState, h: Hash): LeafState {
    s.(spans := s.spans + {h},
       known := Learn(s.known, h),
       waiting := s.waiting - {h},
       answered := s.answered + (if h in s.waiting then Label(h, s.waiting[h]) else []))
  }

  function Deactivate(s: LeafState, hs: set<Hash>): LeafState {
    s.(spans := s.spans - hs, waiting := s.waiting - hs)
  }

  function Broadcast(s: LeafState, signal: Signal): LeafState {
    s.(sent := s.sent + [signal])
  }

  function Keep(ls: seq<Listener>, canceled: set<Listener>): seq<Listener> {
    if ls == [] then [] else (if ls[0] in canceled then [] else [ls[0]]) + Keep(ls[1..], canceled)
  }

  function CleanUp(s: LeafState, canceled: set<Listener>): LeafState {
    s.(waiting := map h | h in s.waiting && Keep(s.waiting[h], canceled) != [] :: Keep(s.waiting[h], canceled))
  }

  function StartLeafStep(supports: Hash -> bool, s: LeafState, h: Hash, number: nat): LeafState {
    var s1 := s.(active := s.active[h := number]);
    if supports(h) then
      Broadcast(Activate(s1, h),
                ActiveLeaves(ActiveLeavesUpdate(Some(ActivatedLeaf(h, number, StatusOf(s.known, h))), [])))
    else s1
  }

  /** The delta that an import of a new leaf announces. */
  function ImportUpdate(supports: Hash -> bool, s: LeafState, block: BlockInfo): ActiveLeavesUpdate {
    ActiveLeavesUpdate(
      if supports(block.hash) then Some(ActivatedLeaf(block.hash, block.number, StatusOf(s.known, block.hash)))
      else None,
      if block.parentHash in s.active[block.hash := block.number] then [block.parentHash] else [])
  }

  function ImportStep(supports: Hash -> bool, s: LeafState, block: BlockInfo, canceled: set<Listener>): LeafState {
    if block.hash in s.active then s
    else
      var s1 := s.(active := s.active[block.hash := block.number]);
      var s2 := if supports(block.hash) then Activate(s1, block.hash) else s1;
      var s3 :=
        if block.parentHash in s2.active
        then Deactivate(s2.(active := s2.active - {block.parentHash}), {block.parentHash})
        else s2;
      var s4 := CleanUp(s3, canceled);
      var update := ImportUpdate(supports, s, block);
      if update.activated.None? && update.deactivated == [] then s4 else Broadcast(s4, ActiveLeaves(update))
  }

  /** The leaves that a finalised block makes obsolete: no higher than it, and not itself. */
  function Orphaned(s: LeafState, block: BlockInfo): set<Hash> {
    set h | h in s.active && s.active[h] <= block.number && h != block.hash
  }

  function FinalizeStep(s: LeafState, block: BlockInfo, order: seq<Hash>): LeafState {
    var s1 := Deactivate(s.(active := s.active - Elements(order)), Elements(order));
    var s2 := Broadcast(s1, BlockFinalized(block.hash, block.number));
    if order == [] then s2 else Broadcast(s2, ActiveLeaves(ActiveLeavesUpdate(None, order)))
  }

  function WaitStep(s: LeafState, h: Hash, listener: Listener): LeafState {
    if h in s.known then s.(answered := s.answered + [(h, listener)])
    else s.(waiting := s.waiting[h := (if h in s.waiting then s.waiting[h] else []) + [listener]])
  }

  /** The order lists exactly the orphaned leaves. */
  predicate Possible(s: LeafState, e: Event) {
    e.BlockFinalization? ==>
      && Elements(e.order) == Orphaned(s, e.block)
      && forall i, j :: 0 <= i < j < |e.order| ==> e.order[i] != e.order[j]
  }

  function Step(supports: Hash -> bool, s: LeafState, e: Event): LeafState {
    match e
    case StartLeaf(h, number) => StartLeafStep(supports, s, h, number)
    case BlockImported(block, canceled) => ImportStep(supports, s, block, canceled)
    case BlockFinalization(block, order) => FinalizeStep(s, block, order)
    case WaitForActivation(h, listener) => WaitStep(s, h, listener)
  }

  function Run(supports: Hash -> bool, s: LeafState, events: seq<Event>): LeafState
    decreases |events|
  {
    if events == [] then s else Run(supports, Step(supports, s, events[0]), events[1..])
  }

  predicate AllPossible(supports: Hash -> bool, s: LeafState, events: seq<Event>)
    decreases |events|
  {
    events == [] || (Possible(s, events[0]) && AllPossible(supports, Step(supports, s, events[0]), events[1..]))
  }

  // ---- what holds after every event

  function Supported(supports: Hash -> bool, active: map<Hash, nat>): set<Hash> {
    set h | h in active && supports(h)
  }

  /** The signals replay to the supported active leaves, which are exactly the leaves with a span. */
  ghost predicate ReplayAgrees(supports: Hash -> bool, s: LeafState) {
    Replay(s.sent) == Supported(supports, s.active) == s.spans
  }

  /** The leaves that are known after the signals. */
  function KnownAfter(signals: seq<Signal>): seq<Hash> {
    Cached(KNOWN_LEAVES_CACHE_SIZE, Activations(signals))
  }

  /** The leaves announced last are known, and every status was taken from what was known at the time. */
  ghost predicate StatusAgrees(s: LeafState) {
    && s.known == KnownAfter(s.sent)
    && StatusesFromCache(KNOWN_LEAVES_CACHE_SIZE, s.sent)
  }

  /** Nobody waits for a known leaf, and nobody was answered for a leaf that was not announced. */
  ghost predicate ListenersAgree(s: LeafState) {
    && s.waiting.Keys !! Elements(s.known)
    && forall p :: p in s.answered ==> p.0 in Elements(Activations(s.sent))
  }

  ghost predicate Agreement(supports: Hash -> bool, s: LeafState) {
    ReplayAgrees(supports, s) && StatusAgrees(s) && ListenersAgree(s)
  }

  lemma BroadcastLeaves(s: LeafState, u: ActiveLeavesUpdate)
    requires StatusesFromCache(KNOWN_LEAVES_CACHE_SIZE, s.sent)
    requires u.activated.Some? ==> u.activated.value.status == StatusOf(KnownAfter(s.sent), u.activated.value.hash)
    ensures var s' := Broadcast(s, ActiveLeaves(u));
            && Replay(s'.sent) == ApplyDelta(Replay(s.sent), ActiveLeaves(u))
            && Elements(Activations(s'.sent)) == Elements(Activations(s.sent)) + ActivatedBy(ActiveLeaves(u))
            && KnownAfter(s'.sent) ==
               (if u.activated.Some? then Learn(KnownAfter(s.sent), u.activated.value.hash) else KnownAfter(s.sent))
            && StatusesFromCache(KNOWN_LEAVES_CACHE_SIZE, s'.sent)
  {
    ActivationsSnoc(s.sent, ActiveLeaves(u));
    StatusesSnoc(KNOWN_LEAVES_CACHE_SIZE, s.sent, ActiveLeaves(u));
    if u.activated.Some? {
      CachedSnoc(KNOWN_LEAVES_CACHE_SIZE, Activations(s.sent), u.activated.value.hash);
    }
  }

  /** What the activation of a supported leaf at start-up changes, item by item. */
  lemma StartLeafShape(supports: Hash -> bool, s: LeafState, h: Hash, number: nat)
    requires supports(h)
    ensures var s' := StartLeafStep(supports, s, h, number);
            var update := ActiveLeavesUpdate(Some(ActivatedLeaf(h, number, StatusOf(s.known, h))), []);
            && Supported(supports, s'.active) == Supported(supports, s.active) + {h}
            && s'.spans == s.spans + {h}
            && s'.known == Learn(s.known, h)
            && s'.waiting.Keys == s.waiting.Keys - {h}
            && (forall p :: p in s'.answered ==> p in s.answered || p.0 == h)
            && s'.sent == Broadcast(s, ActiveLeaves(update)).sent
  {
  }

  lemma StartLeafKeeps(supports: Hash -> bool, s: LeafState, h: Hash, number: nat)
    requires Agreement(supports, s)
    ensures Agreement(supports, StartLeafStep(supports, s, h, number))
  {
    if supports(h) {
      var update := ActiveLeavesUpdate(Some(ActivatedLeaf(h, number, StatusOf(s.known, h))), []);
      StartLeafShape(supports, s, h, number);
      BroadcastLeaves(s, update);
      assert Elements(update.deactivated) == {};
    }
  }

  /** The delta of an import takes the supported leaves before it to those after it. */
  lemma ImportDelta(supports: Hash -> bool, s: LeafState, block: BlockInfo)
    requires block.hash !in s.active
    ensures ApplyDelta(Supported(supports, s.active), ActiveLeaves(ImportUpdate(supports, s, block))) ==
            Supported(supports, s.active[block.hash := block.number] - {block.parentHash})
  {
  }

  /** What an import of a new leaf changes, item by item. */
  lemma ImportShape(supports: Hash -> bool, s: LeafState, block: BlockInfo, canceled: set<Listener>)
    requires block.hash !in s.active
    ensures var s' := ImportStep(supports, s, block, canceled);
            var update := ImportUpdate(supports, s, block);
            var gained := if supports(block.hash) then {block.hash} else {};
            && s'.active == s.active[block.hash := block.number] - {block.parentHash}
            && s'.spans == s.spans + gained - Elements(update.deactivated)
            && s'.known == (if supports(block.hash) then Learn(s.known, block.hash) else s.known)
            && s'.waiting.Keys <= s.waiting.Keys - gained
            && (forall p :: p in s'.answered ==> p in s.answered || p.0 in gained)
            && s'.sent == if update == ActiveLeavesUpdate(None, []) then s.sent
                          else Broadcast(s, ActiveLeaves(update)).sent
  {
  }

  lemma ImportKeeps(supports: Hash -> bool, s: LeafState, block: BlockInfo, canceled: set<Listener>)
    requires Agreement(supports, s)
    ensures Agreement(supports, ImportStep(supports, s, block, canceled))
  {
    if block.hash !in s.active {
      var update := ImportUpdate(supports, s, block);
      ImportShape(supports, s, block, canceled);
      ImportDelta(supports, s, block);
      BroadcastLeaves(s, update);
    }
  }

  lemma BroadcastFinalized(s: LeafState, final: Signal)
    requires final.BlockFinalized? && StatusesFromCache(KNOWN_LEAVES_CACHE_SIZE, s.sent)
    ensures var s' := Broadcast(s, final);
            && Replay(s'.sent) == Replay(s.sent) && Activations(s'.sent) == Activations(s.sent)
            && StatusesFromCache(KNOWN_LEAVES_CACHE_SIZE, s'.sent)
  {
    ActivationsSnoc(s.sent, final);
    StatusesSnoc(KNOWN_LEAVES_CACHE_SIZE, s.sent, final);
    assert (s.sent + [final])[..|s.sent|] == s.sent;
  }

  /** A finalization announces the deactivated leaves and activates none. */
  lemma FinalizeSignals(s: LeafState, block: BlockInfo, order: seq<Hash>)
    requires StatusesFromCache(KNOWN_LEAVES_CACHE_SIZE, s.sent)
    ensures var s' := FinalizeStep(s, block, order);
            && Replay(s'.sent) == Replay(s.sent) - Elements(order)
            && Elements(Activations(s'.sent)) == Elements(Activations(s.sent))
            && KnownAfter(s'.sent) == KnownAfter(s.sent)
            && StatusesFromCache(KNOWN_LEAVES_CACHE_SIZE, s'.sent)
  {
    var final := BlockFinalized(block.hash, block.number);
    BroadcastFinalized(s, final);
    if order == [] {
      assert Elements(order) == {};
    } else {
      BroadcastLeaves(Broadcast(s, final), ActiveLeavesUpdate(None, order));
    }
  }

  lemma FinalizeKeeps(supports: Hash -> bool, s: LeafState, block: BlockInfo, order: seq<Hash>)
    requires Agreement(supports, s) && Possible(s, BlockFinalization(block, order))
    ensures Agreement(supports, FinalizeStep(s, block, order))
  {
    FinalizeSignals(s, block, order);
  }

  /** Every event keeps the agreement between the leaves, the spans, the listeners and the signals. */
  lemma StepKeepsAgreement(supports: Hash -> bool, s: LeafState, e: Event)
    requires Agreement(supports, s) && Possible(s, e)
    ensures Agreement(supports, Step(supports, s, e))
  {
    match e
    case StartLeaf(h, number) => StartLeafKeeps(supports, s, h, number);
    case BlockImported(block, canceled) => ImportKeeps(supports, s, block, canceled);
    case BlockFinalization(block, order) => FinalizeKeeps(supports, s, block, order);
    case WaitForActivation(h, listener) => CachedExactly(KNOWN_LEAVES_CACHE_SIZE, Activations(s.sent));
  }

  /** After any run, folding all broadcast deltas gives exactly the supported active leaves. */
  lemma {:induction false} RunKeepsAgreement(supports: Hash -> bool, s: LeafState, events: seq<Event>)
    requires Agreement(supports, s) && AllPossible(supports, s, events)
    ensures Agreement(supports, Run(supports, s, events))
    decreases |events|
  {
    if events == [] {
    } else {
      StepKeepsAgreement(supports, s, events[0]);
      RunKeepsAgreement(supports, Step(supports, s, events[0]), events[1..]);
    }
  }

  /**
   In every run, a leaf announced as stale was announced before, and fresh means announced for the first time if and
   only if the leaf has not been evicted: fewer others than the cache holds were announced since.
   */
  lemma FreshnessInRun(supports: Hash -> bool, run: seq<Event>, i: nat)
    requires AllPossible(supports, INITIAL, run) && i < |Run(supports, INITIAL, run).sent|
    requires var signal := Run(supports, INITIAL, run).sent[i];
             signal.ActiveLeaves? && signal.update.activated.Some?
    ensures var sent := Run(supports, INITIAL, run).sent;
            var leaf := sent[i].update.activated.value;
            var earlier := Activations(sent[..i]);
            && (leaf.status.Stale? ==> leaf.hash in earlier)
            && ((leaf.status.Fresh? <==> leaf.hash !in earlier) <==>
                !Evicted(KNOWN_LEAVES_CACHE_SIZE, earlier, leaf.hash))
  {
    RunKeepsAgreement(supports, INITIAL, run);
    FreshMeansFirstExactly(KNOWN_LEAVES_CACHE_SIZE, Run(supports, INITIAL, run).sent, i);
  }

  predicate Waits(s: LeafState, h: Hash, l: Listener) {
    h in s.waiting && l in s.waiting[h]
  }

  /**
   In every reachable state, whoever asks for a leaf is answered at once exactly if it was announced and not evicted
   since; and whoever still waits waits for a leaf that was not announced, or evicted.
   */
  lemma AnsweredAtOnceExactly(supports: Hash -> bool, s: LeafState, h: Hash, listener: Listener)
    requires Agreement(supports, s)
    ensures var announced := h in Activations(s.sent) && !Evicted(KNOWN_LEAVES_CACHE_SIZE, Activations(s.sent), h);
            && (h in s.waiting ==> !announced)
            && (announced <==> WaitStep(s, h, listener).answered == s.answered + [(h, listener)])
            && (!announced <==> Waits(WaitStep(s, h, listener), h, listener))
            && (announced ==> WaitStep(s, h, listener).waiting == s.waiting)
  {
    CachedExactly(KNOWN_LEAVES_CACHE_SIZE, Activations(s.sent));
    assert h !in s.known ==> Waits(WaitStep(s, h, listener), h, listener) by {
      var ls := if h in s.waiting then s.waiting[h] else [];
      assert (ls + [listener])[|ls|] == listener;
    }
  }

  /** Finalising a block keeps exactly the leaves above it, and the block itself if it is a leaf. */
  lemma FinalizeKeepsHigherLeaves(s: LeafState, block: BlockInfo, order: seq<Hash>, h: Hash)
    requires Possible(s, BlockFinalization(block, order))
    ensures var s' := FinalizeStep(s, block, order);
            && (h in s'.active <==> h in s.active && (s.active[h] > block.number || h == block.hash))
            && (h in s'.active ==> s'.active[h] == s.active[h])
  {
  }

  /** Importing a supported new leaf answers everybody who waits for it, and announces it. */
  lemma ImportAnswersAndAnnounces(supports: Hash -> bool, s: LeafState, block: BlockInfo, canceled: set<Listener>,
                                  l: Listener)
    requires block.hash !in s.active && supports(block.hash)
    ensures var s' := ImportStep(supports, s, block, canceled);
            && (Waits(s, block.hash, l) ==> (block.hash, l) in s'.answered)
            && |s'.answered| == |s.answered| + (if block.hash in s.waiting then |s.waiting[block.hash]| else 0)
            && |s'.sent| == |s.sent| + 1
            && block.hash in ActivatedBy(s'.sent[|s.sent|])
  {
    if block.hash in s.waiting && l in s.waiting[block.hash] {
      LabelHasAll(block.hash, s.waiting[block.hash], l);
    }
  }

  // ---- what is sent

  /** An import sends one delta, of the new leaf if it is supported and its parent if that was active, or nothing. */
  lemma ImportSends(supports: Hash -> bool, s: LeafState, block: BlockInfo, canceled: set<Listener>)
    requires block.hash !in s.active && block.hash != block.parentHash
    ensures var status := if block.hash in s.known then Stale else Fresh;
            var activated :=
              if supports(block.hash) then Some(ActivatedLeaf(block.hash, block.number, status)) else None;
            var deactivated := if block.parentHash in s.active then [block.parentHash] else [];
            ImportStep(supports, s, block, canceled).sent ==
            s.sent + if activated.None? && deactivated == [] then []
                     else [ActiveLeaves(ActiveLeavesUpdate(activated, deactivated))]
  {
  }

  /** The import of a leaf that is already active changes nothing. */
  lemma ImportOfActiveIsIdle(supports: Hash -> bool, s: LeafState, block: BlockInfo, canceled: set<Listener>)
    requires block.hash in s.active
    ensures ImportStep(supports, s, block, canceled) == s
  {
  }

  /** Start-up announces each supported leaf and notes every one with its number. */
  lemma StartLeafSends(supports: Hash -> bool, s: LeafState, h: Hash, number: nat)
    ensures var s' := StartLeafStep(supports, s, h, number);
            && s'.active == s.active[h := number]
            && s'.sent == s.sent +
                 if supports(h)
                 then [ActiveLeaves(ActiveLeavesUpdate(
                         Some(ActivatedLeaf(h, number, if h in s.known then Stale else Fresh)), []))]
                 else []
  {
  }

  /** A finalisation is sent first, then one delta exactly if leaves were dropped. */
  lemma FinalizeSends(s: LeafState, block: BlockInfo, order: seq<Hash>)
    ensures FinalizeStep(s, block, order).sent ==
            s.sent + [BlockFinalized(block.hash, block.number)] +
            if order == [] then [] else [ActiveLeaves(ActiveLeavesUpdate(None, order))]
  {
    var sent := s.sent + [BlockFinalized(block.hash, block.number)];
    assert sent + [] == sent;
  }

  /** The finalisations among the signals. */
  function FinalitySignals(signals: seq<Signal>): seq<(Hash, nat)> {
    if signals == [] then []
    else
      var last := signals[|signals| - 1];
      FinalitySignals(signals[..|signals| - 1]) + if last.BlockFinalized? then [(last.hash, last.number)] else []
  }

  function FinalizedBy(e: Event): seq<(Hash, nat)> {
    if e.BlockFinalization? then [(e.block.hash, e.block.number)] else []
  }

  /** The finalisations among the events. */
  function Finalizations(events: seq<Event>): seq<(Hash, nat)> {
    if events == [] then [] else FinalizedBy(events[0]) + Finalizations(events[1..])
  }

  lemma FinalizationsAfter(before: seq<(Hash, nat)>, events: seq<Event>)
    ensures events == [] ==> before + Finalizations(events) == before
    ensures events != [] ==>
              before + Finalizations(events) == before + FinalizedBy(events[0]) + Finalizations(events[1..])
  {
  }

  lemma {:induction false} FinalitySignalsConcat(signals: seq<Signal>, more: seq<Signal>)
    ensures FinalitySignals(signals + more) == FinalitySignals(signals) + FinalitySignals(more)
  {
    if more == [] {
      assert signals + more == signals;
    } else {
      var n := |more| - 1;
      assert (signals + more)[..|signals + more| - 1] == signals + more[..n];
      FinalitySignalsConcat(signals, more[..n]);
    }
  }

  /** What a step sends, and that only a finalisation sends of finality. */
  lemma StepSends(supports: Hash -> bool, s: LeafState, e: Event) returns (news: seq<Signal>)
    ensures Step(supports, s, e).sent == s.sent + news
    ensures FinalitySignals(news) == FinalizedBy(e)
  {
    match e {
      case StartLeaf(h, number) =>
        news := if supports(h)
                then [ActiveLeaves(ActiveLeavesUpdate(Some(ActivatedLeaf(h, number, StatusOf(s.known, h))), []))]
                else [];
      case BlockImported(block, canceled) =>
        var update := ImportUpdate(supports, s, block);
        news := if block.hash in s.active || update == ActiveLeavesUpdate(None, []) then [] else [ActiveLeaves(update)];
      case BlockFinalization(block, order) =>
        var final := [BlockFinalized(block.hash, block.number)];
        var dropped := if order == [] then [] else [ActiveLeaves(ActiveLeavesUpdate(None, order))];
        FinalizeSends(s, block, order);
        FinalitySignalsConcat(final, dropped);
        news := final + dropped;
        assert s.sent + news == s.sent + final + dropped;
      case WaitForActivation(_, _) =>
        news := [];
    }
  }

  lemma StepSendsFinality(supports: Hash -> bool, s: LeafState, e: Event)
    ensures FinalitySignals(Step(supports, s, e).sent) == FinalitySignals(s.sent) + FinalizedBy(e)
  {
    var news := StepSends(supports, s, e);
    FinalitySignalsConcat(s.sent, news);
  }

  /** Over every run, each finalisation is broadcast once, in order. */
  lemma {:induction false} RunSendsFinality(supports: Hash -> bool, s: LeafState, events: seq<Event>)
    ensures FinalitySignals(Run(supports, s, events).sent) == FinalitySignals(s.sent) + Finalizations(events)
    decreases |events|
  {
    FinalizationsAfter(FinalitySignals(s.sent), events);
    if events == [] {
    } else {
      StepSendsFinality(supports, s, events[0]);
      RunSendsFinality(supports, Step(supports, s, events[0]), events[1..]);
    }
  }

  // ---- what becomes of those who wait

  /** The event takes the leaf out of the active ones. */
  predicate DeactivatesLeaf(supports: Hash -> bool, s: LeafState, e: Event, h: Hash) {
    match e
    case BlockImported(block, _) => block.hash !in s.active && h in ImportUpdate(supports, s, block).deactivated
    case BlockFinalization(_, order) => h in order
    case _ => false
  }

  lemma {:induction false} KeepExactly(ls: seq<Listener>, canceled: set<Listener>, l: Listener)
    ensures l in Keep(ls, canceled) <==> l in ls && l !in canceled
  {
    if ls == [] {
    } else {
      KeepExactly(ls[1..], canceled, l);
    }
  }

  /** A clean-up drops exactly those who have given up. */
  lemma CleanUpDropsCanceled(s: LeafState, canceled: set<Listener>, h: Hash, l: Listener)
    ensures Waits(CleanUp(s, canceled), h, l) <==> Waits(s, h, l) && l !in canceled
  {
    if h in s.waiting {
      KeepExactly(s.waiting[h], canceled, l);
    }
  }

  lemma LabelHasAll(h: Hash, ls: seq<Listener>, l: Listener)
    requires l in ls
    ensures (h, l) in Label(h, ls)
  {
    var i :| 0 <= i < |ls| && ls[i] == l;
    assert Label(h, ls)[i] == (h, l);
  }

  /** After a step a listener still waits, or was answered, or has given up, or its leaf was deactivated. */
  lemma WaitsOrIsDone(supports: Hash -> bool, s: LeafState, e: Event, h: Hash, l: Listener)
    requires Possible(s, e) && Waits(s, h, l)
    ensures var s' := Step(supports, s, e);
            || Waits(s', h, l) || (h, l) in s'.answered
            || (e.BlockImported? && l in e.canceled)
            || (DeactivatesLeaf(supports, s, e, h) && (!supports(h) || h in s.active))
  {
    LabelHasAll(h, s.waiting[h], l);
    if e.BlockImported? && e.block.hash !in s.active {
      var s1 := s.(active := s.active[e.block.hash := e.block.number]);
      var s2 := if supports(e.block.hash) then Activate(s1, e.block.hash) else s1;
      var s3 :=
        if e.block.parentHash in s2.active
        then Deactivate(s2.(active := s2.active - {e.block.parentHash}), {e.block.parentHash})
        else s2;
      CleanUpDropsCanceled(s3, e.canceled, h, l);
    }
  }

  /** Deactivating a leaf drops whoever waits for it, and answers nobody. */
  lemma DeactivationDropsListeners(supports: Hash -> bool, s: LeafState, e: Event, h: Hash)
    requires DeactivatesLeaf(supports, s, e, h)
    ensures h !in Step(supports, s, e).waiting
    ensures e.BlockFinalization? ==> Step(supports, s, e).answered == s.answered
  {
  }

  /** Somebody waits for a supported active leaf only if it was evicted. */
  lemma WaitedForThoughActive(supports: Hash -> bool, s: LeafState, h: Hash)
    requires Agreement(supports, s) && h in s.waiting && supports(h) && h in s.active
    ensures Evicted(KNOWN_LEAVES_CACHE_SIZE, Activations(s.sent), h)
  {
    assert h in Replay(s.sent) && h !in Elements(s.known);
    ReplayedWasActivated(s.sent);
    CachedExactly(KNOWN_LEAVES_CACHE_SIZE, Activations(s.sent));
  }

  /**
   Nobody is forgotten without reason: in every reachable state, whoever waits still waits after the next event, or
   is answered, or has given up, or its leaf is deactivated; and that drops a listener unanswered only if the leaf was
   never announced for want of support, or was evicted since.
   */
  lemma ListenersAreNotForgotten(supports: Hash -> bool, s: LeafState, e: Event, h: Hash, l: Listener)
    requires Agreement(supports, s) && Possible(s, e) && Waits(s, h, l)
    ensures var s' := Step(supports, s, e);
            || Waits(s', h, l) || (h, l) in s'.answered
            || (e.BlockImported? && l in e.canceled)
            || (DeactivatesLeaf(supports, s, e, h) &&
                (!supports(h) || Evicted(KNOWN_LEAVES_CACHE_SIZE, Activations(s.sent), h)))
  {
    WaitsOrIsDone(supports, s, e, h, l);
    if supports(h) && h in s.active {
      WaitedForThoughActive(supports, s, h);
    }
  }

  // ---- a leaf that is fresh twice

  lemma {:induction false} RunSnoc(supports: Hash -> bool, s: LeafState, events: seq<Event>, e: Event)
    ensures Run(supports, s, events + [e]) == Step(supports, Run(supports, s, events), e)
    ensures AllPossible(supports, s, events + [e]) <==>
            AllPossible(supports, s, events) && Possible(Run(supports, s, events), e)
    decreases |events|
  {
    if events == [] {
      assert events + [e] == [e];
    } else {
      assert (events + [e])[1..] == events[1..] + [e];
      RunSnoc(supports, Step(supports, s, events[0]), events[1..], e);
    }
  }

  /** The import of the last block, on top of the one before it. */
  function ImportOfLast(hashes: seq<Hash>, genesis: Hash): Event
    requires hashes != []
  {
    var n := |hashes| - 1;
    BlockImported(BlockInfo(hashes[n], if n == 0 then genesis else hashes[n - 1], n + 1), {})
  }

  /** Blocks imported one on top of the other. */
  function Chain(hashes: seq<Hash>, genesis: Hash): seq<Event> {
    if hashes == [] then [] else Chain(hashes[..|hashes| - 1], genesis) + [ImportOfLast(hashes, genesis)]
  }

  /** What the import of a new supported block on top of the only active one does. */
  lemma ImportOnTop(supports: Hash -> bool, s: LeafState, block: BlockInfo)
    requires supports(block.hash) && block.hash !in s.active && block.hash != block.parentHash
    requires s.active.Keys <= {block.parentHash}
    ensures var s' := ImportStep(supports, s, block, {});
            var leaf := ActivatedLeaf(block.hash, block.number, StatusOf(s.known, block.hash));
            && s'.active.Keys == {block.hash}
            && |s'.sent| == |s.sent| + 1 && s'.sent[..|s.sent|] == s.sent
            && s'.sent[|s.sent|].ActiveLeaves? && s'.sent[|s.sent|].update.activated == Some(leaf)
            && Activations(s'.sent) == Activations(s.sent) + [block.hash]
  {
    ActivationsSnoc(s.sent, ActiveLeaves(ImportUpdate(supports, s, block)));
  }

  /** The i-th signal announces the leaf as fresh. */
  predicate AnnouncesFresh(signals: seq<Signal>, i: nat, h: Hash) {
    && i < |signals| && signals[i].ActiveLeaves? && signals[i].update.activated.Some?
    && signals[i].update.activated.value.hash == h && signals[i].update.activated.value.status.Fresh?
  }

  /** Only the last block is active, each has been announced in turn, the first as fresh. */
  ghost predicate AnnouncedInTurn(s: LeafState, hashes: seq<Hash>) {
    && |s.sent| == |hashes| && Activations(s.sent) == hashes
    && if hashes == [] then s.active == map[] && s.known == []
       else s.active.Keys == {hashes[|hashes| - 1]} && AnnouncesFresh(s.sent, 0, hashes[0])
  }

  lemma AnnounceNext(supports: Hash -> bool, s: LeafState, hashes: seq<Hash>, genesis: Hash)
    requires hashes != [] && AnnouncedInTurn(s, hashes[..|hashes| - 1]) && supports(hashes[|hashes| - 1])
    requires Distinct(hashes) && genesis !in hashes
    ensures AnnouncedInTurn(Step(supports, s, ImportOfLast(hashes, genesis)), hashes)
  {
    var n := |hashes| - 1;
    ImportOnTop(supports, s, ImportOfLast(hashes, genesis).block);
    assert hashes == hashes[..n] + [hashes[n]];
  }

  lemma {:induction false} ChainAnnounces(supports: Hash -> bool, hashes: seq<Hash>, genesis: Hash)
    requires Distinct(hashes) && genesis !in hashes && forall h :: h in hashes ==> supports(h)
    ensures AllPossible(supports, INITIAL, Chain(hashes, genesis))
    ensures AnnouncedInTurn(Run(supports, INITIAL, Chain(hashes, genesis)), hashes)
  {
    if hashes == [] {
    } else {
      var n := |hashes| - 1;
      ChainAnnounces(supports, hashes[..n], genesis);
      RunSnoc(supports, INITIAL, Chain(hashes[..n], genesis), ImportOfLast(hashes, genesis));
      AnnounceNext(supports, Run(supports, INITIAL, Chain(hashes[..n], genesis)), hashes, genesis);
    }
  }

  lemma AnnounceFirst(supports: Hash -> bool, s: LeafState, hashes: seq<Hash>, genesis: Hash)
    requires |hashes| >= 2 && hashes[|hashes| - 1] != hashes[0] && supports(hashes[0])
    requires AnnouncedInTurn(s, hashes) && hashes[0] !in s.known
    ensures var s' := Step(supports, s, ImportOfLast(hashes + [hashes[0]], genesis));
            AnnouncesFresh(s'.sent, 0, hashes[0]) && AnnouncesFresh(s'.sent, |hashes|, hashes[0])
  {
    var s' := Step(supports, s, ImportOfLast(hashes + [hashes[0]], genesis));
    ImportOnTop(supports, s, ImportOfLast(hashes + [hashes[0]], genesis).block);
    assert s'.sent[0] == s'.sent[..|s.sent|][0];
  }

  /** After a chain of different blocks that made the cache forget the first, the first is announced as fresh again. */
  lemma FirstAgain(supports: Hash -> bool, hashes: seq<Hash>, genesis: Hash)
    requires |hashes| >= 2 && Distinct(hashes) && genesis !in hashes && forall h :: h in hashes ==> supports(h)
    requires hashes[0] !in Cached(KNOWN_LEAVES_CACHE_SIZE, hashes)
    ensures var run := Chain(hashes + [hashes[0]], genesis);
            && AllPossible(supports, INITIAL, run)
            && AnnouncesFresh(Run(supports, INITIAL, run).sent, 0, hashes[0])
            && AnnouncesFresh(Run(supports, INITIAL, run).sent, |hashes|, hashes[0])
  {
    var all := hashes + [hashes[0]];
    assert all[..|hashes|] == hashes;
    ChainAnnounces(supports, hashes, genesis);
    RunKeepsAgreement(supports, INITIAL, Chain(hashes, genesis));
    RunSnoc(supports, INITIAL, Chain(hashes, genesis), ImportOfLast(all, genesis));
    AnnounceFirst(supports, Run(supports, INITIAL, Chain(hashes, genesis)), hashes, genesis);
  }

  /**
   A leaf, then as many different ones as the cache holds, each on top of the one before, then the leaf again: it is
   announced as fresh both times.
   */
  lemma FreshTwiceExample(supports: Hash -> bool, h: Hash, others: seq<Hash>, genesis: Hash)
    requires Distinct(others) && |others| == 28800 && h !in others
    requires genesis != h && genesis !in others && supports(h) && forall x :: x in others ==> supports(x)
    ensures var run := Chain([h] + others + [h], genesis);
            && AllPossible(supports, INITIAL, run)
            && AnnouncesFresh(Run(supports, INITIAL, run).sent, 0, h)
            && AnnouncesFresh(Run(supports, INITIAL, run).sent, 28801, h)
  {
    ForgottenAfterOthers(KNOWN_LEAVES_CACHE_SIZE, h, others);
    FirstAgain(supports, [h] + others, genesis);
  }
}
