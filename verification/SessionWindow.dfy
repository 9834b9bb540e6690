/** The rolling session window: a cache of consecutive sessions that follows the imported blocks. */
module SessionWindow {
  import opened Options
  import opened Numbers

  type SessionInfo(==, !new)
  type SessionIndex = nat

  datatype RuntimeReply = Info(info: SessionInfo) | Missing | ApiError | ApiUnavailable

  datatype Failure =
    | IndexUnavailable
    | SessionsUnavailable(windowStart: SessionIndex, windowEnd: SessionIndex, at: SessionIndex)

  datatype WindowUpdate =
    | Advanced(prevStart: SessionIndex, prevEnd: SessionIndex, newStart: SessionIndex, newEnd: SessionIndex)
    | Unchanged

  datatype UpdateResult = Ok(update: WindowUpdate) | Err(failure: Failure)

  /** The contents of a window: the sessions from `earliest` on. */
  datatype Window = Window(earliest: SessionIndex, infos: seq<SessionInfo>, size: nat) {
    function Latest(): SessionIndex {
      earliest + SatSub(|infos|, 1)
    }

    function Lookup(index: SessionIndex): Option<SessionInfo> {
      if index < earliest || index - earliest >= |infos| then None else Some(infos[index - earliest])
    }

    /** Lookup gives the runtime's info on the covered sessions and nothing elsewhere. */
    ghost predicate Agrees(runtime: SessionIndex -> SessionInfo) {
      forall i: SessionIndex {:trigger Lookup(i)} ::
        Lookup(i) == if earliest <= i <= Latest() then Some(runtime(i)) else None
    }
  }

  /** The runtime's answers for one block: honest where they give an info, but any of them may fail. */
  ghost predicate Honest(runtime: SessionIndex -> SessionInfo, replies: SessionIndex -> RuntimeReply) {
    forall i: SessionIndex :: replies(i).Info? ==> replies(i).info == runtime(i)
  }

  /** Where a window that ends in the session starts. */
  function WindowStart(size: nat, session: SessionIndex): SessionIndex {
    SatSub(session, SatSub(size, 1))
  }

  function FreshStart(w: Window, session: SessionIndex): SessionIndex {
    if w.Latest() < WindowStart(w.size, session) then WindowStart(w.size, session) else w.Latest() + 1
  }

  /** The window once the sessions from `FreshStart` to `session` have been fetched. */
  function Advance(w: Window, session: SessionIndex, fetched: seq<SessionInfo>): Window {
    var overlap := SatSub(WindowStart(w.size, session), w.earliest);
    var outdated := if overlap < |w.infos| then overlap else |w.infos|;
    Window(
      if WindowStart(w.size, session) < w.earliest then w.earliest else WindowStart(w.size, session),
      w.infos[outdated..] + fetched,
      w.size)
  }

  /** The infos of the sessions from `lo` up to but not including `hi`. */
  function Infos(runtime: SessionIndex -> SessionInfo, lo: SessionIndex, hi: SessionIndex): (r: seq<SessionInfo>)
    requires lo <= hi
    ensures |r| == hi - lo && forall i {:trigger r[i]} :: 0 <= i < |r| ==> r[i] == runtime(lo + i)
  {
    seq(hi - lo, i requires 0 <= i < hi - lo => runtime(lo + i))
  }

  /** The update to `session` asks the runtime for session `i`. */
  predicate Fetches(w: Window, session: SessionIndex, i: SessionIndex) {
    session > w.Latest() && FreshStart(w, session) <= i <= session
  }

  ghost predicate InfoThroughout(replies: SessionIndex -> RuntimeReply, lo: SessionIndex, hi: SessionIndex) {
    forall i: SessionIndex :: lo <= i <= hi ==> replies(i).Info?
  }

  /** Every session the update asks for is there. */
  ghost predicate AllThere(w: Window, session: SessionIndex, replies: SessionIndex -> RuntimeReply) {
    session > w.Latest() ==> InfoThroughout(replies, FreshStart(w, session), session)
  }

  /** The infos in the replies for the sessions from `lo` to `last`. */
  ghost function Fetched(replies: SessionIndex -> RuntimeReply, lo: SessionIndex, last: SessionIndex)
    : (r: seq<SessionInfo>)
    requires lo <= last + 1 && InfoThroughout(replies, lo, last)
    ensures |r| == last + 1 - lo && forall i {:trigger r[i]} :: 0 <= i < |r| ==> r[i] == replies(lo + i).info
  {
    seq(last + 1 - lo, i requires 0 <= i < last + 1 - lo => replies(lo + i).info)
  }

  ghost function Update(w: Window, session: Option<SessionIndex>, replies: SessionIndex -> RuntimeReply): Window {
    if session.None? || session.value <= w.Latest() then w
    else if AllThere(w, session.value, replies) then
      Advance(w, session.value, Fetched(replies, FreshStart(w, session.value), session.value))
    else w
  }

  /** The window holds an entry for the session. */
  predicate Covers(w: Window, i: SessionIndex) {
    w.earliest <= i < w.earliest + |w.infos|
  }

  /** The entries are the runtime's, one after the other. */
  ghost predicate Holds(w: Window, runtime: SessionIndex -> SessionInfo) {
    forall k {:trigger w.infos[k]} :: 0 <= k < |w.infos| ==> w.infos[k] == runtime(w.earliest + k)
  }

  lemma AgreesWhenHolds(w: Window, runtime: SessionIndex -> SessionInfo)
    requires w.infos != []
    ensures w.Agrees(runtime) <==> Holds(w, runtime)
  {
    if w.Agrees(runtime) {
      forall k | 0 <= k < |w.infos|
        ensures w.infos[k] == runtime(w.earliest + k)
      {
        assert w.Lookup(w.earliest + k) == Some(runtime(w.earliest + k));
      }
    }
  }

  lemma AdvanceHolds(w: Window, session: SessionIndex, runtime: SessionIndex -> SessionInfo)
    requires w.infos != [] && w.size >= 1 && Holds(w, runtime) && session > w.Latest()
    ensures var w' := Advance(w, session, Infos(runtime, FreshStart(w, session), session + 1));
            && |w'.infos| == session - w'.earliest + 1 && w.earliest <= w'.earliest <= session
            && |w'.infos| <= w.size
            && Holds(w', runtime)
  {
  }

  /**
   An advance of a non-empty window that agrees with the runtime agrees again, ends in the new session, has at
   most `size` entries, and fetched exactly the sessions of the new window that the old one lacked.
   */
  lemma AdvanceKeeps(w: Window, session: SessionIndex, runtime: SessionIndex -> SessionInfo)
    requires w.infos != [] && w.size >= 1 && w.Agrees(runtime) && session > w.Latest()
    ensures var w' := Advance(w, session, Infos(runtime, FreshStart(w, session), session + 1));
            && w'.infos != [] && w'.Agrees(runtime)
            && w'.Latest() == session && w.earliest <= w'.earliest
            && |w'.infos| <= w.size
            && forall i: SessionIndex :: Fetches(w, session, i) <==> Covers(w', i) && !Covers(w, i)
  {
    AgreesWhenHolds(w, runtime);
    AdvanceHolds(w, session, runtime);
  }

  /** One update, whatever the runtime answers: agreement is kept, the latest session never goes back. */
  lemma UpdateKeeps(w: Window, session: Option<SessionIndex>, replies: SessionIndex -> RuntimeReply,
                    runtime: SessionIndex -> SessionInfo)
    requires w.infos != [] && w.size >= 1 && w.Agrees(runtime) && Honest(runtime, replies)
    ensures var w' := Update(w, session, replies);
            && w'.infos != [] && w'.size == w.size && w'.Agrees(runtime)
            && w.Latest() <= w'.Latest() && w.earliest <= w'.earliest
            && (w' != w ==> |w'.infos| <= w.size && session == Some(w'.Latest()))
  {
    if session.Some? && session.value > w.Latest() && AllThere(w, session.value, replies) {
      var lo := FreshStart(w, session.value);
      assert Fetched(replies, lo, session.value) == Infos(runtime, lo, session.value + 1);
      AdvanceKeeps(w, session.value, runtime);
    }
  }

  /**
   An update to a later session whose infos are all there moves the window to it: the session is the latest, and each
   session fetched is found with the info the runtime gave.
   */
  lemma UpdateAdvances(w: Window, session: SessionIndex, replies: SessionIndex -> RuntimeReply, i: SessionIndex)
    requires w.infos != [] && w.size >= 1 && session > w.Latest() && AllThere(w, session, replies)
    ensures var w' := Update(w, Some(session), replies);
            && w'.infos != [] && w'.Latest() == session && w'.size == w.size
            && (Fetches(w, session, i) ==> w'.Lookup(i) == Some(replies(i).info))
  {
    var lo := FreshStart(w, session);
    var fetched := Fetched(replies, lo, session);
    var w' := Update(w, Some(session), replies);
    if Fetches(w, session, i) {
      assert fetched[i - lo] == replies(i).info;
      assert w'.infos[|w'.infos| - |fetched| + (i - lo)] == fetched[i - lo];
    }
  }

  datatype Head = Head(session: Option<SessionIndex>, replies: SessionIndex -> RuntimeReply)

  ghost function Run(w: Window, heads: seq<Head>): Window
    decreases |heads|
  {
    if heads == [] then w else Run(Update(w, heads[0].session, heads[0].replies), heads[1..])
  }

  /** After any sequence of updates for heads on which one runtime answers, the cache still agrees with it. */
  lemma {:induction false} RunKeeps(w: Window, heads: seq<Head>, runtime: SessionIndex -> SessionInfo)
    requires w.infos != [] && w.size >= 1 && w.Agrees(runtime)
    requires forall head :: head in heads ==> Honest(runtime, head.replies)
    ensures var w' := Run(w, heads);
            && w'.infos != [] && w'.Agrees(runtime)
            && w.Latest() <= w'.Latest() && w.earliest <= w'.earliest
            && (w' != w ==> |w'.infos| <= w.size)
    decreases |heads|
  {
    if heads == [] {
    } else {
      UpdateKeeps(w, heads[0].session, heads[0].replies, runtime);
      RunKeeps(Update(w, heads[0].session, heads[0].replies), heads[1..], runtime);
    }
  }

  /** The highest session that a head is in, or that was there before. */
  function Highest(latest: SessionIndex, heads: seq<Head>): SessionIndex
    decreases |heads|
  {
    if heads == [] then latest
    else
      var session := heads[0].session;
      Highest(if session.Some? && session.value > latest then session.value else latest, heads[1..])
  }

  /** If the runtime answers for every session up to that of each head, the window follows to the highest of them. */
  lemma {:induction false} RunFollowsHeads(w: Window, heads: seq<Head>)
    requires w.infos != [] && w.size >= 1
    requires forall head :: head in heads && head.session.Some? ==> InfoThroughout(head.replies, 0, head.session.value)
    ensures Run(w, heads).infos != [] && Run(w, heads).Latest() == Highest(w.Latest(), heads)
    decreases |heads|
  {
    if heads == [] {
    } else {
      var head := heads[0];
      assert head in heads;
      if head.session.Some? && head.session.value > w.Latest() {
        UpdateAdvances(w, head.session.value, head.replies, 0);
      }
      RunFollowsHeads(Update(w, head.session, head.replies), heads[1..]);
    }
  }

  /** The window had this entry for the session, or the runtime gave it for one of the heads. */
  ghost predicate Given(w: Window, heads: seq<Head>, i: SessionIndex, info: SessionInfo) {
    w.Lookup(i) == Some(info) || exists head :: head in heads && head.replies(i) == Info(info)
  }

  lemma UpdateGives(w: Window, head: Head, i: SessionIndex)
    requires w.infos != [] && w.size >= 1
    ensures var w' := Update(w, head.session, head.replies);
            && w'.infos != [] && w'.size == w.size
            && (w'.Lookup(i).Some? ==>
                  w'.Lookup(i) == w.Lookup(i) || head.replies(i) == Info(w'.Lookup(i).value))
  {
  }

  /** Whatever the heads are, on forks or not, each entry is what the runtime said of that session for one of them. */
  lemma {:induction false} RunGives(w: Window, heads: seq<Head>, i: SessionIndex)
    requires w.infos != [] && w.size >= 1 && Run(w, heads).Lookup(i).Some?
    ensures Given(w, heads, i, Run(w, heads).Lookup(i).value)
    decreases |heads|
  {
    if heads == [] {
    } else {
      var w' := Update(w, heads[0].session, heads[0].replies);
      UpdateGives(w, heads[0], i);
      RunGives(w', heads[1..], i);
      assert forall head :: head in heads[1..] ==> head in heads;
      assert heads[0] in heads;
    }
  }

  /**
   An empty window counts as if it held its earliest session. Its advance ends in the new session and agrees
   with the runtime if and only if it jumps past that session.
   */
  lemma EmptyWindowExactly(w: Window, session: SessionIndex, runtime: SessionIndex -> SessionInfo)
    requires w.infos == [] && w.size >= 1 && session > w.Latest()
    ensures var w' := Advance(w, session, Infos(runtime, FreshStart(w, session), session + 1));
            w'.Latest() == session && w'.Agrees(runtime) <==> WindowStart(w.size, session) > w.earliest
  {
  }

  /** Otherwise every entry is off by one. */
  lemma EmptyWindowOffByOne(w: Window, session: SessionIndex, runtime: SessionIndex -> SessionInfo, i: SessionIndex)
    requires w.infos == [] && w.size >= 1 && session > w.Latest()
    requires WindowStart(w.size, session) <= w.earliest <= i < session
    ensures Advance(w, session, Infos(runtime, FreshStart(w, session), session + 1)).Lookup(i) == Some(runtime(i + 1))
  {
  }

  /** The start that an update announces is the start of the window just when the old window did not start later. */
  lemma AnnouncedStartExactly(w: Window, session: SessionIndex, fetched: seq<SessionInfo>)
    ensures WindowStart(w.size, session) == Advance(w, session, fetched).earliest <==>
            w.earliest <= WindowStart(w.size, session)
  {
  }

  /** One entry in a window of six: the next session is announced as starting at two and starts at five. */
  lemma AnnouncedStartExample(info: SessionInfo, next: SessionInfo, last: SessionInfo)
    ensures var w := Window(5, [info], 6);
            && WindowStart(w.size, 7) == 2 && FreshStart(w, 7) == 6
            && Advance(w, 7, [next, last]) == Window(5, [info, next, last], 6)
  {
    assert [info][0..] + [next, last] == [info, next, last];
  }

  /**
   A window is full when it has `size` entries or reaches down to session zero; then it announces truly and stays
   full.
   */
  predicate Full(w: Window) {
    w.infos != [] && w.earliest == WindowStart(w.size, w.Latest())
  }

  /** The window that a successful start loads. */
  function Initial(size: nat, session: SessionIndex, runtime: SessionIndex -> SessionInfo): Window {
    Window(WindowStart(size, session), Infos(runtime, WindowStart(size, session), session + 1), size)
  }

  lemma InitialIsFull(size: nat, session: SessionIndex, runtime: SessionIndex -> SessionInfo)
    requires size >= 1
    ensures var w := Initial(size, session, runtime);
            Full(w) && w.Agrees(runtime) && w.Latest() == session && |w.infos| <= size
  {
  }

  lemma FullStaysFull(w: Window, session: SessionIndex, fetched: seq<SessionInfo>)
    requires Full(w) && w.size >= 1 && session > w.Latest() && |fetched| == session + 1 - FreshStart(w, session)
    ensures var w' := Advance(w, session, fetched);
            Full(w') && w'.earliest == WindowStart(w.size, session) && w'.Latest() == session
  {
  }

  lemma UpdateStaysFull(w: Window, head: Head)
    requires Full(w) && w.size >= 1
    ensures var w' := Update(w, head.session, head.replies);
            && Full(w') && w'.size == w.size
            && (w' != w ==> head.session.Some? && w'.earliest == WindowStart(w.size, head.session.value))
  {
    if head.session.Some? && head.session.value > w.Latest() && AllThere(w, head.session.value, head.replies) {
      var session := head.session.value;
      FullStaysFull(w, session, Fetched(head.replies, FreshStart(w, session), session));
    }
  }

  /**
   A window that starts full, as every new one does, is full after any heads and any failures; so whatever update
   comes next announces the start that the window then has.
   */
  lemma {:induction false} FullWindowsAnnounceTruly(w: Window, heads: seq<Head>, next: Head)
    requires Full(w) && w.size >= 1
    ensures var before := Run(w, heads);
            var after := Update(before, next.session, next.replies);
            && Full(before) && Full(after)
            && (after != before ==> next.session.Some? && after.earliest == WindowStart(w.size, next.session.value))
    decreases |heads|
  {
    if heads == [] {
      UpdateStaysFull(w, next);
    } else {
      UpdateStaysFull(w, heads[0]);
      FullWindowsAnnounceTruly(Update(w, heads[0].session, heads[0].replies), heads[1..], next);
    }
  }

  // ---- the cache as the program keeps it

  class RollingSessionWindow {
    var earliestSession: SessionIndex
    var sessionInfo: seq<SessionInfo>
    const windowSize: nat

    /** A window with initial data. */
    constructor (windowSize: nat, earliestSession: SessionIndex, sessionInfo: seq<SessionInfo>)
      ensures Contents() == Window(earliestSession, sessionInfo, windowSize)
    {
      this.windowSize, this.earliestSession, this.sessionInfo := windowSize, earliestSession, sessionInfo;
    }

    function Contents(): Window
      reads this
    {
      Window(earliestSession, sessionInfo, windowSize)
    }

    /** Brings the window up to the session of the block's child; on any failure nothing changes. */
    method CacheSessionInfoForHead(session: Option<SessionIndex>, replies: SessionIndex -> RuntimeReply)
      returns (r: UpdateResult)
      modifies this
      ensures Contents() == Update(old(Contents()), session, replies)
      ensures r.Err? ==> Contents() == old(Contents())
      ensures r.Err? <==> session.None? || !AllThere(old(Contents()), session.value, replies)
      ensures session.None? ==> r == Err(IndexUnavailable)
      ensures r.Err? && session.Some? ==>
                && r.failure.SessionsUnavailable?
                && r.failure.windowStart == FreshStart(old(Contents()), session.value)
                && r.failure.windowEnd == session.value
                && r.failure.windowStart <= r.failure.at <= session.value && !replies(r.failure.at).Info?
                && forall i :: r.failure.windowStart <= i < r.failure.at ==> replies(i).Info?
      ensures r.Ok? && r.update.Advanced? ==>
                && r.update.prevStart == old(Contents()).earliest && r.update.prevEnd == old(Contents()).Latest()
                && r.update.newStart == WindowStart(windowSize, session.value) && r.update.newEnd == session.value
      ensures r.Ok? && r.update.Unchanged? <==> session.Some? && session.value <= old(Contents()).Latest()
    {
      if session.None? {
        return Err(IndexUnavailable);
      }
      var oldWindowStart := earliestSession;
      var latest := earliestSession + SatSub(|sessionInfo|, 1);
      if session.value <= latest {
        return Ok(Unchanged);
      }
      var windowStart := SatSub(session.value, SatSub(windowSize, 1));
      var overlapStart := SatSub(windowStart, oldWindowStart);
      var freshStart := if latest < windowStart then windowStart else latest + 1;
      var loaded := LoadAllSessions(replies, freshStart, session.value);
      match loaded {
        case Failed(at) =>
          return Err(SessionsUnavailable(freshStart, session.value, at));
        case Loaded(s) =>
          var outdated := if overlapStart < |sessionInfo| then overlapStart else |sessionInfo|;
          sessionInfo := sessionInfo[outdated..] + s;
          earliestSession := if windowStart < oldWindowStart then oldWindowStart else windowStart;
          return Ok(Advanced(oldWindowStart, latest, windowStart, session.value));
      }
    }
  }

  datatype Loaded = Loaded(infos: seq<SessionInfo>) | Failed(at: SessionIndex)

  /** Loads the sessions one by one and gives up at the first that is not there. */
  method LoadAllSessions(replies: SessionIndex -> RuntimeReply, start: SessionIndex, endInclusive: SessionIndex)
    returns (r: Loaded)
    requires start <= endInclusive
    ensures r.Loaded? <==> InfoThroughout(replies, start, endInclusive)
    ensures r.Loaded? ==> r.infos == Fetched(replies, start, endInclusive)
    ensures r.Failed? ==>
              start <= r.at <= endInclusive && !replies(r.at).Info? &&
              forall i :: start <= i < r.at ==> replies(i).Info?
  {
    var v := [];
    for i := start to endInclusive + 1
      invariant forall j :: start <= j < i ==> replies(j).Info?
      invariant |v| == i - start && forall k {:trigger v[k]} :: 0 <= k < |v| ==> v[k] == replies(start + k).info
    {
      var reply := replies(i);
      if !reply.Info? {
        return Failed(i);
      }
      v := v + [reply.info];
    }
    return Loaded(v);
  }

  /** A new window: as many sessions as fit, up to the block's, or nothing if one of them cannot be loaded. */
  method NewWindow(windowSize: nat, session: Option<SessionIndex>, replies: SessionIndex -> RuntimeReply,
                   ghost runtime: SessionIndex -> SessionInfo)
    returns (r: Option<RollingSessionWindow>)
    requires windowSize >= 1 && Honest(runtime, replies)
    ensures r.Some? ==>
              && fresh(r.value) && session.Some?
              && r.value.Contents() == Initial(windowSize, session.value, runtime)
    ensures r.None? <==>
              session.None? || !InfoThroughout(replies, WindowStart(windowSize, session.value), session.value)
  {
    if session.None? {
      return None;
    }
    var windowStart := SatSub(session.value, SatSub(windowSize, 1));
    var loaded := LoadAllSessions(replies, windowStart, session.value);
    if loaded.Failed? {
      return None;
    }
    var w := new RollingSessionWindow(windowSize, windowStart, loaded.infos);
    return Some(w);
  }
}
