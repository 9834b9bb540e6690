/** The job manager that follows the overseer's signals: one job per active leaf. */
module JobManager {
  import opened Hashes
  import opened Signals
  import opened ActiveLeavesMachine

  /** What the subsystem receives; a message may find that its job has ended. */
  datatype JobEvent =
    | Signaled(signal: Signal)
    | Message(relayParent: Hash, delivered: bool)
    | ReceiveError

  function AfterEvent(running: set<Hash>, e: JobEvent): set<Hash> {
    match e
    case Signaled(ActiveLeaves(u)) =>
      running + (if u.activated.Some? then {u.activated.value.hash} else {}) - Elements(u.deactivated)
    case Signaled(BlockFinalized(_, _)) => running
    case Signaled(Conclude) => {}
    case Message(h, delivered) => if h in running && !delivered then running - {h} else running
    case ReceiveError => running
  }

  function Jobs(events: seq<JobEvent>): set<Hash> {
    if events == [] then {} else AfterEvent(Jobs(events[..|events| - 1]), events[|events| - 1])
  }

  function SignalsOf(events: seq<JobEvent>): seq<Signal> {
    if events == [] then []
    else
      var last := events[|events| - 1];
      SignalsOf(events[..|events| - 1]) + (if last.Signaled? then [last.signal] else [])
  }

  predicate NotConcluded(events: seq<JobEvent>) {
    forall e :: e in events ==> e != Signaled(Conclude)
  }

  /** The events that end the loop. */
  predicate EndsLoop(e: JobEvent) {
    e == Signaled(Conclude) || e.ReceiveError?
  }

  predicate LostAfter(lost: bool, e: JobEvent, h: Hash) {
    match e
    case Signaled(signal) => lost && h !in ActivatedBy(signal)
    case Message(to, delivered) => lost || (to == h && !delivered)
    case ReceiveError => lost
  }

  /** Some message to the job of `h` was not taken since `h` was last activated. */
  predicate Lost(events: seq<JobEvent>, h: Hash) {
    events != [] && LostAfter(Lost(events[..|events| - 1], h), events[|events| - 1], h)
  }

  /** The leaves a listener to the same event knows of. */
  function ViewAfter(view: set<Hash>, e: JobEvent): set<Hash> {
    if e.Signaled? then ApplyDelta(view, e.signal) else view
  }

  lemma ReplaySignals(events: seq<JobEvent>)
    requires events != []
    ensures Replay(SignalsOf(events)) == ViewAfter(Replay(SignalsOf(events[..|events| - 1])), events[|events| - 1])
  {
    if !events[|events| - 1].Signaled? {
      assert SignalsOf(events) == SignalsOf(events[..|events| - 1]);
    }
  }

  lemma FollowOne(running: set<Hash>, view: set<Hash>, lost: bool, e: JobEvent, h: Hash)
    requires e != Signaled(Conclude) && (h in running <==> h in view && !lost)
    ensures h in AfterEvent(running, e) <==> h in ViewAfter(view, e) && !LostAfter(lost, e, h)
  {
  }

  /**
   A leaf has a job exactly if the signals say it is active and no message to it was lost since it was last
   activated.
   */
  lemma {:induction false} JobsFollowSignals(events: seq<JobEvent>, h: Hash)
    requires NotConcluded(events)
    ensures h in Jobs(events) <==> h in Replay(SignalsOf(events)) && !Lost(events, h)
  {
    if events == [] {
    } else {
      var before, last := events[..|events| - 1], events[|events| - 1];
      assert last in events;
      assert NotConcluded(before) by {
        assert forall e :: e in before ==> e in events;
      }
      JobsFollowSignals(before, h);
      ReplaySignals(events);
      FollowOne(Jobs(before), Replay(SignalsOf(before)), Lost(before, h), last, h);
    }
  }

  /**
   Producer and consumer agree: a job subsystem that has received exactly the signals an overseer broadcast in
   some run, with any messages in between, runs jobs for exactly the supported active leaves to which no
   message was lost since they were last activated.
   */
  lemma JobsMatchOverseer(supports: Hash -> bool, run: seq<Event>, events: seq<JobEvent>, h: Hash)
    requires AllPossible(supports, INITIAL, run) && NotConcluded(events)
    requires SignalsOf(events) == Run(supports, INITIAL, run).sent
    ensures h in Jobs(events) <==> h in Supported(supports, Run(supports, INITIAL, run).active) && !Lost(events, h)
  {
    RunKeepsAgreement(supports, INITIAL, run);
    JobsFollowSignals(events, h);
  }

  class JobSubsystem {
    /** The running jobs, each with the leaf it was started for. */
    var running: map<Hash, ActivatedLeaf>

    constructor ()
      ensures running == map[]
    {
      running := map[];
    }

    method SpawnJob(leaf: ActivatedLeaf)
      modifies this
      ensures running == old(running)[leaf.hash := leaf]
    {
      running := running[leaf.hash := leaf];
    }

    method StopJob(parentHash: Hash)
      modifies this
      ensures running == old(running) - {parentHash}
    {
      running := running - {parentHash};
    }

    /** A job that does not take its message is dropped. */
    method SendMsg(parentHash: Hash, delivered: bool)
      modifies this
      ensures running == if delivered then old(running) else old(running) - {parentHash}
    {
      if parentHash in running && !delivered {
        running := running - {parentHash};
      }
    }

    /** One iteration of the loop; `done` ends it. */
    method Handle(e: JobEvent) returns (done: bool)
      modifies this
      ensures running.Keys == AfterEvent(old(running).Keys, e)
      ensures forall h :: h in running ==>
                if e.Signaled? && h in ActivatedBy(e.signal) then running[h] == e.signal.update.activated.value
                else h in old(running) && running[h] == old(running)[h]
      ensures done <==> EndsLoop(e)
    {
      done := false;
      match e {
        case Signaled(ActiveLeaves(u)) =>
          if u.activated.Some? {
            SpawnJob(u.activated.value);
          }
          ghost var started := running;
          for i := 0 to |u.deactivated|
            invariant running == started - Elements(u.deactivated[..i])
          {
            assert u.deactivated[..i + 1] == u.deactivated[..i] + [u.deactivated[i]];
            StopJob(u.deactivated[i]);
          }
          assert u.deactivated[..|u.deactivated|] == u.deactivated;
        case Signaled(BlockFinalized(_, _)) =>
        case Signaled(Conclude) =>
          running := map[];
          done := true;
        case Message(h, delivered) =>
          SendMsg(h, delivered);
        case ReceiveError =>
          done := true;
      }
    }

    /** The event loop, from no jobs until it is told to conclude or cannot receive. */
    method Loop(events: seq<JobEvent>) returns (handled: nat)
      requires running == map[]
      modifies this
      ensures handled <= |events| && running.Keys == Jobs(events[..handled])
      ensures forall i :: 0 <= i < handled - 1 ==> !EndsLoop(events[i])
      ensures handled < |events| ==> handled > 0 && EndsLoop(events[handled - 1])
      ensures handled > 0 && events[handled - 1] == Signaled(Conclude) ==> running == map[]
    {
      handled := 0;
      while handled < |events|
        invariant handled <= |events| && running.Keys == Jobs(events[..handled])
        invariant forall i :: 0 <= i < handled ==> !EndsLoop(events[i])
      {
        assert events[..handled + 1][..handled] == events[..handled];
        var done := Handle(events[handled]);
        handled := handled + 1;
        if done {
          assert events[handled - 1] == Signaled(Conclude) ==> running.Keys == {};
          return;
        }
      }
    }
  }
}
