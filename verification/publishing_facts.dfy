/**
  What the publish scheduler guarantees: properties of each entry point, the
  invariant every entry point preserves, and what that gives for any history
  of events.
 */
module PublishingFacts {
  import opened Publishing

  // ---------------------------------------------------------------------------
  // The location callback
  // ---------------------------------------------------------------------------

  /**
    A sample always becomes the last location. A repeated sample changes
    nothing else; a new one is never dropped: either it is pending, or it was
    launched at once because the slot was free. The flag goes up only for a new
    sample, and a sample never touches the in-flight job or the running flag.
   */
  lemma SampleBecomesLastLocation(s: State, p: GeoPoint, now: int)
    ensures OnLocationResult(s, Some(p), now).lastLocation == Some(p)
    ensures s.lastLocation == Some(p) ==> OnLocationResult(s, Some(p), now) == s
    ensures s.lastLocation != Some(p) ==>
              var r := OnLocationResult(s, Some(p), now);
              r.hasNewLocation
              || (s.currentUpdateJob.None?
                  && r.currentUpdateJob == Some(Job(p, now + MIN_DATABASE_UPDATE_INTERVAL))
                  && r.starts == s.starts + [Start(now, p)])
    ensures OnLocationResult(s, Some(p), now).hasNewLocation && !s.hasNewLocation ==>
              s.lastLocation != Some(p)
    ensures s.currentUpdateJob.Some? ==>
              OnLocationResult(s, Some(p), now).currentUpdateJob == s.currentUpdateJob
              && OnLocationResult(s, Some(p), now).starts == s.starts
    ensures OnLocationResult(s, Some(p), now).running == s.running
  {
  }

  /** A result that carries no location changes nothing. */
  lemma EmptyResultIgnored(s: State, now: int)
    ensures OnLocationResult(s, None, now) == s
  {
  }

  /** Raising a flag that is already up does nothing: no scheduling step runs. */
  lemma SetHasNewLocationIdempotent(s: State, now: int)
    requires s.hasNewLocation
    ensures SetHasNewLocation(s, now) == s
  {
  }

  // ---------------------------------------------------------------------------
  // The scheduling step
  // ---------------------------------------------------------------------------

  /**
    A publish starts exactly when the slot is free, a change is pending and a
    location is known; it then takes the slot, clears the flag and carries the
    last location. In every other case no publish starts, and with the slot
    taken nothing at all changes.
   */
  lemma ScheduleLaunchesOnlyIntoFreeSlot(s: State, now: int)
    ensures var r := UpdateLocationIfNeeded(s, now);
            (|r.starts| > |s.starts|) <==>
            (s.currentUpdateJob.None? && s.hasNewLocation && s.lastLocation.Some?)
    ensures var r := UpdateLocationIfNeeded(s, now);
            s.currentUpdateJob.None? && s.hasNewLocation && s.lastLocation.Some? ==>
              r.starts == s.starts + [Start(now, s.lastLocation.value)]
              && r.currentUpdateJob
                 == Some(Job(s.lastLocation.value, now + MIN_DATABASE_UPDATE_INTERVAL))
              && !r.hasNewLocation
              && r.lastLocation == s.lastLocation
    ensures var r := UpdateLocationIfNeeded(s, now);
            !(s.currentUpdateJob.None? && s.hasNewLocation && s.lastLocation.Some?) ==>
              r.starts == s.starts && r.currentUpdateJob == s.currentUpdateJob
    ensures s.currentUpdateJob.Some? ==> UpdateLocationIfNeeded(s, now) == s
  {
  }

  /** With no location known, a step launches nothing but still clears the flag when the slot is free. */
  lemma ScheduleWithoutLocation(s: State, now: int)
    requires s.lastLocation.None?
    ensures UpdateLocationIfNeeded(s, now).starts == s.starts
    ensures UpdateLocationIfNeeded(s, now).currentUpdateJob == s.currentUpdateJob
    ensures s.currentUpdateJob.None? ==> !UpdateLocationIfNeeded(s, now).hasNewLocation
  {
  }

  // ---------------------------------------------------------------------------
  // The start/stop guards
  // ---------------------------------------------------------------------------

  /**
    Starting and stopping touch only the running flag. A start while running and
    a stop while stopped are no-ops; a start sets the flag only with permission;
    stop and destroy clear it and leave an in-flight publish alone.
   */
  lemma LifecycleGuards(s: State, hasPermission: bool)
    ensures s.running ==> OnStartCommand(s, hasPermission) == s
    ensures OnStartCommand(s, hasPermission) == s.(running := s.running || hasPermission)
    ensures !s.running ==> Stop(s) == s
    ensures Stop(s) == s.(running := false)
    ensures OnDestroy(s) == s.(running := false)
    ensures Stop(s).currentUpdateJob == s.currentUpdateJob
    ensures OnDestroy(s).currentUpdateJob == s.currentUpdateJob
  {
  }

  // ---------------------------------------------------------------------------
  // The invariant
  // ---------------------------------------------------------------------------

  lemma InitEstablishesInv(t0: int)
    ensures Inv(Init(t0))
    ensures Init(t0).starts == [] && Init(t0).currentUpdateJob.None? && !Init(t0).running
  {
  }

  /** Appending a start at least one interval after the last keeps the history paced. */
  lemma PacedAppend(starts: seq<Start>, st: Start)
    requires Paced(starts)
    requires |starts| > 0 ==> starts[|starts| - 1].time + MIN_DATABASE_UPDATE_INTERVAL <= st.time
    ensures Paced(starts + [st])
  {
    var r := starts + [st];
    forall i | 0 < i < |r|
      ensures r[i - 1].time + MIN_DATABASE_UPDATE_INTERVAL <= r[i].time
    {
      if i < |starts| {
        assert r[i - 1] == starts[i - 1] && r[i] == starts[i];
      } else {
        assert r[i - 1] == starts[|starts| - 1] && r[i] == st;
      }
    }
  }

  /** Raising the flag from a settled state launches the last location if the slot is free, and keeps the invariant. */
  lemma SetHasNewLocationKeepsInv(s: State, now: int)
    requires Inv(s) && s.clock <= now
    ensures Inv(SetHasNewLocation(s, now))
  {
    if !s.hasNewLocation && s.currentUpdateJob.None? && s.lastLocation.Some? {
      PacedAppend(s.starts, Start(now, s.lastLocation.value));
    }
  }

  /** From a settled state a scheduling step does nothing: the slot is taken or nothing is pending. */
  lemma SettledStepIsNoOp(s: State, now: int)
    requires Inv(s)
    ensures UpdateLocationIfNeeded(s, now) == s
  {
  }

  lemma LocationResultKeepsInv(s: State, result: Option<GeoPoint>, now: int)
    requires Inv(s) && s.clock <= now
    ensures Inv(OnLocationResult(s, result, now))
  {
    if result.Some? && s.currentUpdateJob.None? && Some(result.value) != s.lastLocation {
      if |s.starts| > 0 {
        PacedAppend(s.starts, Start(now, result.value));
      } else {
        PacedAppend([], Start(now, result.value));
      }
    }
  }

  lemma FinishUpdateKeepsInv(s: State, success: bool, now: int)
    requires Inv(s) && s.currentUpdateJob.Some?
    requires s.clock <= now && s.currentUpdateJob.value.earliestNextUpdateTime <= now
    ensures Inv(FinishUpdate(s, success, now))
  {
    if !success || s.hasNewLocation {
      PacedAppend(s.starts, Start(now, s.lastLocation.value));
    }
  }

  lemma ApplyKeepsInv(s: State, e: Event)
    requires Inv(s) && Enabled(s, e)
    ensures Inv(Apply(s, e))
  {
    match e
    case LocationResult(r, t) => LocationResultKeepsInv(s, r, t);
    case UpdateFinished(ok, t) => FinishUpdateKeepsInv(s, ok, t);
    case _ =>
  }

  /** Every state reachable by a sequence of possible events satisfies the invariant. */
  lemma {:induction false} RunKeepsInv(s: State, events: seq<Event>)
    requires Inv(s)
    requires Run(s, events).Some?
    ensures Inv(Run(s, events).value)
    decreases |events|
  {
    if events != [] {
      ApplyKeepsInv(s, events[0]);
      RunKeepsInv(Apply(s, events[0]), events[1..]);
    }
  }

  // ---------------------------------------------------------------------------
  // Exclusivity and pacing
  // ---------------------------------------------------------------------------

  /**
    An event starts at most one publish, and only after every earlier publish
    has run its job tail; the new start is at least one interval after the
    previous one, however fast or slow the store answered.
   */
  lemma StartsAreSerialized(s: State, e: Event)
    requires Inv(s) && Enabled(s, e)
    ensures var r := Apply(s, e);
            |r.starts| == |s.starts| || |r.starts| == |s.starts| + 1
    ensures var r := Apply(s, e);
            |r.starts| == |s.starts| + 1 ==>
              r.resolved == |s.starts|
              && r.starts[..|s.starts|] == s.starts
              && (|s.starts| > 0 ==>
                    s.starts[|s.starts| - 1].time + MIN_DATABASE_UPDATE_INTERVAL
                    <= r.starts[|s.starts|].time)
  {
    ApplyKeepsInv(s, e);
    var r := Apply(s, e);
    if |r.starts| == |s.starts| + 1 {
      match e
      case LocationResult(res, t) =>
        assert r.starts == s.starts + [Start(t, res.value)];
      case UpdateFinished(ok, t) =>
        assert r.starts == s.starts + [Start(t, s.lastLocation.value)];
      case _ =>
    }
  }

  /** In a paced history, starts j - i apart are at least j - i intervals apart. */
  lemma {:induction false} PacedSpread(starts: seq<Start>, i: nat, j: nat)
    requires Paced(starts)
    requires i <= j < |starts|
    ensures starts[i].time + (j - i) * MIN_DATABASE_UPDATE_INTERVAL <= starts[j].time
    decreases j - i
  {
    if i < j {
      PacedSpread(starts, i, j - 1);
      assert starts[j - 1].time + MIN_DATABASE_UPDATE_INTERVAL <= starts[j].time;
    }
  }

  /**
    From a fresh service, any history of possible events leaves at most one
    publish in flight (every start but the latest has ended), publish starts
    pairwise at least the interval apart, and, when idle, nothing pending and
    the store holding the last location.
   */
  lemma {:induction false} HistoryGuarantees(t0: int, events: seq<Event>)
    requires Run(Init(t0), events).Some?
    ensures var s := Run(Init(t0), events).value;
            |s.starts| == s.resolved + (if s.currentUpdateJob.Some? then 1 else 0)
    ensures var s := Run(Init(t0), events).value;
            forall i, j :: 0 <= i < j < |s.starts| ==>
              s.starts[i].time + MIN_DATABASE_UPDATE_INTERVAL <= s.starts[j].time
    ensures var s := Run(Init(t0), events).value;
            s.currentUpdateJob.None? ==> !s.hasNewLocation && s.delivered == s.lastLocation
  {
    InitEstablishesInv(t0);
    RunKeepsInv(Init(t0), events);
    var s := Run(Init(t0), events).value;
    forall i, j | 0 <= i < j < |s.starts|
      ensures s.starts[i].time + MIN_DATABASE_UPDATE_INTERVAL <= s.starts[j].time
    {
      PacedSpread(s.starts, i, j);
    }
  }

  // ---------------------------------------------------------------------------
  // Retry and convergence
  // ---------------------------------------------------------------------------

  /**
    A failed publish is retried when its job tail runs, with no new sample
    needed: a new publish of the then-latest location starts at that moment,
    at least one interval after the failed one.
   */
  lemma FailureRetries(s: State, now: int)
    requires Inv(s) && s.currentUpdateJob.Some?
    requires s.clock <= now && s.currentUpdateJob.value.earliestNextUpdateTime <= now
    ensures s.lastLocation.Some?
    ensures var r := FinishUpdate(s, false, now);
            r.starts == s.starts + [Start(now, s.lastLocation.value)]
            && r.currentUpdateJob
               == Some(Job(s.lastLocation.value, now + MIN_DATABASE_UPDATE_INTERVAL))
            && !r.hasNewLocation
    ensures LastStart(s).time + MIN_DATABASE_UPDATE_INTERVAL <= now
  {
  }

  /**
    When a publish ends, the latest location is never lost: if it succeeded and
    nothing newer came, the store holds the latest location and the service is
    idle; otherwise a publish of the latest location starts at once.
   */
  lemma LatestLocationWins(s: State, success: bool, now: int)
    requires Inv(s) && s.currentUpdateJob.Some?
    requires s.clock <= now && s.currentUpdateJob.value.earliestNextUpdateTime <= now
    ensures var r := FinishUpdate(s, success, now);
            (success && !s.hasNewLocation) ==>
              r.currentUpdateJob.None? && r.delivered == s.lastLocation
    ensures var r := FinishUpdate(s, success, now);
            !(success && !s.hasNewLocation) ==>
              r.currentUpdateJob.Some?
              && Some(r.currentUpdateJob.value.target) == s.lastLocation
              && LastStart(r) == Start(now, r.currentUpdateJob.value.target)
  {
  }

  /** The state after a burst of samples, all arriving at time `now`. */
  function Samples(s: State, ps: seq<GeoPoint>, now: int): State
    decreases |ps|
  {
    if ps == [] then s else Samples(OnLocationResult(s, Some(ps[0]), now), ps[1..], now)
  }

  /**
    Samples arriving while a publish is in flight are coalesced: the job and the
    start history are untouched, the last sample becomes the last location, and
    the invariant still holds, so the next cycle publishes that sample.
   */
  lemma {:induction false} CoalescedDuringFlight(s: State, ps: seq<GeoPoint>, now: int)
    requires Inv(s) && s.currentUpdateJob.Some? && s.clock <= now
    ensures var r := Samples(s, ps, now);
            r.currentUpdateJob == s.currentUpdateJob && r.starts == s.starts
            && r.clock == s.clock && Inv(r)
    ensures |ps| > 0 ==> Samples(s, ps, now).lastLocation == Some(ps[|ps| - 1])
    decreases |ps|
  {
    if ps != [] {
      var s1 := OnLocationResult(s, Some(ps[0]), now);
      LocationResultKeepsInv(s, Some(ps[0]), now);
      CoalescedDuringFlight(s1, ps[1..], now);
      if |ps| > 1 {
        assert ps[1..][|ps[1..]| - 1] == ps[|ps| - 1];
      }
    }
  }
}
