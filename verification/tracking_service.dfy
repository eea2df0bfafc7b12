/**
  The tracking service's publish scheduler as an object whose methods update
  its fields in place, one method per entry point and private helper. Each
  method is specified by the function of module Publishing that it implements,
  and keeps the invariant proved there.
 */
module Tracking {
  import opened Publishing
  import PublishingFacts

  class TrackingService {
    var running: bool
    var lastLocation: Option<GeoPoint>
    var hasNewLocation: bool
    var currentUpdateJob: Option<Job>

    // bookkeeping that the guarantees are stated over
    ghost var clock: int
    ghost var starts: seq<Start>
    ghost var resolved: nat
    ghost var delivered: Option<GeoPoint>

    /** The abstract state of the scheduler. */
    ghost function Model(): State
      reads this
    {
      State(running, lastLocation, hasNewLocation, currentUpdateJob, clock, starts, resolved, delivered)
    }

    ghost predicate Valid()
      reads this
    {
      Inv(Model())
    }

    /** A new service: not running, no location, nothing pending, nothing in flight. */
    constructor (ghost t0: int)
      ensures Model() == Init(t0)
      ensures Valid()
    {
      running := false;
      lastLocation := None;
      hasNewLocation := false;
      currentUpdateJob := None;
      clock := t0;
      starts := [];
      resolved := 0;
      delivered := None;
    }

    /** The location callback; `now` is the clock when it runs. */
    method OnLocationResult(result: Option<GeoPoint>, now: int)
      requires Valid() && clock <= now
      modifies this
      ensures Model() == Publishing.OnLocationResult(old(Model()), result, now)
      ensures Valid()
    {
      PublishingFacts.LocationResultKeepsInv(Model(), result, now);
      match result
      case None =>
      case Some(newLocation) =>
        var changed := Some(newLocation) != lastLocation;
        lastLocation := Some(newLocation);
        if changed {
          SetHasNewLocation(now);
        }
    }

    method SetHasNewLocation(now: int)
      requires clock <= now
      modifies this
      ensures Model() == Publishing.SetHasNewLocation(old(Model()), now)
      ensures old(Valid()) ==> Valid()
    {
      if Valid() {
        PublishingFacts.SetHasNewLocationKeepsInv(Model(), now);
      }
      if !hasNewLocation {
        hasNewLocation := true;
        UpdateLocationIfNeeded(now);
      }
    }

    /** The scheduling step: launches a publish of the last location into a free slot. */
    method UpdateLocationIfNeeded(now: int)
      requires clock <= now
      modifies this
      ensures Model() == Publishing.UpdateLocationIfNeeded(old(Model()), now)
      ensures old(Valid()) ==> Valid()
    {
      if Valid() {
        PublishingFacts.SettledStepIsNoOp(Model(), now);
      }
      if currentUpdateJob.None? && hasNewLocation {
        hasNewLocation := false;
        var earliestNextUpdateTime := now + MIN_DATABASE_UPDATE_INTERVAL;
        clock := now;
        match lastLocation
        case Some(it) =>
          currentUpdateJob := Some(Job(it, earliestNextUpdateTime));
          starts := starts + [Start(now, it)];
        case None =>
      }
    }

    /**
      The tail of the launched job: `success` is the store's answer and `now`
      the clock once the wait up to the job's earliest next update time is over.
     */
    method FinishUpdate(success: bool, now: int)
      requires Valid() && currentUpdateJob.Some?
      requires clock <= now && currentUpdateJob.value.earliestNextUpdateTime <= now
      modifies this
      ensures Model() == Publishing.FinishUpdate(old(Model()), success, now)
      ensures Valid()
    {
      PublishingFacts.FinishUpdateKeepsInv(Model(), success, now);
      clock := now;
      if success {
        delivered := Some(currentUpdateJob.value.target);
      }
      if !success {
        hasNewLocation := true;
      }
      currentUpdateJob := None;
      resolved := resolved + 1;
      UpdateLocationIfNeeded(now);
    }

    /** A start request; `hasPermission` is the outcome of the location permission check. */
    method OnStartCommand(hasPermission: bool)
      requires Valid()
      modifies this
      ensures Model() == Publishing.OnStartCommand(old(Model()), hasPermission)
      ensures Valid()
    {
      if !running {
        DoStart(hasPermission);
      }
    }

    method DoStart(hasPermission: bool)
      modifies this
      ensures Model() == Publishing.DoStart(old(Model()), hasPermission)
    {
      if hasPermission {
        running := true;
      }
    }

    method Stop()
      requires Valid()
      modifies this
      ensures Model() == Publishing.Stop(old(Model()))
      ensures Valid()
    {
      if running {
        DoStop();
      }
    }

    method DoStop()
      modifies this
      ensures Model() == Publishing.DoStop(old(Model()))
    {
      running := false;
    }

    method OnDestroy()
      requires Valid()
      modifies this
      ensures Model() == Publishing.OnDestroy(old(Model()))
      ensures Valid()
    {
      running := false;
    }
  }
}
