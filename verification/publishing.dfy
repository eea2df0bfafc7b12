/**
  The publish scheduler of the tracking service, as a pure state machine.

  Each function below is one entry point of the service (or one of its private
  helpers) and maps the scheduler's state before the call to its state after it.
  The state holds the service's four fields and, beside them, bookkeeping that
  the service itself does not store but that its guarantees are about: the
  latest reading of the monotonic clock, the history of publish starts, how
  many publishes have run their job tail, and the target of the latest publish
  the remote store accepted.
 */
module Publishing {

  /** Minimum time, in milliseconds, from the start of one publish to the start of the next. */
  const MIN_DATABASE_UPDATE_INTERVAL: int := 3000

  datatype Option<+T> = None | Some(value: T)

  /** A position. Only equality of positions is ever used, so integers stand in for the two coordinates. */
  datatype GeoPoint = GeoPoint(latitude: int, longitude: int)

  /** The one outstanding publish: the position it writes and the time its slot may be freed. */
  datatype Job = Job(target: GeoPoint, earliestNextUpdateTime: int)

  /** One publish start: when it began and what it carries. */
  datatype Start = Start(time: int, target: GeoPoint)

  datatype State = State(
    running: bool,
    lastLocation: Option<GeoPoint>,
    hasNewLocation: bool,
    currentUpdateJob: Option<Job>,
    // bookkeeping beside the service's own fields:
    clock: int,                  // latest reading of the monotonic clock
    starts: seq<Start>,          // every publish start, oldest first
    resolved: nat,               // publishes whose job tail has run
    delivered: Option<GeoPoint>  // target of the latest publish that succeeded
  )

  /** A freshly created service; `t0` is the clock when it is created. */
  function Init(t0: int): (r: State)
    ensures !r.running && r.lastLocation.None? && !r.hasNewLocation && r.currentUpdateJob.None?
    ensures r.starts == [] && r.resolved == 0 && r.clock == t0
  {
    State(false, None, false, None, t0, [], 0, None)
  }

  function LastStart(s: State): Start
    requires |s.starts| > 0
  {
    s.starts[|s.starts| - 1]
  }

  /**
    The scheduling step. With the slot free and a change pending, it clears the
    flag, reads the clock, and, when a position is known, launches a publish of
    that position whose slot stays taken until `now` plus the interval.
   */
  function UpdateLocationIfNeeded(s: State, now: int): (r: State)
    ensures r.running == s.running && r.lastLocation == s.lastLocation
    ensures r.resolved == s.resolved && r.delivered == s.delivered
    ensures r.starts == s.starts
            || (s.lastLocation.Some? && r.starts == s.starts + [Start(now, s.lastLocation.value)])
  {
    if s.currentUpdateJob.None? && s.hasNewLocation then
      var earliestNextUpdateTime := now + MIN_DATABASE_UPDATE_INTERVAL;
      var cleared := s.(hasNewLocation := false, clock := now);
      match s.lastLocation
      case Some(it) =>
        cleared.(currentUpdateJob := Some(Job(it, earliestNextUpdateTime)),
                 starts := s.starts + [Start(now, it)])
      case None => cleared
    else
      s
  }

  /** Raises the pending flag and runs a scheduling step, unless the flag is already up. */
  function SetHasNewLocation(s: State, now: int): (r: State)
    ensures r.running == s.running && r.lastLocation == s.lastLocation
    ensures r.resolved == s.resolved && r.delivered == s.delivered
    ensures r.hasNewLocation || r.currentUpdateJob.Some? || r.lastLocation.None?
  {
    if !s.hasNewLocation then UpdateLocationIfNeeded(s.(hasNewLocation := true), now) else s
  }

  /**
    The location callback. A result without a location is ignored; otherwise the
    sample becomes the last location, and a sample that differs from the
    previous one (or is the first) raises the pending flag.
   */
  function OnLocationResult(s: State, result: Option<GeoPoint>, now: int): (r: State)
    ensures r.running == s.running && r.resolved == s.resolved && r.delivered == s.delivered
    ensures result.Some? ==> r.lastLocation == result
    ensures result.None? ==> r == s
    ensures r.starts == s.starts || (result.Some? && r.starts == s.starts + [Start(now, result.value)])
  {
    match result
    case None => s
    case Some(newLocation) =>
      var changed := Some(newLocation) != s.lastLocation;
      var updated := s.(lastLocation := Some(newLocation));
      if changed then SetHasNewLocation(updated, now) else updated
  }

  /**
    The tail of the launched job, run once the store has answered and the wait
    up to the job's earliest next update time is over: a failure re-raises the
    pending flag, the slot is freed and a new scheduling step runs.
   */
  function FinishUpdate(s: State, success: bool, now: int): (r: State)
    requires s.currentUpdateJob.Some?
    ensures r.running == s.running && r.lastLocation == s.lastLocation
    ensures r.resolved == s.resolved + 1 && r.clock == now
    ensures success ==> r.delivered == Some(s.currentUpdateJob.value.target)
    ensures !success ==> r.delivered == s.delivered
    ensures r.currentUpdateJob.Some? <==> (!success || s.hasNewLocation) && s.lastLocation.Some?
  {
    var job := s.currentUpdateJob.value;
    var freed := s.(hasNewLocation := if !success then true else s.hasNewLocation,
                    currentUpdateJob := None,
                    clock := now,
                    resolved := s.resolved + 1,
                    delivered := if success then Some(job.target) else s.delivered);
    UpdateLocationIfNeeded(freed, now)
  }

  /** Starts tracking when permission is granted; without it the service only stops itself. */
  function DoStart(s: State, hasPermission: bool): (r: State)
    ensures r.running <==> s.running || hasPermission
    ensures r == s.(running := r.running)
  {
    if hasPermission then s.(running := true) else s
  }

  /** A start request: starts tracking unless it is already running. */
  function OnStartCommand(s: State, hasPermission: bool): (r: State)
    ensures s.running ==> r == s
    ensures !s.running ==> r.running == hasPermission
    ensures r == s.(running := r.running)
  {
    if !s.running then DoStart(s, hasPermission) else s
  }

  /** Stops tracking; an in-flight publish is left to run to its end. */
  function DoStop(s: State): (r: State)
    ensures !r.running && r == s.(running := false)
  {
    s.(running := false)
  }

  /** A stop request: stops tracking if it is running. */
  function Stop(s: State): (r: State)
    ensures !r.running
    ensures !s.running ==> r == s
    ensures r == s.(running := r.running)
  {
    if s.running then DoStop(s) else s
  }

  /** Destruction of the service: tracking stops whatever the state. */
  function OnDestroy(s: State): (r: State)
    ensures !r.running
    ensures r == s.(running := r.running)
  {
    s.(running := false)
  }

  /** Consecutive publish starts are at least the interval apart. */
  predicate Paced(starts: seq<Start>) {
    forall i :: 0 < i < |starts| ==> starts[i - 1].time + MIN_DATABASE_UPDATE_INTERVAL <= starts[i].time
  }

  /**
    What holds whenever no entry point is running.
   */
  predicate Inv(s: State) {
    // exclusivity: every start but the in-flight one has run its job tail
    |s.starts| == s.resolved + (if s.currentUpdateJob.Some? then 1 else 0)
    // the in-flight job is the latest start, its slot held for one interval
    && (s.currentUpdateJob.Some? ==>
          |s.starts| > 0
          && s.currentUpdateJob.value.target == LastStart(s).target
          && s.currentUpdateJob.value.earliestNextUpdateTime
             == LastStart(s).time + MIN_DATABASE_UPDATE_INTERVAL
          && s.lastLocation.Some?
          && (s.hasNewLocation || s.lastLocation == Some(s.currentUpdateJob.value.target)))
    // pacing, and no start before the clock has passed the last one by an interval
    && Paced(s.starts)
    && (s.currentUpdateJob.None? && |s.starts| > 0 ==>
          LastStart(s).time + MIN_DATABASE_UPDATE_INTERVAL <= s.clock)
    // nothing stuck: when idle, nothing is pending and the store holds the last location
    && (s.currentUpdateJob.None? ==> !s.hasNewLocation && s.delivered == s.lastLocation)
  }

  /** Something that happens to the service from outside. */
  datatype Event =
    | LocationResult(result: Option<GeoPoint>, time: int)
    | UpdateFinished(success: bool, time: int)
    | StartCommand(hasPermission: bool)
    | StopCalled
    | Destroyed

  /**
    When an event can happen: the clock never runs backwards, and a job tail runs
    only for a job in flight and only once its wait is over.
   */
  predicate Enabled(s: State, e: Event) {
    match e
    case LocationResult(_, t) => s.clock <= t
    case UpdateFinished(_, t) =>
      s.currentUpdateJob.Some? && s.clock <= t && s.currentUpdateJob.value.earliestNextUpdateTime <= t
    case _ => true
  }

  function Apply(s: State, e: Event): State
    requires Enabled(s, e)
  {
    match e
    case LocationResult(r, t) => OnLocationResult(s, r, t)
    case UpdateFinished(ok, t) => FinishUpdate(s, ok, t)
    case StartCommand(p) => OnStartCommand(s, p)
    case StopCalled => Stop(s)
    case Destroyed => OnDestroy(s)
  }

  /** The state after a sequence of events, or None if one of them could not happen. */
  function Run(s: State, events: seq<Event>): Option<State>
    decreases |events|
  {
    if events == [] then Some(s)
    else if Enabled(s, events[0]) then Run(Apply(s, events[0]), events[1..])
    else None
  }
}
