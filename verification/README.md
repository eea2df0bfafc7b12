# Publish scheduler of the DynTarget tracking service

The tracking service receives location samples from the fused location
provider, keeps the latest one, and writes it to the `target` field of a
remote document. Its scheduler promises three things:

- at most one publish is outstanding at any time;
- two publish starts are at least `MIN_DATABASE_UPDATE_INTERVAL` (3000 ms)
  apart, measured start to start;
- a failed publish is retried at the same pace, with the then-latest location.

This project models that scheduler in three layers:

- `publishing.dfy`, module `Publishing`: the scheduler as a pure state machine.
  It has one function per entry point and private helper of `TrackingService`:
  `OnLocationResult`, `SetHasNewLocation`, `UpdateLocationIfNeeded`,
  `FinishUpdate` (the tail of the launched job), `OnStartCommand`, `DoStart`,
  `Stop`, `DoStop` and `OnDestroy`. It also holds the invariant `Inv` and the
  event trace `Run`. The state holds the service's four fields and four
  bookkeeping fields:
  - `clock`: the latest reading of the monotonic clock;
  - `starts`: the history of publish starts;
  - `resolved`: how many publishes have run their job tail;
  - `delivered`: the target of the latest publish the store accepted.
- `publishing_facts.dfy`, module `PublishingFacts`: the properties, as lemmas.
- `tracking_service.dfy`, module `Tracking`: class `TrackingService`. It has
  the four fields and the bookkeeping as ghost fields. Each method updates the
  fields in place, the way the Kotlin code does. Each method is specified by
  `Model() == F(old(Model()))` for its function `F` above, and the public
  entry points keep `Valid()`, which is `Inv(Model())`.
- `scenarios.dfy`, module `Scenarios`: concrete runs worked out from a fresh
  service.

Time is an explicit integer `now`. The job tail is one event,
`FinishUpdate(success, now)`. Its `success` is the store's answer, and it may
run only once `now` has reached the job's `earliestNextUpdateTime`. That is
when the coroutine's `delay` returns. The re-invocation of the scheduling step
at the end of the job is a call to the same `UpdateLocationIfNeeded`.

Three quick samples with nothing in flight do not give one publish of the
third. The first changed sample finds the slot free and is published at once
(TrackingService.kt:54, 138, 142-146). The later samples are coalesced into the
next cycle, which starts when that publish's wait ends
(`Scenarios.RepeatedSampleThenNewOne`).

## Model

| member | source | states |
|---|---|---|
| `Tracking.TrackingService.constructor` | app/src/main/java/com/odysseuslarp/dyntarget/TrackingService.kt:45-60 | a new service is not running, knows no location, has nothing pending and nothing in flight, and satisfies the invariant |
| `Tracking.TrackingService.OnLocationResult` | app/src/main/java/com/odysseuslarp/dyntarget/TrackingService.kt:48-57 | the callback's new state is `OnLocationResult` of the old one, and the invariant is kept |
| `Tracking.TrackingService.SetHasNewLocation` | app/src/main/java/com/odysseuslarp/dyntarget/TrackingService.kt:135-140 | the new state is `SetHasNewLocation` of the old one: the flag is raised and a step runs, only if the flag was down; called from a valid state with a monotonic clock, it keeps the invariant |
| `Tracking.TrackingService.UpdateLocationIfNeeded` | app/src/main/java/com/odysseuslarp/dyntarget/TrackingService.kt:141-155 | the new state is `UpdateLocationIfNeeded` of the old one: a free slot with a pending change clears the flag and launches a publish of the last location, anchored at `now + 3000`; called from a valid state, it keeps the invariant |
| `Tracking.TrackingService.FinishUpdate` | app/src/main/java/com/odysseuslarp/dyntarget/TrackingService.kt:146-152 | after the wait, a failure re-raises the flag, the slot is freed, a step runs, and the invariant is kept |
| `Tracking.TrackingService.OnStartCommand` | app/src/main/java/com/odysseuslarp/dyntarget/TrackingService.kt:67-73 | starts only when not running, and keeps the invariant |
| `Tracking.TrackingService.DoStart` | app/src/main/java/com/odysseuslarp/dyntarget/TrackingService.kt:81-96 | sets running only when permission is granted |
| `Tracking.TrackingService.Stop` | app/src/main/java/com/odysseuslarp/dyntarget/TrackingService.kt:75-79 | stops only when running, and keeps the invariant |
| `Tracking.TrackingService.DoStop` | app/src/main/java/com/odysseuslarp/dyntarget/TrackingService.kt:98-103 | clears running and nothing else |
| `Tracking.TrackingService.OnDestroy` | app/src/main/java/com/odysseuslarp/dyntarget/TrackingService.kt:105-109 | clears running whatever the state, and keeps the invariant |
| `Publishing.OnLocationResult` | app/src/main/java/com/odysseuslarp/dyntarget/TrackingService.kt:48-57 | a result with a location makes it the last location, one without changes nothing; the running flag, the resolved count and the store are untouched; at most one start, carrying the sample, is added |
| `Publishing.SetHasNewLocation` | app/src/main/java/com/odysseuslarp/dyntarget/TrackingService.kt:135-140 | afterwards a change is pending, or a publish is in flight, or no location is known; the last location and running flag are untouched |
| `Publishing.UpdateLocationIfNeeded` | app/src/main/java/com/odysseuslarp/dyntarget/TrackingService.kt:141-155 | the step leaves the last location, the running flag and the store alone, and adds at most one start, at `now` and carrying the last location |
| `Publishing.FinishUpdate` | app/src/main/java/com/odysseuslarp/dyntarget/TrackingService.kt:146-152 | the job tail counts one more resolved publish, records a success as the store's content, and leaves a publish in flight exactly when the publish failed or a change was pending, and a location is known |
| `Publishing.Init` | app/src/main/java/com/odysseuslarp/dyntarget/TrackingService.kt:45-60 | a new service is not running, knows no location, has nothing pending, nothing in flight and no publish history |
| `Publishing.DoStart` | app/src/main/java/com/odysseuslarp/dyntarget/TrackingService.kt:81-96 | running is set exactly when permission is granted or it was already set; nothing else changes |
| `Publishing.OnStartCommand` | app/src/main/java/com/odysseuslarp/dyntarget/TrackingService.kt:67-73 | a start while running changes nothing; otherwise running becomes the permission; nothing else changes |
| `Publishing.DoStop` | app/src/main/java/com/odysseuslarp/dyntarget/TrackingService.kt:98-103 | running is cleared and nothing else, the in-flight job included, changes |
| `Publishing.Stop` | app/src/main/java/com/odysseuslarp/dyntarget/TrackingService.kt:75-79 | afterwards the service is not running; a stop while stopped changes nothing; nothing but running changes |
| `Publishing.OnDestroy` | app/src/main/java/com/odysseuslarp/dyntarget/TrackingService.kt:105-109 | afterwards the service is not running, whatever the state; nothing but running changes |
| `PublishingFacts.SampleBecomesLastLocation` | app/src/main/java/com/odysseuslarp/dyntarget/TrackingService.kt:50-54 | a sample always becomes the last location; a repeat changes nothing; a new sample is pending or launched at once; the flag rises only for a new sample; an in-flight job is untouched |
| `PublishingFacts.EmptyResultIgnored` | app/src/main/java/com/odysseuslarp/dyntarget/TrackingService.kt:50 | a result without a location changes nothing |
| `PublishingFacts.SetHasNewLocationIdempotent` | app/src/main/java/com/odysseuslarp/dyntarget/TrackingService.kt:135-140 | with the flag already up, nothing happens |
| `PublishingFacts.ScheduleLaunchesOnlyIntoFreeSlot` | app/src/main/java/com/odysseuslarp/dyntarget/TrackingService.kt:142-147 | a publish starts if and only if the slot is free, a change is pending and a location is known; it then takes the slot, clears the flag and carries the last location; with the slot taken nothing changes |
| `PublishingFacts.ScheduleWithoutLocation` | app/src/main/java/com/odysseuslarp/dyntarget/TrackingService.kt:143-145 | with no known location a step launches nothing but still clears the flag |
| `PublishingFacts.LifecycleGuards` | app/src/main/java/com/odysseuslarp/dyntarget/TrackingService.kt:67-109 | of `OnStartCommand`, `Stop` and `OnDestroy`: start while running and stop while stopped are no-ops; start sets running only with permission; stop and destroy clear running and leave the in-flight job alone |
| `PublishingFacts.InitEstablishesInv` | app/src/main/java/com/odysseuslarp/dyntarget/TrackingService.kt:45-60 | the initial state `Init` satisfies the invariant |
| `PublishingFacts.PacedAppend` | app/src/main/java/com/odysseuslarp/dyntarget/TrackingService.kt:144 | a start at least one interval after the last one keeps the history paced |
| `PublishingFacts.SetHasNewLocationKeepsInv` | app/src/main/java/com/odysseuslarp/dyntarget/TrackingService.kt:135-155 | raising the flag from a valid state, with the clock not running backwards, keeps the invariant |
| `PublishingFacts.SettledStepIsNoOp` | app/src/main/java/com/odysseuslarp/dyntarget/TrackingService.kt:141-142 | from a valid state a scheduling step changes nothing: either the slot is taken or nothing is pending |
| `PublishingFacts.LocationResultKeepsInv` | app/src/main/java/com/odysseuslarp/dyntarget/TrackingService.kt:48-57 | the location callback preserves exclusivity, pacing, and the no-stuck and convergence clauses |
| `PublishingFacts.FinishUpdateKeepsInv` | app/src/main/java/com/odysseuslarp/dyntarget/TrackingService.kt:147-151 | the job tail preserves the invariant, whatever the store answered |
| `PublishingFacts.ApplyKeepsInv` | app/src/main/java/com/odysseuslarp/dyntarget/TrackingService.kt:48-155 | every possible event preserves the invariant |
| `PublishingFacts.RunKeepsInv` | app/src/main/java/com/odysseuslarp/dyntarget/TrackingService.kt:48-155 | every state reachable by a sequence of possible events satisfies the invariant |
| `PublishingFacts.StartsAreSerialized` | app/src/main/java/com/odysseuslarp/dyntarget/TrackingService.kt:142-151 | an event starts at most one publish, only after every earlier publish has run its job tail, and at least 3000 after the previous start |
| `PublishingFacts.PacedSpread` | app/src/main/java/com/odysseuslarp/dyntarget/TrackingService.kt:30 | in a paced history, starts `j - i` apart are at least `(j - i) * 3000` apart |
| `PublishingFacts.HistoryGuarantees` | app/src/main/java/com/odysseuslarp/dyntarget/TrackingService.kt:141-155 | from a fresh service, any history leaves at most one publish in flight, all starts pairwise at least 3000 apart, and, when idle, nothing pending and the store holding the last location |
| `PublishingFacts.FailureRetries` | app/src/main/java/com/odysseuslarp/dyntarget/TrackingService.kt:148-151 | a failed publish's tail starts a new publish of the then-latest location, with no new sample needed, at least 3000 after the failed start |
| `PublishingFacts.LatestLocationWins` | app/src/main/java/com/odysseuslarp/dyntarget/TrackingService.kt:147-151 | when a publish ends, either it succeeded with nothing newer and the store holds the latest location, or a publish of the latest location starts at once |
| `PublishingFacts.CoalescedDuringFlight` | app/src/main/java/com/odysseuslarp/dyntarget/TrackingService.kt:142 | samples arriving mid-flight leave the job and the history alone, the last one becomes the last location, and the invariant holds |
| `Scenarios.RepeatedSampleThenNewOne` | app/src/main/java/com/odysseuslarp/dyntarget/TrackingService.kt:48-155 | samples (1,1), (1,1), (2,2) at 0, 10 and 20 ms: (1,1) is published at 0, and (2,2) at 3000 |
| `Scenarios.FailedPublishRetried` | app/src/main/java/com/odysseuslarp/dyntarget/TrackingService.kt:148-151 | a failure at 0 is retried with the same location at 3000 |
| `Scenarios.EarlyFinishImpossible` | app/src/main/java/com/odysseuslarp/dyntarget/TrackingService.kt:148 | after a start, a job tail at 50 for a publish anchored at 3000 cannot happen |
| `Scenarios.SlowStoreThenNewSample` | app/src/main/java/com/odysseuslarp/dyntarget/TrackingService.kt:147-151 | a store that answers at 4000 lets the mid-flight sample start at 4000 with no further wait |
| `Scenarios.StopDoesNotCancel` | app/src/main/java/com/odysseuslarp/dyntarget/TrackingService.kt:98-103 | a stop during a flight clears running, but a failed publish is still retried |

## Left out

- Notification channel and notification building (TrackingService.kt:111-133), the binder, and foreground promotion: Android plumbing with no scheduling logic.
- Subscribing to and unsubscribing from the fused location provider: the provider is an outside caller of `OnLocationResult`. The location permission check is the boolean `hasPermission`, and the self-stop without permission changes no modelled state.
- `OnLocationResult` does not require `running`. The source does not check it either; only the subscription keeps samples from arriving while stopped.
- The Firestore write `updateLocation`: a foreign asynchronous call. Its outcome is the `success` argument of `FinishUpdate`. The bookkeeping field `delivered` records a success when the job tail runs, not at the moment the store answers; the service cannot observe the difference.
- Coroutines, `MainScope`, `delay` and `SystemClock`. All entry points run on the main thread, so each is one atomic step. The clock is the argument `now`, and the timed entry points require `now` to be at least the previous clock reading, because `elapsedRealtime` is monotonic. `FinishUpdate` requires that the wait up to `earliestNextUpdateTime` is over.
- Floating-point coordinates of `GeoPoint`: only equality is used, so integer pairs stand in for them.
- LiveData observation of `running` and `lastLocation`: these are plain fields.
- MainActivity.kt is not part of this model. It is UI, permission and service-binding wiring.
