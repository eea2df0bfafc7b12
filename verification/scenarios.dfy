/**
  Concrete runs of the scheduler, worked out from a fresh service at time 0.
 */
module Scenarios {
  import opened Publishing

  /**
    Three samples 10 ms apart, the first two equal. The first one finds the slot
    free and is published at once; the repeat changes nothing; the third is held
    back until that publish's job tail, which publishes it at time 3000.
   */
  lemma RepeatedSampleThenNewOne()
    ensures var s := Run(Init(0), [StartCommand(true),
                                   LocationResult(Some(GeoPoint(1, 1)), 0),
                                   LocationResult(Some(GeoPoint(1, 1)), 10),
                                   LocationResult(Some(GeoPoint(2, 2)), 20)]);
            s.Some?
            && s.value.starts == [Start(0, GeoPoint(1, 1))]
            && s.value.hasNewLocation
            && s.value.lastLocation == Some(GeoPoint(2, 2))
    ensures var s := Run(Init(0), [StartCommand(true),
                                   LocationResult(Some(GeoPoint(1, 1)), 0),
                                   LocationResult(Some(GeoPoint(1, 1)), 10),
                                   LocationResult(Some(GeoPoint(2, 2)), 20),
                                   UpdateFinished(true, 3000)]);
            s.Some?
            && s.value.starts == [Start(0, GeoPoint(1, 1)), Start(3000, GeoPoint(2, 2))]
  {
  }

  /** A failed publish at time 0 is retried with the same location once its wait ends at 3000. */
  lemma FailedPublishRetried()
    ensures var s := Run(Init(0), [StartCommand(true),
                                   LocationResult(Some(GeoPoint(5, 5)), 0),
                                   UpdateFinished(false, 3000)]);
            s.Some?
            && s.value.starts == [Start(0, GeoPoint(5, 5)), Start(3000, GeoPoint(5, 5))]
            && s.value.currentUpdateJob == Some(Job(GeoPoint(5, 5), 6000))
  {
  }

  /** After a start, the job tail of a publish launched at 0 cannot run at 50, before its wait ends at 3000. */
  lemma EarlyFinishImpossible()
    ensures Run(Init(0), [StartCommand(true),
                          LocationResult(Some(GeoPoint(5, 5)), 0),
                          UpdateFinished(false, 50)]).None?
  {
  }

  /**
    A slow store: a sample arriving mid-flight is published the moment the
    first publish ends at 4000, with no further wait.
   */
  lemma SlowStoreThenNewSample()
    ensures var s := Run(Init(0), [StartCommand(true),
                                   LocationResult(Some(GeoPoint(1, 1)), 0),
                                   LocationResult(Some(GeoPoint(2, 2)), 500),
                                   UpdateFinished(true, 4000)]);
            s.Some?
            && s.value.starts == [Start(0, GeoPoint(1, 1)), Start(4000, GeoPoint(2, 2))]
            && s.value.delivered == Some(GeoPoint(1, 1))
  {
  }

  /**
    Stopping while a publish is in flight clears the running flag at once but
    leaves the publish alone; if it fails, its job tail still starts a retry.
   */
  lemma StopDoesNotCancel()
    ensures var s := Run(Init(0), [StartCommand(true),
                                   LocationResult(Some(GeoPoint(1, 1)), 0),
                                   StopCalled,
                                   UpdateFinished(false, 3000)]);
            s.Some?
            && !s.value.running
            && s.value.starts == [Start(0, GeoPoint(1, 1)), Start(3000, GeoPoint(1, 1))]
  {
  }
}
