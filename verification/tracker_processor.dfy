/**
  `TrackerProcessor.process_frame`: trust the visual tracker when its update
  succeeds with at least one box; otherwise run the circle detector and, if
  it finds anything, reset the tracker and seed it with the detected circles.
  Whatever the branch, the frame's result pairs each box returned by this
  frame's update with its distance estimate.
  The update's `(ok, boxes)`, the detector's circles and the library's answer
  to each seeding attempt are inputs of the step.
*/
module TrackerProcessing {
  import opened Wrappers
  import opened Distance
  import opened Tracking

  /** One reported region with its distance estimate. */
  type Report = (Box, Option<real>)

  /** The visual tracker's update is not trusted: it failed or returned no box. */
  predicate NeedsDetection(ok: bool, boxes: seq<Box>) {
    !ok || |boxes| == 0
  }

  /** The result list: each box paired with its distance estimate, in order. */
  function Reports(cal: Calibration, boxes: seq<Box>, frameWidth: int, frameHeight: int): (rs: seq<Report>)
    requires frameWidth > 0 && frameHeight > 0
    ensures |rs| == |boxes|
    ensures forall i :: 0 <= i < |boxes| ==>
      rs[i] == (boxes[i], CalculateDistance(cal, boxes[i].w, boxes[i].h, frameWidth as real, frameHeight as real))
    decreases |boxes|
  {
    if boxes == [] then []
    else
      var n := |boxes| - 1;
      Reports(cal, boxes[..n], frameWidth, frameHeight)
        + [(boxes[n], CalculateDistance(cal, boxes[n].w, boxes[n].h, frameWidth as real, frameHeight as real))]
  }

  /** What one frame does: the tracker's seeds afterwards, the result list, the seeding warnings, and whether the detector ran. */
  datatype Outcome = Outcome(seeds: seq<Box>, results: seq<Report>, warnings: seq<Circle>, detectorRan: bool)

  /** The per-frame reconciliation, starting from the tracker seeded with `seeds`. */
  function Reconcile(cal: Calibration, seeds: seq<Box>, frameWidth: int, frameHeight: int,
                     ok: bool, boxes: seq<Box>, detected: seq<Circle>, accepted: seq<bool>): (o: Outcome)
    requires frameWidth > 0 && frameHeight > 0
    requires |accepted| == |detected|
    ensures o.detectorRan <==> !ok || boxes == []
    ensures |o.results| == |boxes|
    // the tracker is only ever reseeded after a detection that found circles
    ensures o.seeds != seeds || o.warnings != [] ==> o.detectorRan && |detected| > 0
  {
    var redetect := NeedsDetection(ok, boxes);
    var reseed := redetect && |detected| > 0;
    Outcome(
      if reseed then AcceptedSeeds(detected, accepted, frameWidth, frameHeight) else seeds,
      Reports(cal, boxes, frameWidth, frameHeight),
      if reseed then Rejected(detected, accepted) else [],
      redetect)
  }

  /** A successful update with boxes is trusted: no detection, no reset, no seeding. */
  lemma TrustedUpdateKeepsTracker(cal: Calibration, seeds: seq<Box>, frameWidth: int, frameHeight: int,
                                  boxes: seq<Box>, detected: seq<Circle>, accepted: seq<bool>)
    requires frameWidth > 0 && frameHeight > 0 && |accepted| == |detected|
    requires |boxes| > 0
    ensures var o := Reconcile(cal, seeds, frameWidth, frameHeight, true, boxes, detected, accepted);
      !o.detectorRan && o.seeds == seeds && o.warnings == []
  {
  }

  /**
    A failed or empty update runs the detector; when it finds circles the
    tracker is reset and then seeded with every circle, in order.
  */
  lemma UntrustedUpdateReseeds(cal: Calibration, seeds: seq<Box>, frameWidth: int, frameHeight: int,
                               ok: bool, boxes: seq<Box>, detected: seq<Circle>, accepted: seq<bool>)
    requires frameWidth > 0 && frameHeight > 0 && |accepted| == |detected|
    requires NeedsDetection(ok, boxes) && |detected| > 0
    ensures var o := Reconcile(cal, seeds, frameWidth, frameHeight, ok, boxes, detected, accepted);
      && o.detectorRan
      && o.seeds == AcceptedSeeds(detected, accepted, frameWidth, frameHeight)
      && |o.seeds| + |o.warnings| == |detected|
  {
    EveryCircleAttempted(detected, accepted, frameWidth, frameHeight);
  }

  /** A detection that finds nothing leaves the tracker as it was. */
  lemma EmptyDetectionIsQuiescent(cal: Calibration, seeds: seq<Box>, frameWidth: int, frameHeight: int,
                                  ok: bool, boxes: seq<Box>)
    requires frameWidth > 0 && frameHeight > 0
    ensures var o := Reconcile(cal, seeds, frameWidth, frameHeight, ok, boxes, [], []);
      o.seeds == seeds && o.warnings == []
  {
  }

  /**
    The result list reports the boxes of this frame's update and nothing else:
    boxes seeded on this frame are not reported, and boxes returned by an
    update that reported failure are.
  */
  lemma ResultsComeFromUpdate(cal: Calibration, seeds: seq<Box>, frameWidth: int, frameHeight: int,
                              ok: bool, boxes: seq<Box>, detected: seq<Circle>, accepted: seq<bool>)
    requires frameWidth > 0 && frameHeight > 0 && |accepted| == |detected|
    ensures var o := Reconcile(cal, seeds, frameWidth, frameHeight, ok, boxes, detected, accepted);
      && |o.results| == |boxes|
      && (forall i :: 0 <= i < |boxes| ==> o.results[i].0 == boxes[i])
      && (boxes == [] ==> o.results == [])
  {
  }

  /**
    Detector finds (50, 50, 10) in a 100 x 100 frame after a failed update: the
    tracker is seeded with (40, 40, 20, 20), but nothing is reported yet.
  */
  lemma SeedingFrameScenario(cal: Calibration)
    ensures var first := Reconcile(cal, [], 100, 100, false, [], [Circle(50, 50, 10)], [true]);
      first.seeds == [Box(40.0, 40.0, 20.0, 20.0)] && first.results == []
  {
    var c := Circle(50, 50, 10);
    assert InsideFrame(c, 100, 100);
    assert [c][..0] == [] && [true][..0] == [];
    assert AcceptedSeeds([c], [true], 100, 100) == [SeedBox(c, 100, 100)];
  }

  /** On the next frame, an update that returns the seeded box reports exactly that box with its distance. */
  lemma TrackingFrameScenario(cal: Calibration)
    ensures var second := Reconcile(cal, [Box(40.0, 40.0, 20.0, 20.0)], 100, 100, true, [Box(40.0, 40.0, 20.0, 20.0)], [], []);
      && second.seeds == [Box(40.0, 40.0, 20.0, 20.0)]
      && second.results == [(Box(40.0, 40.0, 20.0, 20.0), CalculateDistance(cal, 20.0, 20.0, 100.0, 100.0))]
  {
    var rs := Reports(cal, [Box(40.0, 40.0, 20.0, 20.0)], 100, 100);
    assert |rs| == 1;
  }

  class TrackerProcessor {
    const cal: Calibration
    const tracker: Tracker

    /** `__init__`: a fresh tracker; the calibration is what the distance calculator reads from the configuration. */
    constructor(cal: Calibration)
      ensures this.cal == cal && fresh(tracker) && tracker.trackers == []
    {
      this.cal := cal;
      tracker := new Tracker();
    }

    /**
      `process_frame` for a `frameWidth` x `frameHeight` frame. `libraryOk` and
      `libraryBoxes` are what the multi-tracker's update returns, `detected` what
      the detector would return, `accepted` the library's answers when seeding.
    */
    method ProcessFrame(frameWidth: int, frameHeight: int, libraryOk: bool, libraryBoxes: seq<Box>,
                        detected: seq<Circle>, accepted: seq<bool>)
      returns (results: seq<Report>, warnings: seq<Circle>, ghost detectorRan: bool)
      requires frameWidth > 0 && frameHeight > 0
      requires |accepted| == |detected|
      modifies tracker
      ensures var o := Reconcile(cal, old(tracker.trackers), frameWidth, frameHeight,
                                 libraryOk, libraryBoxes, detected, accepted);
        && tracker.trackers == o.seeds
        && results == o.results
        && warnings == o.warnings
        && detectorRan == o.detectorRan
    {
      var ok, boxes := tracker.Update(libraryOk, libraryBoxes);
      warnings := [];
      detectorRan := false;
      if !ok || |boxes| == 0 {
        detectorRan := true;
        var circles := detected;
        if |circles| > 0 {
          tracker.ResetTrackers();
          warnings := tracker.AddCirclesToMultitracker(frameWidth, frameHeight, circles, accepted);
        }
      }

      results := [];
      var i := 0;
      while i < |boxes|
        invariant 0 <= i <= |boxes|
        invariant results == Reports(cal, boxes[..i], frameWidth, frameHeight)
      {
        assert boxes[..i + 1][..i] == boxes[..i];
        var b := boxes[i];
        var distance := CalculateDistance(cal, b.w, b.h, frameWidth as real, frameHeight as real);
        results := results + [(b, distance)];
        i := i + 1;
      }
      assert boxes[..i] == boxes;
    }

    /** `reset_trackers`: afterwards nothing is tracked. */
    method ResetTrackers()
      modifies tracker
      ensures tracker.trackers == []
    {
      tracker.ResetTrackers();
    }
  }
}
