/**
  `Tracker`: the wrapper around the multi-object visual tracker. The circle
  detector and the CSRT trackers are external: the multi-tracker is modelled
  as the sequence of boxes it was seeded with, the library's answer to each
  seeding attempt is an input, and so is the result of its `update`.
*/
module Tracking {

  /** A detected circle, in whole pixels (the detector rounds to unsigned 16-bit values). */
  datatype Circle = Circle(cx: int, cy: int, r: int)

  /** An axis-aligned box `(x, y, w, h)` in pixels. */
  datatype Box = Box(x: real, y: real, w: real, h: real)

  /** The circle's bounding square, as the half-open pixel intervals `[cx-r, cx+r)` and `[cy-r, cy+r)`, lies inside the frame. */
  predicate InsideFrame(c: Circle, frameWidth: int, frameHeight: int) {
    c.cx - c.r >= 0 && c.cy - c.r >= 0 && c.cx + c.r <= frameWidth && c.cy + c.r <= frameHeight
  }

  /**
    The seed box for a circle in a `frameWidth` x `frameHeight` frame: the corner
    is moved into the frame and each side is cut so that the box ends inside it.
  */
  function SeedBox(c: Circle, frameWidth: int, frameHeight: int): (b: Box)
    ensures b.x >= 0.0 && b.y >= 0.0
    ensures b.w <= (2 * c.r) as real && b.h <= (2 * c.r) as real
    ensures b.x + b.w <= frameWidth as real && b.y + b.h <= frameHeight as real
    // a circle whose square starts within the frame gives a box that starts within it, with sides of non-negative length
    ensures c.r >= 0 && 0 <= frameWidth && c.cx - c.r <= frameWidth ==> b.x <= frameWidth as real && b.w >= 0.0
    ensures c.r >= 0 && 0 <= frameHeight && c.cy - c.r <= frameHeight ==> b.y <= frameHeight as real && b.h >= 0.0
    ensures InsideFrame(c, frameWidth, frameHeight) ==>
      b == Box((c.cx - c.r) as real, (c.cy - c.r) as real, (2 * c.r) as real, (2 * c.r) as real)
    // it covers the part of the circle's bounding square that lies in the frame
    ensures c.r >= 0 ==> b.x <= (if c.cx - c.r < 0 then 0 else c.cx - c.r) as real
    ensures c.r >= 0 ==> b.y <= (if c.cy - c.r < 0 then 0 else c.cy - c.r) as real
    ensures c.r >= 0 ==> b.x + b.w >= (if c.cx + c.r < frameWidth then c.cx + c.r else frameWidth) as real
    ensures c.r >= 0 ==> b.y + b.h >= (if c.cy + c.r < frameHeight then c.cy + c.r else frameHeight) as real
  {
    var x0 := if 0 >= c.cx - c.r then 0 else c.cx - c.r;
    var y0 := if 0 >= c.cy - c.r then 0 else c.cy - c.r;
    var w0 := if 2 * c.r <= frameWidth - x0 then 2 * c.r else frameWidth - x0;
    var h0 := if 2 * c.r <= frameHeight - y0 then 2 * c.r else frameHeight - y0;
    Box(x0 as real, y0 as real, w0 as real, h0 as real)
  }

  /** The seed boxes of the circles the library accepted, in input order. */
  function AcceptedSeeds(circles: seq<Circle>, accepted: seq<bool>, frameWidth: int, frameHeight: int): (s: seq<Box>)
    requires |accepted| == |circles|
    ensures |s| <= |circles|
    decreases |circles|
  {
    if circles == [] then []
    else
      var n := |circles| - 1;
      AcceptedSeeds(circles[..n], accepted[..n], frameWidth, frameHeight)
        + (if accepted[n] then [SeedBox(circles[n], frameWidth, frameHeight)] else [])
  }

  /** The circles whose seeding the library rejected, in input order: one warning each. */
  function Rejected(circles: seq<Circle>, accepted: seq<bool>): (s: seq<Circle>)
    requires |accepted| == |circles|
    ensures |s| <= |circles|
    decreases |circles|
  {
    if circles == [] then []
    else
      var n := |circles| - 1;
      Rejected(circles[..n], accepted[..n]) + (if accepted[n] then [] else [circles[n]])
  }

  /** Every circle is attempted once: each is either seeded or warned about, never both. */
  lemma {:induction false} EveryCircleAttempted(circles: seq<Circle>, accepted: seq<bool>, frameWidth: int, frameHeight: int)
    requires |accepted| == |circles|
    ensures |AcceptedSeeds(circles, accepted, frameWidth, frameHeight)| + |Rejected(circles, accepted)| == |circles|
    decreases |circles|
  {
    if circles != [] {
      var n := |circles| - 1;
      EveryCircleAttempted(circles[..n], accepted[..n], frameWidth, frameHeight);
    }
  }

  /** When the library accepts every seed, the tracker is seeded with every circle's box, in order. */
  lemma {:induction false} AllAcceptedSeedsAll(circles: seq<Circle>, accepted: seq<bool>, frameWidth: int, frameHeight: int)
    requires |accepted| == |circles|
    requires forall i :: 0 <= i < |accepted| ==> accepted[i]
    ensures |AcceptedSeeds(circles, accepted, frameWidth, frameHeight)| == |circles|
    ensures forall i :: 0 <= i < |circles| ==>
      AcceptedSeeds(circles, accepted, frameWidth, frameHeight)[i] == SeedBox(circles[i], frameWidth, frameHeight)
    decreases |circles|
  {
    if circles != [] {
      var n := |circles| - 1;
      AllAcceptedSeedsAll(circles[..n], accepted[..n], frameWidth, frameHeight);
    }
  }

  class Tracker {
    /** The boxes the multi-tracker has been seeded with since it was last created. */
    var trackers: seq<Box>

    /** `__init__`: a fresh, empty multi-tracker. */
    constructor()
      ensures trackers == []
    {
      trackers := [];
    }

    /** `reset_trackers`: replace the multi-tracker by a fresh, empty one. */
    method ResetTrackers()
      modifies this
      ensures trackers == []
    {
      trackers := [];
    }

    /**
      `add_circles_to_multitracker`: one seeding attempt per circle, in order;
      `accepted[i]` is what the library answered for circle i. A rejection only
      produces a warning (returned here) and later circles are still attempted.
    */
    method AddCirclesToMultitracker(frameWidth: int, frameHeight: int, circles: seq<Circle>, accepted: seq<bool>)
      returns (warnings: seq<Circle>)
      requires |accepted| == |circles|
      modifies this
      ensures trackers == old(trackers) + AcceptedSeeds(circles, accepted, frameWidth, frameHeight)
      ensures warnings == Rejected(circles, accepted)
    {
      warnings := [];
      var i := 0;
      while i < |circles|
        invariant 0 <= i <= |circles|
        invariant trackers == old(trackers) + AcceptedSeeds(circles[..i], accepted[..i], frameWidth, frameHeight)
        invariant warnings == Rejected(circles[..i], accepted[..i])
      {
        assert circles[..i + 1][..i] == circles[..i];
        assert accepted[..i + 1][..i] == accepted[..i];
        var bbox := SeedBox(circles[i], frameWidth, frameHeight);
        if accepted[i] {
          trackers := trackers + [bbox];
        } else {
          warnings := warnings + [circles[i]];
        }
        i := i + 1;
      }
      assert circles[..i] == circles;
      assert accepted[..i] == accepted;
    }

    /** `update`: the multi-tracker's own `(ok, boxes)`, passed through unchanged. */
    method Update(libraryOk: bool, libraryBoxes: seq<Box>) returns (ok: bool, boxes: seq<Box>)
      ensures ok == libraryOk && boxes == libraryBoxes
    {
      ok, boxes := libraryOk, libraryBoxes;
    }
  }
}
