/**
  The arithmetic the three servo scripts share: Python's `int()` on a float,
  the `range(start, stop, step)` a tilt move walks through, the clamp of a
  requested angle into `[0, max_angle]`, the pan move's duty and time, the
  linear angle-to-duty map, and the servo settings table with its defaults.
  Floats are modelled as reals, without rounding.
*/
module Motion {
  import opened Wrappers

  /** Python's `int(x)` for a float: the integer part, truncated toward zero. */
  function Trunc(x: real): (n: int)
    ensures 0.0 <= x ==> 0 <= n && n as real <= x < n as real + 1.0
    ensures x < 0.0 ==> n <= 0 && n as real - 1.0 < x <= n as real
  {
    if x >= 0.0 then x.Floor else -((-x).Floor)
  }

  /** `int()` never reverses the order of two floats. */
  lemma TruncMonotone(x: real, y: real)
    requires x <= y
    ensures Trunc(x) <= Trunc(y)
  {
  }

  /** The values `start, start + step, ...` that lie strictly before `stop` in the step's direction. */
  function Progression(start: int, stop: int, step: int): (s: seq<int>)
    requires step != 0
    // empty exactly when `start` is not before `stop` in the step's direction; otherwise it begins at `start`
    ensures s == [] <==> (step > 0 && start >= stop) || (step < 0 && start <= stop)
    ensures s != [] ==> s[0] == start
    decreases if step > 0 then stop - start else start - stop
  {
    if (step > 0 && start < stop) || (step < 0 && start > stop) then [start] + Progression(start + step, stop, step)
    else []
  }

  /** Python's `range(start, stop, step)`, as the values it yields; a zero step raises `ValueError`. */
  function Range(start: int, stop: int, step: int): (r: Result<seq<int>>)
    ensures r.Failure? <==> step == 0
    ensures r.Failure? ==> r.error.ValueError?
  {
    if step == 0 then Failure(ValueError("range() arg 3 must not be zero"))
    else Success(Progression(start, stop, step))
  }

  /** `x` lies between `a` and `b`, whichever of the two is larger. */
  predicate Between(x: int, a: int, b: int) {
    (a <= x <= b) || (b <= x <= a)
  }

  /**
    `angles` walks from `from` toward `to` in strides of `step` (> 0): it
    starts at `from`, each angle is one stride nearer `to` than the one
    before, none lies beyond `to`, and the last is less than a stride short of it.
  */
  predicate WalksToward(angles: seq<int>, from: int, to: int, step: int) {
    && angles != []
    && angles[0] == from
    && (forall i :: 0 <= i < |angles| ==> Between(angles[i], from, to))
    && (forall i :: 0 < i < |angles| ==> angles[i] == angles[i - 1] + (if from <= to then step else -step))
    && (if from <= to then to - angles[|angles| - 1] < step else angles[|angles| - 1] - to < step)
  }

  /**
    A positive-step `range` from `start` up to `stop`: starts at `start`, climbs
    by `step`, stays below `stop`, and stops less than a stride before it.
  */
  lemma {:induction false} ProgressionUp(start: int, stop: int, step: int)
    requires step > 0
    ensures Progression(start, stop, step) != [] <==> start < stop
    ensures Progression(start, stop, step) != [] ==> Progression(start, stop, step)[0] == start
    ensures forall i :: 0 <= i < |Progression(start, stop, step)| ==>
      start <= Progression(start, stop, step)[i] < stop
    ensures forall i :: 0 < i < |Progression(start, stop, step)| ==>
      Progression(start, stop, step)[i] == Progression(start, stop, step)[i - 1] + step
    ensures Progression(start, stop, step) != [] ==>
      stop <= Progression(start, stop, step)[|Progression(start, stop, step)| - 1] + step
    decreases stop - start
  {
    if start < stop {
      ProgressionUp(start + step, stop, step);
      var rest := Progression(start + step, stop, step);
      assert Progression(start, stop, step) == [start] + rest;
    }
  }

  /** The same for a negative step, going down from `start` to just above `stop`. */
  lemma {:induction false} ProgressionDown(start: int, stop: int, step: int)
    requires step < 0
    ensures Progression(start, stop, step) != [] <==> start > stop
    ensures Progression(start, stop, step) != [] ==> Progression(start, stop, step)[0] == start
    ensures forall i :: 0 <= i < |Progression(start, stop, step)| ==>
      stop < Progression(start, stop, step)[i] <= start
    ensures forall i :: 0 < i < |Progression(start, stop, step)| ==>
      Progression(start, stop, step)[i] == Progression(start, stop, step)[i - 1] + step
    ensures Progression(start, stop, step) != [] ==>
      Progression(start, stop, step)[|Progression(start, stop, step)| - 1] + step <= stop
    decreases start - stop
  {
    if start > stop {
      ProgressionDown(start + step, stop, step);
      var rest := Progression(start + step, stop, step);
      assert Progression(start, stop, step) == [start] + rest;
    }
  }

  /**
    The integer angles a tilt move commands on its way from `current` to
    `target`: `range(int(current), int(target) + 1, step)` when the target is
    above, else `range(int(current), int(target) - 1, -step)`.
  */
  function Sweep(current: real, target: real, step: int): (r: Result<seq<int>>)
    ensures r.Failure? <==> step == 0
  {
    if target > current then Range(Trunc(current), Trunc(target) + 1, step)
    else Range(Trunc(current), Trunc(target) - 1, -step)
  }

  /**
    With a positive step the sweep starts at `int(current)`, moves one stride
    at a time toward `int(target)`, never passes it, and ends less than a
    stride short of it.
  */
  lemma SweepWalksToward(current: real, target: real, step: int)
    requires step > 0
    ensures Sweep(current, target, step).Success?
    ensures WalksToward(Sweep(current, target, step).value, Trunc(current), Trunc(target), step)
  {
    var from, to := Trunc(current), Trunc(target);
    if target > current {
      TruncMonotone(current, target);
      ProgressionUp(from, to + 1, step);
    } else {
      TruncMonotone(target, current);
      ProgressionDown(from, to - 1, -step);
    }
  }

  /** When both angles have the same integer part, the sweep is that single angle. */
  lemma SweepSameWholeAngle(current: real, target: real, step: int)
    requires step > 0 && Trunc(current) == Trunc(target)
    ensures Sweep(current, target, step) == Success([Trunc(current)])
  {
    var a := Trunc(current);
    if target > current {
      assert Sweep(current, target, step) == Range(a, a + 1, step);
      assert Progression(a, a + 1, step) == [a] + Progression(a + step, a + 1, step);
      assert Progression(a + step, a + 1, step) == [];
      assert Progression(a, a + 1, step) == [a];
      assert Range(a, a + 1, step) == Success([a]);
    } else {
      assert Sweep(current, target, step) == Range(a, a - 1, -step);
      assert Progression(a, a - 1, -step) == [a] + Progression(a - step, a - 1, -step);
      assert Progression(a - step, a - 1, -step) == [];
      assert Progression(a, a - 1, -step) == [a];
      assert Range(a, a - 1, -step) == Success([a]);
    }
  }

  /** A non-positive step that is not zero yields an empty range: the servo is not moved at all. */
  lemma SweepNegativeStep(current: real, target: real, step: int)
    requires step < 0
    ensures Sweep(current, target, step) == Success([])
  {
    if target > current {
      TruncMonotone(current, target);
      ProgressionDown(Trunc(current), Trunc(target) + 1, step);
    } else {
      TruncMonotone(target, current);
      ProgressionUp(Trunc(current), Trunc(target) - 1, -step);
    }
  }

  /** `max(0, min(hi, x))`: the requested angle pulled into `[0, hi]`. */
  function Clamp(x: real, hi: real): (r: real)
    ensures 0.0 <= hi ==> 0.0 <= r <= hi
    ensures 0.0 <= x <= hi ==> r == x
    ensures 0.0 <= hi ==> (x < 0.0 ==> r == 0.0) && (x > hi ==> r == hi)
  {
    var low := if x < hi then x else hi;
    if low > 0.0 then low else 0.0
  }

  /** Clamping an angle that is already clamped changes nothing. */
  lemma ClampIdempotent(x: real, hi: real)
    requires 0.0 <= hi
    ensures Clamp(Clamp(x, hi), hi) == Clamp(x, hi)
  {
  }

  /** One servo's entry in the settings table. */
  datatype PanSettings = PanSettings(pin: int, defaultAngle: real, fullSweepTime: real, maxAngle: real)
  datatype TiltSettings = TiltSettings(pin: int, defaultAngle: real, stepSize: int, delaySec: real, maxAngle: real)

  /** The settings table, with its two entries `pan` and `tilt`. */
  datatype ServoConfig = ServoConfig(pan: PanSettings, tilt: TiltSettings)

  /** The built-in table: pan on pin 15 over 360 degrees, tilt on pin 14 over 180 degrees in steps of 2. */
  const DefaultServoConfig := ServoConfig(PanSettings(15, 0.0, 1.0, 360.0), TiltSettings(14, 0.0, 2, 0.1, 180.0))

  /** The servo names the table knows. */
  predicate Known(name: string) {
    name == "pan" || name == "tilt"
  }

  /** `servo_config[name]["default_angle"]`, a `KeyError` for a name the table does not hold. */
  function DefaultAngle(config: ServoConfig, name: string): (r: Result<real>)
    ensures r.Success? <==> Known(name)
    ensures name == "pan" ==> r == Success(config.pan.defaultAngle)
    ensures name == "tilt" ==> r == Success(config.tilt.defaultAngle)
  {
    if name == "pan" then Success(config.pan.defaultAngle)
    else if name == "tilt" then Success(config.tilt.defaultAngle)
    else Failure(KeyError(name))
  }

  /** The duty cycles that drive the (continuous) pan servo one way or the other. */
  const ForwardDuty: real := 7.809
  const BackwardDuty: real := 6.434

  /** What a pan move does: the angle it records, the duty it sets and how long it holds it. */
  datatype PanMove = PanMove(target: real, duty: real, moveTime: real)

  function Abs(x: real): real {
    if x < 0.0 then -x else x
  }

  /** `move_pan_by_offset`'s arithmetic. */
  function PanPlan(pan: PanSettings, current: real, offset: real): (m: PanMove)
    ensures 0.0 <= pan.maxAngle ==> 0.0 <= m.target <= pan.maxAngle
    ensures 0.0 <= current + offset <= pan.maxAngle ==> m.target == current + offset
    ensures m.duty == ForwardDuty <==> offset > 0.0
    ensures m.duty == ForwardDuty || m.duty == BackwardDuty
    ensures 0.0 <= pan.fullSweepTime ==> 0.0 <= m.moveTime
  {
    var target := Clamp(current + offset, pan.maxAngle);
    var moveTime := (Abs(target - current) / 180.0) * pan.fullSweepTime;
    PanMove(target, if offset > 0.0 then ForwardDuty else BackwardDuty, moveTime)
  }

  /**
    The pan servo turns for a time proportional to the angle it covers, a
    whole `fullSweepTime` per 180 degrees; a move that stays put takes no time.
  */
  lemma PanTimeIsProportional(pan: PanSettings, current: real, offset: real)
    ensures PanPlan(pan, current, offset).moveTime * 180.0
      == Abs(PanPlan(pan, current, offset).target - current) * pan.fullSweepTime
    ensures PanPlan(pan, current, offset).target == current ==> PanPlan(pan, current, offset).moveTime == 0.0
  {
    var target := Clamp(current + offset, pan.maxAngle);
    var d := Abs(target - current);
    assert (d / 180.0) * pan.fullSweepTime * 180.0 == d * pan.fullSweepTime;
  }

  /**
    `move_*_to_absolute` passes the offset `target - current`: the recorded
    angle is the requested one clamped, and the pan is driven forward exactly
    when the request lies above the current angle.
  */
  lemma AbsoluteMoveTargetsRequest(pan: PanSettings, current: real, target: real)
    ensures PanPlan(pan, current, target - current).target == Clamp(target, pan.maxAngle)
    ensures PanPlan(pan, current, target - current).duty == ForwardDuty <==> target > current
  {
  }

  /** `min_duty + (max_duty - min_duty) * (angle / 180)`. */
  function LinearDuty(minDuty: real, maxDuty: real, angle: real): (duty: real)
    ensures minDuty <= maxDuty && 0.0 <= angle <= 180.0 ==> minDuty <= duty <= maxDuty
  {
    var span := maxDuty - minDuty;
    var t := angle / 180.0;
    assert 0.0 <= span && 0.0 <= t <= 1.0 ==> 0.0 <= span * t <= span by {
      if 0.0 <= span && 0.0 <= t <= 1.0 {
        assert span * (1.0 - t) >= 0.0;
      }
    }
    minDuty + span * t
  }

  /** The duty map sends 0 degrees to `minDuty`, 180 degrees to `maxDuty`, and preserves order in between. */
  lemma LinearDutyEnds(minDuty: real, maxDuty: real, a: real, b: real)
    ensures LinearDuty(minDuty, maxDuty, 0.0) == minDuty
    ensures LinearDuty(minDuty, maxDuty, 180.0) == maxDuty
    ensures minDuty <= maxDuty && a <= b ==> LinearDuty(minDuty, maxDuty, a) <= LinearDuty(minDuty, maxDuty, b)
  {
    if minDuty <= maxDuty && a <= b {
      var span := maxDuty - minDuty;
      assert span * (b / 180.0) - span * (a / 180.0) == span * ((b - a) / 180.0);
      assert span * ((b - a) / 180.0) >= 0.0;
    }
  }
}
