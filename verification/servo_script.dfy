/**
  The stand-alone `servo.py` script. Its helpers are the controller's with
  fixed settings: the servo table `SERVO_CONFIG` is `DefaultServoConfig`, the
  tilt duty runs from 2.5 to 10.0, and the angle file is `file`. `Run` is
  the command line after `argparse` has converted `--servo`, `--angle` and
  `--offset` (`None` when an option is absent).
*/
module ServoScript {
  import opened Wrappers
  import opened Motion
  import opened AngleFile
  import opened ServoControl

  const MinDuty: real := 2.5
  const MaxDuty: real := 10.0
  const NoTargetMessage := "You must specify either --angle (absolute) or --offset (relative)"

  /** What the script drives: one held pan duty, or a tilt sweep with one duty per angle. */
  datatype Drive = PanDrive(duty: real, moveTime: real) | TiltDrive(angles: seq<int>, duties: seq<real>)

  /** The angle the script starts from: the stored one, or the servo's default. */
  function StartAngle(file: Option<string>, servo: string, parse: string -> Option<real>): Result<real> {
    ReadAngle(file, servo, DefaultAngle(DefaultServoConfig, servo), parse)
  }

  /** The servo's range: `max_angle` in the servo table. */
  function MaxAngle(servo: string): real {
    if servo == "pan" then DefaultServoConfig.pan.maxAngle else DefaultServoConfig.tilt.maxAngle
  }

  /** The angle asked for: `--angle` when given, else `current + --offset`. */
  function Requested(current: real, angle: Option<real>, offset: Option<real>): real
    requires angle.Some? || offset.Some?
  {
    if angle.Some? then angle.value else current + offset.value
  }

  /** The angle the script moves to and records: the requested one, clamped to the servo's range. */
  function Destination(servo: string, current: real, angle: Option<real>, offset: Option<real>): (r: real)
    requires angle.Some? || offset.Some?
    ensures 0.0 <= r <= MaxAngle(servo)
    ensures 0.0 <= Requested(current, angle, offset) <= MaxAngle(servo) ==> r == Requested(current, angle, offset)
  {
    Clamp(Requested(current, angle, offset), MaxAngle(servo))
  }

  /** The pan branch of `main`: `--angle` through `move_pan_to_absolute`, else `--offset` through `move_pan_by_offset`. */
  method DrivePan(controller: ServoController, start: real, angle: Option<real>, offset: Option<real>,
                  show: real -> string)
    returns (d: Drive, written: Result<()>)
    requires controller.servoConfig == DefaultServoConfig
    requires angle.Some? || offset.Some?
    modifies controller.angleFile
    ensures d.PanDrive?
    ensures d.duty == ForwardDuty <==> Requested(start, angle, offset) > start
    ensures d.moveTime == Abs(Destination("pan", start, angle, offset) - start) / 180.0
    ensures written.Success? <==>
      WriteAngle(old(controller.angleFile.contents), "pan", show(Destination("pan", start, angle, offset))).Success?
    ensures controller.angleFile.contents ==
      AfterWrite(old(controller.angleFile.contents), "pan", show(Destination("pan", start, angle, offset)))
  {
    var duty, moveTime;
    if angle.Some? {
      duty, moveTime, written := controller.MovePanToAbsolute(start, angle.value, show);
    } else {
      duty, moveTime, written := controller.MovePanByOffset(start, offset.value, show);
    }
    d := PanDrive(duty, moveTime);
  }

  /** The tilt branch of `main`: `--angle` through `move_tilt_to_absolute`, else `--offset` through `move_tilt_by_offset`. */
  method DriveTilt(controller: ServoController, start: real, angle: Option<real>, offset: Option<real>,
                   show: real -> string)
    returns (d: Drive, written: Result<()>)
    requires controller.servoConfig == DefaultServoConfig
    requires controller.minDuty == MinDuty && controller.maxDuty == MaxDuty
    requires angle.Some? || offset.Some?
    modifies controller.angleFile
    ensures d.TiltDrive?
    ensures WalksToward(d.angles, Trunc(start), Trunc(Destination("tilt", start, angle, offset)),
                        DefaultServoConfig.tilt.stepSize)
    ensures |d.duties| == |d.angles|
    ensures forall i :: 0 <= i < |d.angles| ==> d.duties[i] == LinearDuty(MinDuty, MaxDuty, d.angles[i] as real)
    ensures written.Success? <==>
      WriteAngle(old(controller.angleFile.contents), "tilt", show(Destination("tilt", start, angle, offset))).Success?
    ensures controller.angleFile.contents ==
      AfterWrite(old(controller.angleFile.contents), "tilt", show(Destination("tilt", start, angle, offset)))
  {
    var goal := Destination("tilt", start, angle, offset);
    SweepWalksToward(start, goal, DefaultServoConfig.tilt.stepSize);
    var angles, duties;
    if angle.Some? {
      angles, duties, written := controller.MoveTiltToAbsolute(start, angle.value, show);
    } else {
      angles, duties, written := controller.MoveTiltByOffset(start, offset.value, show);
    }
    d := TiltDrive(angles, duties);
  }

  /**
    `main`: refuse an unknown servo (argparse) and a command with neither
    `--angle` nor `--offset`; read the current angle; then move the servo,
    `--angle` taking priority over `--offset`, and record where it went.
  */
  method Run(servo: string, angle: Option<real>, offset: Option<real>, file: TextFile,
              parse: string -> Option<real>, show: real -> string)
    returns (r: Result<Drive>)
    modifies file
    ensures !Known(servo) ==> r.Failure? && r.error.ArgumentError? && file.contents == old(file.contents)
    ensures Known(servo) && angle.None? && offset.None? ==>
      r == Failure(ValueError(NoTargetMessage)) && file.contents == old(file.contents)
    ensures Known(servo) && (angle.Some? || offset.Some?) && StartAngle(old(file.contents), servo, parse).Failure? ==>
      r == Failure(StartAngle(old(file.contents), servo, parse).error) && file.contents == old(file.contents)
    ensures Known(servo) && (angle.Some? || offset.Some?) && StartAngle(old(file.contents), servo, parse).Success? ==>
      r.Success?
    ensures r.Success? ==>
      && Known(servo) && (angle.Some? || offset.Some?)
      && StartAngle(old(file.contents), servo, parse).Success?
      && var start := StartAngle(old(file.contents), servo, parse).value;
      && WriteAngle(old(file.contents), servo, show(Destination(servo, start, angle, offset))).Success?
      && file.contents == AfterWrite(old(file.contents), servo, show(Destination(servo, start, angle, offset)))
      && (servo == "pan" ==>
            && r.value.PanDrive?
            && (r.value.duty == ForwardDuty <==> Requested(start, angle, offset) > start)
            && r.value.moveTime == Abs(Destination(servo, start, angle, offset) - start) / 180.0)
      && (servo == "tilt" ==>
            && r.value.TiltDrive?
            && WalksToward(r.value.angles, Trunc(start), Trunc(Destination(servo, start, angle, offset)),
                           DefaultServoConfig.tilt.stepSize)
            && |r.value.duties| == |r.value.angles|
            && (forall i :: 0 <= i < |r.value.angles| ==>
                  r.value.duties[i] == LinearDuty(MinDuty, MaxDuty, r.value.angles[i] as real)))
  {
    if !Known(servo) {
      return Failure(ArgumentError("argument --servo: invalid choice: " + servo));
    }
    if angle.None? && offset.None? {
      return Failure(ValueError(NoTargetMessage));
    }
    var controller := new ServoController(Some(DefaultServoConfig), Some(MinDuty), Some(MaxDuty), file);
    var current := controller.InitializeServo(servo, parse);
    if current.Failure? {
      return Failure(current.error);
    }
    var d, written;
    if servo == "pan" {
      d, written := DrivePan(controller, current.value, angle, offset, show);
    } else {
      d, written := DriveTilt(controller, current.value, angle, offset, show);
    }
    // the write re-reads the file the read just parsed, so it cannot fail here
    assert written.Success?;
    return Success(d);
  }

  /**
    When the stored tilt angle lies in the servo's range, every duty of the
    script's tilt sweep lies between 2.5 and 10.0.
  */
  lemma TiltDutiesInRange(angles: seq<int>, from: int, to: int)
    requires WalksToward(angles, from, to, DefaultServoConfig.tilt.stepSize)
    requires 0 <= from <= 180 && 0 <= to <= 180
    ensures forall i :: 0 <= i < |angles| ==> MinDuty <= LinearDuty(MinDuty, MaxDuty, angles[i] as real) <= MaxDuty
  {
    forall i | 0 <= i < |angles|
      ensures MinDuty <= LinearDuty(MinDuty, MaxDuty, angles[i] as real) <= MaxDuty
    {
      assert Between(angles[i], from, to);
      LinearDutyEnds(MinDuty, MaxDuty, 0.0, angles[i] as real);
      LinearDutyEnds(MinDuty, MaxDuty, angles[i] as real, 180.0);
    }
  }
}
