/**
  `ServoController`: the pan/tilt helper configured from the application's
  settings. GPIO set-up, the PWM objects and `time.sleep` are left out: a
  move returns the duty cycles it sets (and, for the pan, how long it holds
  its duty), and the angle file is the object `angleFile`. `str(angle)` and
  `float(text)` are the parameters `show` and `parse`.
*/
module ServoControl {
  import opened Wrappers
  import opened Motion
  import opened AngleFile

  class ServoController {
    const servoConfig: ServoConfig
    const minDuty: real
    const maxDuty: real
    const angleFile: TextFile

    /**
      `__init__`: each argument is what the configuration holds under
      `servo_config`, `min_duty` and `max_duty`, `None` when it holds nothing
      (an empty servo table counts as nothing). `angleFile` is the file at the
      configured `angle_file` path.
    */
    constructor(configured: Option<ServoConfig>, minDutySetting: Option<real>, maxDutySetting: Option<real>,
                angleFile: TextFile)
      ensures servoConfig == if configured.Some? then configured.value else DefaultServoConfig
      ensures minDuty == if minDutySetting.Some? then minDutySetting.value else 2.5
      ensures maxDuty == if maxDutySetting.Some? then maxDutySetting.value else 10.0
      ensures this.angleFile == angleFile
    {
      servoConfig := if configured.Some? then configured.value else DefaultServoConfig;
      minDuty := if minDutySetting.Some? then minDutySetting.value else 2.5;
      maxDuty := if maxDutySetting.Some? then maxDutySetting.value else 10.0;
      this.angleFile := angleFile;
    }

    /** `read_last_angle`: the stored angle, or the servo's configured default when the file or its line is missing. */
    method ReadLastAngle(name: string, parse: string -> Option<real>) returns (r: Result<real>)
      ensures r == ReadAngle(angleFile.contents, name, DefaultAngle(servoConfig, name), parse)
    {
      r := ReadAngleFile(angleFile, name, DefaultAngle(servoConfig, name), parse);
    }

    /** `write_last_angle`: store `str(angle)` under `name`, keeping the other lines. */
    method WriteLastAngle(name: string, angle: real, show: real -> string) returns (r: Result<()>)
      modifies angleFile
      ensures r.Success? <==> WriteAngle(old(angleFile.contents), name, show(angle)).Success?
      ensures angleFile.contents == AfterWrite(old(angleFile.contents), name, show(angle))
    {
      r := WriteAngleFile(angleFile, name, show(angle));
    }

    /** `initialize_servo`: an unknown name is refused before anything else happens; otherwise the last angle is read. */
    method InitializeServo(name: string, parse: string -> Option<real>) returns (r: Result<real>)
      ensures !Known(name) ==> r == Failure(ValueError("Invalid servo name: " + name))
      ensures Known(name) ==> r == ReadAngle(angleFile.contents, name, DefaultAngle(servoConfig, name), parse)
      ensures Known(name) && angleFile.contents.None? ==> r == DefaultAngle(servoConfig, name)
    {
      if !Known(name) {
        return Failure(ValueError("Invalid servo name: " + name));
      }
      r := ReadLastAngle(name, parse);
    }

    /** `tilt_angle_to_duty`: linear from `minDuty` at 0 degrees to `maxDuty` at 180 degrees. */
    function TiltAngleToDuty(angle: real): (duty: real)
      ensures angle == 0.0 ==> duty == minDuty
      ensures angle == 180.0 ==> duty == maxDuty
      ensures minDuty <= maxDuty && 0.0 <= angle <= 180.0 ==> minDuty <= duty <= maxDuty
    {
      LinearDutyEnds(minDuty, maxDuty, 0.0, angle);
      LinearDutyEnds(minDuty, maxDuty, angle, 180.0);
      LinearDuty(minDuty, maxDuty, angle)
    }

    /**
      `move_pan_by_offset`: drive the pan forward or back for the time the
      clamped move takes, then record the clamped angle.
    */
    method MovePanByOffset(current: real, offset: real, show: real -> string)
      returns (duty: real, moveTime: real, r: Result<()>)
      modifies angleFile
      ensures duty == PanPlan(servoConfig.pan, current, offset).duty
      ensures moveTime == PanPlan(servoConfig.pan, current, offset).moveTime
      ensures r.Success? <==>
        WriteAngle(old(angleFile.contents), "pan", show(PanPlan(servoConfig.pan, current, offset).target)).Success?
      ensures angleFile.contents ==
        AfterWrite(old(angleFile.contents), "pan", show(PanPlan(servoConfig.pan, current, offset).target))
    {
      var target := Clamp(current + offset, servoConfig.pan.maxAngle);
      var difference := Abs(target - current);
      moveTime := (difference / 180.0) * servoConfig.pan.fullSweepTime;
      duty := if offset > 0.0 then ForwardDuty else BackwardDuty;
      r := WriteLastAngle("pan", target, show);
    }

    /** `move_pan_to_absolute`: a pan move by the offset `target - current`. */
    method MovePanToAbsolute(current: real, target: real, show: real -> string)
      returns (duty: real, moveTime: real, r: Result<()>)
      modifies angleFile
      ensures duty == PanPlan(servoConfig.pan, current, target - current).duty
      ensures moveTime == PanPlan(servoConfig.pan, current, target - current).moveTime
      ensures r.Success? <==>
        WriteAngle(old(angleFile.contents), "pan", show(Clamp(target, servoConfig.pan.maxAngle))).Success?
      ensures angleFile.contents ==
        AfterWrite(old(angleFile.contents), "pan", show(Clamp(target, servoConfig.pan.maxAngle)))
    {
      AbsoluteMoveTargetsRequest(servoConfig.pan, current, target);
      duty, moveTime, r := MovePanByOffset(current, target - current, show);
    }

    /**
      `move_tilt_by_offset`: step the tilt through the sweep toward the
      clamped target, one duty per step, then record the clamped angle. A zero
      step size raises `ValueError` before the servo moves or anything is written.
    */
    method MoveTiltByOffset(current: real, offset: real, show: real -> string)
      returns (angles: seq<int>, duties: seq<real>, r: Result<()>)
      modifies angleFile
      ensures var target := Clamp(current + offset, servoConfig.tilt.maxAngle);
        Sweep(current, target, servoConfig.tilt.stepSize).Failure? ==>
          && r == Failure(Sweep(current, target, servoConfig.tilt.stepSize).error)
          && angles == [] && duties == []
          && angleFile.contents == old(angleFile.contents)
      ensures var target := Clamp(current + offset, servoConfig.tilt.maxAngle);
        Sweep(current, target, servoConfig.tilt.stepSize).Success? ==>
          && angles == Sweep(current, target, servoConfig.tilt.stepSize).value
          && (r.Success? <==> WriteAngle(old(angleFile.contents), "tilt", show(target)).Success?)
          && angleFile.contents == AfterWrite(old(angleFile.contents), "tilt", show(target))
      ensures |duties| == |angles|
      ensures forall i :: 0 <= i < |angles| ==> duties[i] == TiltAngleToDuty(angles[i] as real)
    {
      var target := Clamp(current + offset, servoConfig.tilt.maxAngle);
      var sweep := Sweep(current, target, servoConfig.tilt.stepSize);
      if sweep.Failure? {
        return [], [], Failure(sweep.error);
      }
      angles := sweep.value;
      duties := [];
      for k := 0 to |angles|
        invariant |duties| == k
        invariant forall i :: 0 <= i < k ==> duties[i] == TiltAngleToDuty(angles[i] as real)
      {
        duties := duties + [TiltAngleToDuty(angles[k] as real)];
      }
      r := WriteLastAngle("tilt", target, show);
    }

    /** `move_tilt_to_absolute`: a tilt move by the offset `target - current`, so toward the clamped target. */
    method MoveTiltToAbsolute(current: real, target: real, show: real -> string)
      returns (angles: seq<int>, duties: seq<real>, r: Result<()>)
      modifies angleFile
      ensures var goal := Clamp(target, servoConfig.tilt.maxAngle);
        Sweep(current, goal, servoConfig.tilt.stepSize).Failure? ==>
          r.Failure? && angles == [] && angleFile.contents == old(angleFile.contents)
      ensures var goal := Clamp(target, servoConfig.tilt.maxAngle);
        Sweep(current, goal, servoConfig.tilt.stepSize).Success? ==>
          && angles == Sweep(current, goal, servoConfig.tilt.stepSize).value
          && (r.Success? <==> WriteAngle(old(angleFile.contents), "tilt", show(goal)).Success?)
          && angleFile.contents == AfterWrite(old(angleFile.contents), "tilt", show(goal))
      ensures |duties| == |angles|
      ensures forall i :: 0 <= i < |angles| ==> duties[i] == TiltAngleToDuty(angles[i] as real)
    {
      assert current + (target - current) == target;
      angles, duties, r := MoveTiltByOffset(current, target - current, show);
    }
  }

  /**
    With a positive step size a tilt move starts at `int(current)`, steps
    toward `int(target)` one stride at a time and never passes it; when the
    two share their integer part it is a single step.
  */
  lemma TiltStepsTowardTarget(tilt: TiltSettings, current: real, offset: real)
    requires tilt.stepSize > 0
    ensures Sweep(current, Clamp(current + offset, tilt.maxAngle), tilt.stepSize).Success?
    ensures WalksToward(Sweep(current, Clamp(current + offset, tilt.maxAngle), tilt.stepSize).value,
                        Trunc(current), Trunc(Clamp(current + offset, tilt.maxAngle)), tilt.stepSize)
    ensures Trunc(current) == Trunc(Clamp(current + offset, tilt.maxAngle)) ==>
      Sweep(current, Clamp(current + offset, tilt.maxAngle), tilt.stepSize) == Success([Trunc(current)])
  {
    var target := Clamp(current + offset, tilt.maxAngle);
    SweepWalksToward(current, target, tilt.stepSize);
    if Trunc(current) == Trunc(target) {
      SweepSameWholeAngle(current, target, tilt.stepSize);
    }
  }
}
