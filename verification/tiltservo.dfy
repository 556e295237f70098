/**
  The single-servo `tiltservo.py` script: the tilt servo moves in 5-degree
  steps toward a requested angle, and the file it keeps holds nothing but the
  last angle's text. The PWM output and the delay between steps are left
  out: a move returns the duty cycles it sets, in order.
*/
module TiltServo {
  import opened Wrappers
  import opened Strings
  import opened AngleFile
  import Motion

  const StepSize := 5
  /** The angle assumed when no angle has been stored yet. */
  const DefaultAngle: real := 90.0

  /** `angle_to_duty`: 2.5 percent at 0 degrees to 12.5 percent at 180 degrees, linearly. */
  function AngleToDuty(angle: real): (duty: real)
    ensures duty == Motion.LinearDuty(2.5, 12.5, angle)
    ensures 0.0 <= angle <= 180.0 ==> 2.5 <= duty <= 12.5
  {
    Motion.LinearDutyEnds(2.5, 12.5, 0.0, angle);
    Motion.LinearDutyEnds(2.5, 12.5, angle, 180.0);
    angle / 18.0 + 2.5
  }

  /**
    `move_servo_slowly`: the integer angles from `int(start)` toward
    `int(target)`, `StepSize` apart, with the duty set at each.
  */
  method MoveServoSlowly(start: real, target: real) returns (angles: seq<int>, duties: seq<real>)
    ensures Motion.Sweep(start, target, StepSize) == Success(angles)
    ensures Motion.WalksToward(angles, Motion.Trunc(start), Motion.Trunc(target), StepSize)
    ensures |duties| == |angles|
    ensures forall i :: 0 <= i < |angles| ==> duties[i] == AngleToDuty(angles[i] as real)
  {
    Motion.SweepWalksToward(start, target, StepSize);
    angles := Motion.Sweep(start, target, StepSize).value;
    duties := [];
    for k := 0 to |angles|
      invariant |duties| == k
      invariant forall i :: 0 <= i < k ==> duties[i] == AngleToDuty(angles[i] as real)
    {
      duties := duties + [AngleToDuty(angles[k] as real)];
    }
  }

  /**
    What `read_last_angle` returns for the file's contents: `DefaultAngle`
    when there is no file, otherwise its whole text, stripped, as a float
    (`ValueError` when that text is not a number).
  */
  function StoredAngle(contents: Option<string>, parse: string -> Option<real>): (r: Result<real>)
    ensures contents.None? ==> r == Success(DefaultAngle)
    ensures contents.Some? ==> (r.Success? <==> parse(Strip(contents.value)).Some?)
  {
    match contents
    case None => Success(DefaultAngle)
    case Some(text) =>
      if parse(Strip(text)).Some? then Success(parse(Strip(text)).value)
      else Failure(ValueError("could not convert string to float: " + Strip(text)))
  }

  /** `read_last_angle`. */
  method ReadLastAngle(file: TextFile, parse: string -> Option<real>) returns (r: Result<real>)
    ensures r == StoredAngle(file.contents, parse)
  {
    r := StoredAngle(file.contents, parse);
  }

  /** `write_last_angle`: the file's whole text becomes the angle's text. */
  method WriteLastAngle(file: TextFile, angle: real, show: real -> string)
    modifies file
    ensures file.contents == Some(show(angle))
  {
    file.contents := Some(show(angle));
  }

  /**
    An angle written is the angle read back, whatever the file held before,
    as long as its text has no surrounding white space and reads back as itself.
  */
  lemma WriteThenReadBack(angle: real, parse: string -> Option<real>, show: real -> string)
    requires NoSurroundingSpace(show(angle))
    requires parse(show(angle)) == Some(angle)
    ensures StoredAngle(Some(show(angle)), parse) == Success(angle)
  {
    StripClean(show(angle));
  }

  /** The target `main` moves to: the requested angle clipped to [0, 180]. */
  function Target(angle: real): (r: real)
    ensures 0.0 <= r <= 180.0
    ensures 0.0 <= angle <= 180.0 ==> r == angle
    ensures angle < 0.0 ==> r == 0.0
    ensures angle > 180.0 ==> r == 180.0
  {
    Motion.Clamp(angle, 180.0)
  }

  /**
    `main`: `--angle` is required. The target is clipped to [0, 180]; when it
    equals the stored angle nothing moves and nothing is written; otherwise
    the servo steps from the stored angle to the target and the target is
    stored. The duties set are returned.
  */
  method Run(angle: Option<real>, file: TextFile, parse: string -> Option<real>, show: real -> string)
    returns (r: Result<seq<real>>)
    modifies file
    ensures angle.None? ==> r.Failure? && r.error.ArgumentError? && file.contents == old(file.contents)
    ensures angle.Some? && StoredAngle(old(file.contents), parse).Failure? ==>
      r == Failure(StoredAngle(old(file.contents), parse).error) && file.contents == old(file.contents)
    ensures angle.Some? && StoredAngle(old(file.contents), parse) == Success(Target(angle.value)) ==>
      r == Success([]) && file.contents == old(file.contents)
    ensures angle.Some? && StoredAngle(old(file.contents), parse).Success?
            && StoredAngle(old(file.contents), parse).value != Target(angle.value) ==>
      && file.contents == Some(show(Target(angle.value)))
      && r.Success?
      && var angles := Motion.Sweep(StoredAngle(old(file.contents), parse).value, Target(angle.value), StepSize).value;
      && Motion.WalksToward(angles, Motion.Trunc(StoredAngle(old(file.contents), parse).value),
                            Motion.Trunc(Target(angle.value)), StepSize)
      && |r.value| == |angles|
      && (forall i :: 0 <= i < |angles| ==> r.value[i] == AngleToDuty(angles[i] as real))
  {
    if angle.None? {
      return Failure(ArgumentError("the following arguments are required: --angle"));
    }
    var target := Target(angle.value);
    var current := ReadLastAngle(file, parse);
    if current.Failure? {
      return Failure(current.error);
    }
    if current.value == target {
      return Success([]);
    }
    var angles, duties := MoveServoSlowly(current.value, target);
    WriteLastAngle(file, target, show);
    return Success(duties);
  }
}
