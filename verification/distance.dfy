/**
  The pinhole-camera distance estimate of `DistanceCalculator`: the apparent
  diameter of a tracked box on the sensor, in millimetres, is the mean of its
  width and height converted through the pixel pitch, and the distance is the
  real diameter times the focal length over that apparent diameter.
  Floating point is modelled by exact reals.

  `CalculateDistance` takes the four calibration values as numbers already
  read; `CalculateFromConfig` models the reads themselves, each a
  `config.get(key)` that is `None` when the key is absent, and the
  exceptions that the arithmetic on them raises.
*/
module Distance {
  import opened Wrappers
  import Configuration

  /** The calibration values that `calculate_distance` reads from the configuration. */
  datatype Calibration = Calibration(
    sensorWidthMm: real,
    sensorHeightMm: real,
    realDiameterMm: real,
    focalLengthMm: real)

  /** Every calibration value is positive. */
  predicate PositiveCalibration(cal: Calibration) {
    cal.sensorWidthMm > 0.0 && cal.sensorHeightMm > 0.0 &&
    cal.realDiameterMm > 0.0 && cal.focalLengthMm > 0.0
  }

  /** Apparent diameter on the sensor: pixel width and height, each times its pixel pitch, averaged. */
  function DiameterMm(cal: Calibration, w: real, h: real, frameWidth: real, frameHeight: real): real
    requires frameWidth != 0.0 && frameHeight != 0.0
  {
    (w * (cal.sensorWidthMm / frameWidth) + h * (cal.sensorHeightMm / frameHeight)) / 2.0
  }

  /**
    `calculate_distance`: `None` for a box with a non-positive side, `None` when the
    apparent diameter is not positive, and otherwise the distance whose product
    with the apparent diameter is the real diameter times the focal length.
  */
  function CalculateDistance(cal: Calibration, w: real, h: real, frameWidth: real, frameHeight: real): (r: Option<real>)
    requires frameWidth != 0.0 && frameHeight != 0.0
    ensures w <= 0.0 || h <= 0.0 ==> r == None
    ensures w > 0.0 && h > 0.0 ==> (r.Some? <==> DiameterMm(cal, w, h, frameWidth, frameHeight) > 0.0)
    ensures r.Some? ==> r.value * DiameterMm(cal, w, h, frameWidth, frameHeight) == cal.realDiameterMm * cal.focalLengthMm
  {
    if w <= 0.0 || h <= 0.0 then None
    else
      var d := DiameterMm(cal, w, h, frameWidth, frameHeight);
      if d > 0.0 then Some(cal.realDiameterMm * cal.focalLengthMm / d) else None
  }

  /** With positive calibration and a box of positive size, the estimate is present and positive. */
  lemma PositiveInputsGivePositiveDistance(cal: Calibration, w: real, h: real, frameWidth: real, frameHeight: real)
    requires PositiveCalibration(cal)
    requires w > 0.0 && h > 0.0 && frameWidth > 0.0 && frameHeight > 0.0
    ensures CalculateDistance(cal, w, h, frameWidth, frameHeight).Some?
    ensures CalculateDistance(cal, w, h, frameWidth, frameHeight).value > 0.0
  {
    var pw := cal.sensorWidthMm / frameWidth;
    var ph := cal.sensorHeightMm / frameHeight;
    assert pw > 0.0 && ph > 0.0;
    assert w * pw > 0.0 && h * ph > 0.0;
    var d := DiameterMm(cal, w, h, frameWidth, frameHeight);
    assert d > 0.0;
    var rf := cal.realDiameterMm * cal.focalLengthMm;
    assert rf > 0.0;
    assert rf / d > 0.0;
  }

  /** The estimate is inversely proportional to the apparent size: scaling both box sides by k > 0 divides it by k. */
  lemma ScalingBoxDividesDistance(cal: Calibration, w: real, h: real, frameWidth: real, frameHeight: real, k: real)
    requires w > 0.0 && h > 0.0 && frameWidth > 0.0 && frameHeight > 0.0 && k > 0.0
    requires CalculateDistance(cal, w, h, frameWidth, frameHeight).Some?
    ensures CalculateDistance(cal, k * w, k * h, frameWidth, frameHeight)
         == Some(CalculateDistance(cal, w, h, frameWidth, frameHeight).value / k)
  {
    var pw := cal.sensorWidthMm / frameWidth;
    var ph := cal.sensorHeightMm / frameHeight;
    var d := DiameterMm(cal, w, h, frameWidth, frameHeight);
    var dk := DiameterMm(cal, k * w, k * h, frameWidth, frameHeight);
    assert dk == k * d by {
      assert (k * w) * pw + (k * h) * ph == k * (w * pw + h * ph);
    }
    assert d > 0.0;
    assert k * w > 0.0 && k * h > 0.0;
    assert dk > 0.0;
    var rf := cal.realDiameterMm * cal.focalLengthMm;
    assert rf / dk == (rf / d) / k by {
      assert rf / (k * d) == (rf / d) / k;
    }
    assert CalculateDistance(cal, w, h, frameWidth, frameHeight).value == rf / d;
    assert CalculateDistance(cal, k * w, k * h, frameWidth, frameHeight).Some?;
    assert CalculateDistance(cal, k * w, k * h, frameWidth, frameHeight).value == rf / dk;
  }

  /** Doubling both pixel sides halves the estimate. */
  lemma DoublingBoxHalvesDistance(cal: Calibration, w: real, h: real, frameWidth: real, frameHeight: real)
    requires w > 0.0 && h > 0.0 && frameWidth > 0.0 && frameHeight > 0.0
    requires CalculateDistance(cal, w, h, frameWidth, frameHeight).Some?
    ensures CalculateDistance(cal, 2.0 * w, 2.0 * h, frameWidth, frameHeight)
         == Some(CalculateDistance(cal, w, h, frameWidth, frameHeight).value / 2.0)
  {
    ScalingBoxDividesDistance(cal, w, h, frameWidth, frameHeight, 2.0);
    var halved := CalculateDistance(cal, 2.0 * w, 2.0 * h, frameWidth, frameHeight);
    assert halved.value == CalculateDistance(cal, w, h, frameWidth, frameHeight).value / 2.0;
  }

  /**
    The keys `calculate_distance` reads. None of them holds a `.`, so
    `config.get` reads each at the top level of the configuration.
  */
  const SensorWidthKey := "sensor_width_mm"
  const SensorHeightKey := "sensor_height_mm"
  const RealDiameterKey := "real_diameter_mm"
  const FocalLengthKey := "focal_length_mm"

  /**
    `config.get(key)` used as an operand of `*` or `/`: a number, a boolean as
    1 or 0, and `TypeError` for anything else, the `None` of a missing key included.
  */
  function Operand(data: map<string, Configuration.Value>, key: string): (r: Result<real>)
    ensures r.Success? <==> key in data && (data[key].Num? || data[key].Bool?)
    ensures key in data && data[key].Num? ==> r == Success(data[key].n)
  {
    if key !in data then Failure(TypeError("unsupported operand type(s): 'NoneType'"))
    else match data[key]
      case Num(n) => Success(n)
      case Bool(b) => Success(if b then 1.0 else 0.0)
      case _ => Failure(TypeError("unsupported operand type(s)"))
  }

  /** `x / y` for an operand read from the configuration: its `TypeError` first, then `ZeroDivisionError`. */
  function DivideBy(x: Result<real>, y: real): (r: Result<real>)
    ensures x.Failure? ==> r == x
    ensures x.Success? ==> (r.Failure? <==> y == 0.0)
    ensures x.Success? && y == 0.0 ==> r == Failure(ZeroDivisionError)
    ensures r.Success? ==> r.value * y == x.value
  {
    if x.Failure? then x
    else if y == 0.0 then Failure(ZeroDivisionError)
    else Success(x.value / y)
  }

  /**
    `calculate_distance` reading its calibration from the configuration `data`:
    a box with a non-positive side gives `None` before anything is read; then
    the sensor width is divided by the frame width and the sensor height by
    the frame height, each raising `TypeError` for a missing or non-numeric
    value and `ZeroDivisionError` for a zero frame side; a non-positive
    apparent diameter gives `None`; only then are the real diameter and the
    focal length read.
  */
  function CalculateFromConfig(data: map<string, Configuration.Value>, w: real, h: real,
                               frameWidth: real, frameHeight: real): (r: Result<Option<real>>)
    ensures w <= 0.0 || h <= 0.0 ==> r == Success(None)
    ensures w > 0.0 && h > 0.0 && Operand(data, SensorWidthKey).Failure? ==> r == Failure(Operand(data, SensorWidthKey).error)
    ensures w > 0.0 && h > 0.0 && Operand(data, SensorWidthKey).Success? && frameWidth == 0.0 ==> r == Failure(ZeroDivisionError)
    ensures r.Success? && w > 0.0 && h > 0.0 ==> frameWidth != 0.0 && frameHeight != 0.0
  {
    if w <= 0.0 || h <= 0.0 then Success(None)
    else
      var sw := Operand(data, SensorWidthKey);
      if DivideBy(sw, frameWidth).Failure? then Failure(DivideBy(sw, frameWidth).error)
      else
        var sh := Operand(data, SensorHeightKey);
        if DivideBy(sh, frameHeight).Failure? then Failure(DivideBy(sh, frameHeight).error)
        else if DiameterMm(Calibration(sw.value, sh.value, 0.0, 0.0), w, h, frameWidth, frameHeight) <= 0.0 then Success(None)
        else
          var rd := Operand(data, RealDiameterKey);
          if rd.Failure? then Failure(rd.error)
          else
            var fl := Operand(data, FocalLengthKey);
            if fl.Failure? then Failure(fl.error)
            else Success(CalculateDistance(Calibration(sw.value, sh.value, rd.value, fl.value), w, h, frameWidth, frameHeight))
  }

  /** The calibration that a configuration holding all four values as numbers gives. */
  function CalibrationIn(data: map<string, Configuration.Value>): Calibration
    requires forall k :: k in [SensorWidthKey, SensorHeightKey, RealDiameterKey, FocalLengthKey] ==> k in data && data[k].Num?
  {
    Calibration(data[SensorWidthKey].n, data[SensorHeightKey].n, data[RealDiameterKey].n, data[FocalLengthKey].n)
  }

  /** With all four values configured as numbers and a frame with non-zero sides, the reads raise nothing and the result is `CalculateDistance`'s. */
  lemma ConfiguredCalibrationAgrees(data: map<string, Configuration.Value>, w: real, h: real, frameWidth: real, frameHeight: real)
    requires forall k :: k in [SensorWidthKey, SensorHeightKey, RealDiameterKey, FocalLengthKey] ==> k in data && data[k].Num?
    requires frameWidth != 0.0 && frameHeight != 0.0
    ensures CalculateFromConfig(data, w, h, frameWidth, frameHeight)
         == Success(CalculateDistance(CalibrationIn(data), w, h, frameWidth, frameHeight))
  {
    assert SensorWidthKey in [SensorWidthKey, SensorHeightKey, RealDiameterKey, FocalLengthKey];
    assert SensorHeightKey in [SensorWidthKey, SensorHeightKey, RealDiameterKey, FocalLengthKey];
    assert RealDiameterKey in [SensorWidthKey, SensorHeightKey, RealDiameterKey, FocalLengthKey];
    assert FocalLengthKey in [SensorWidthKey, SensorHeightKey, RealDiameterKey, FocalLengthKey];
    assert Operand(data, SensorWidthKey) == Success(data[SensorWidthKey].n);
    assert Operand(data, SensorHeightKey) == Success(data[SensorHeightKey].n);
    assert Operand(data, RealDiameterKey) == Success(data[RealDiameterKey].n);
    assert Operand(data, FocalLengthKey) == Success(data[FocalLengthKey].n);
  }

  /**
    The built-in defaults hold none of the calibration values, so with the
    default configuration every box with positive sides raises `TypeError`.
  */
  lemma DefaultConfigRaises(w: real, h: real, frameWidth: real, frameHeight: real)
    requires w > 0.0 && h > 0.0
    ensures CalculateFromConfig(Configuration.DefaultConfig(), w, h, frameWidth, frameHeight).Failure?
    ensures CalculateFromConfig(Configuration.DefaultConfig(), w, h, frameWidth, frameHeight).error.TypeError?
  {
    assert SensorWidthKey !in Configuration.DefaultConfig();
  }

  /** A zero frame side raises `ZeroDivisionError` once the sensor values are configured. */
  lemma ZeroFrameRaises(data: map<string, Configuration.Value>, w: real, h: real, frameWidth: real, frameHeight: real)
    requires forall k :: k in [SensorWidthKey, SensorHeightKey] ==> k in data && data[k].Num?
    requires w > 0.0 && h > 0.0
    requires frameWidth == 0.0 || frameHeight == 0.0
    ensures CalculateFromConfig(data, w, h, frameWidth, frameHeight) == Failure(ZeroDivisionError)
  {
    assert SensorWidthKey in [SensorWidthKey, SensorHeightKey];
    assert SensorHeightKey in [SensorWidthKey, SensorHeightKey];
  }
}
