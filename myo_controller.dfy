/**
 * What every Myo-armband controller shares (MyoController): the pose the armband reports, and the
 * mapping of the arm's orientation, relative to a calibration orientation, to a target position
 * in the unit square.
 */
module Myo {
  import opened Numerics

  /** The poses the Myo armband recognises. */
  datatype Pose = Rest | Fist | WaveIn | WaveOut | FingersSpread | DoubleTap | Unknown

  /**
   * `cropAngleRange(angle)`: the angle brought into [-180, 180] by the truncated remainder modulo
   * 360 and one more turn when that remainder lies beyond 180 degrees on either side.
   */
  function CropAngleRange(angle: real): (r: real)
    ensures -180.0 <= r <= 180.0
  {
    var a := Mod360(angle);
    if a > 180.0 then a - 360.0
    else if a < -180.0 then a + 360.0
    else a
  }

  /** The cropped angle is the input turned by a whole number of full turns. */
  lemma CropAngleRangeTurns(angle: real) returns (turns: int)
    ensures angle == CropAngleRange(angle) + turns as real * 360.0
  {
    var a := Mod360(angle);
    var k := Truncate(angle / 360.0);
    if a > 180.0 {
      turns := k + 1;
    } else if a < -180.0 {
      turns := k - 1;
    } else {
      turns := k;
    }
  }

  /** An angle already within [-180, 180] is left as it is. */
  lemma CropAngleRangeKeeps(angle: real)
    requires -180.0 <= angle <= 180.0
    ensures CropAngleRange(angle) == angle
  {
    assert Truncate(angle / 360.0) == 0;
  }

  /** Cropping twice is cropping once. */
  lemma CropAngleRangeIdempotent(angle: real)
    ensures CropAngleRange(CropAngleRange(angle)) == CropAngleRange(angle)
  {
    CropAngleRangeKeeps(CropAngleRange(angle));
  }

  /** `Mathf.Min(a, b)`: b unless a is smaller. */
  function MinF(a: real, b: real): real { if a < b then a else b }

  /** `Mathf.Max(a, b)`: b unless a is larger. */
  function MaxF(a: real, b: real): real { if a > b then a else b }

  /** A float division: 0 / 0 is NaN; the only division by zero `getPosition` performs. */
  function Ratio(numerator: real, denominator: real): (d: Double)
    requires denominator == 0.0 ==> numerator == 0.0
    ensures d.NonFinite? <==> denominator == 0.0
    ensures d.Finite? ==> d.value * denominator == numerator
    ensures 0.0 <= numerator <= denominator && 0.0 < denominator ==> 0.0 <= d.value <= 1.0
  {
    if denominator == 0.0 then NonFinite
    else
      var q := numerator / denominator;
      UnitQuotient(numerator, denominator, q);
      Finite(q)
  }

  lemma UnitQuotient(numerator: real, denominator: real, q: real)
    requires denominator != 0.0 && q == numerator / denominator
    ensures q * denominator == numerator
    ensures 0.0 <= numerator <= denominator && 0.0 < denominator ==> 0.0 <= q <= 1.0
  {
  }

  /** The vertical angle: the negated pitch, clamped to [-maxAngleDown, maxAngleUp]. */
  function Vertical(pitch: real, maxAngleUp: real, maxAngleDown: real): (v: real)
    ensures -maxAngleDown <= maxAngleUp ==> -maxAngleDown <= v <= maxAngleUp
    ensures -maxAngleDown <= -pitch <= maxAngleUp ==> v == -pitch
  {
    MinF(maxAngleUp, MaxF(-maxAngleDown, -pitch))
  }

  /** The horizontal angle: the yaw, clamped to [-maxHorizontalAngle, maxHorizontalAngle]. */
  function Horizontal(yaw: real, maxHorizontalAngle: real): (h: real)
    ensures 0.0 <= maxHorizontalAngle ==> -maxHorizontalAngle <= h <= maxHorizontalAngle
    ensures -maxHorizontalAngle <= yaw <= maxHorizontalAngle ==> h == yaw
  {
    MinF(maxHorizontalAngle, MaxF(-maxHorizontalAngle, yaw))
  }

  /** A target position; a coordinate is NaN when its angle range has width 0. */
  datatype Position = Position(x: Double, y: Double)

  /** The armband's settings: the half width of the horizontal range, and the range up and down. */
  datatype Ranges = Ranges(maxHorizontalAngle: real, maxAngleUp: real, maxAngleDown: real)

  /** The inspector defaults: 45 degrees either side, 55 up, 5 down. */
  const DefaultRanges := Ranges(45.0, 55.0, 5.0)

  /**
   * `getPosition()`: the Euler angles (pitch, yaw) relative to the calibration angles, cropped to
   * [-180, 180], clamped to the configured ranges and scaled to [0, 1]: x from left to right,
   * y from down to up.
   */
  function GetPosition(pitch: real, yaw: real, calibrationPitch: real, calibrationYaw: real, ranges: Ranges): (p: Position)
    ensures p.x.NonFinite? <==> ranges.maxHorizontalAngle == 0.0
    ensures p.y.NonFinite? <==> ranges.maxAngleUp + ranges.maxAngleDown == 0.0
    ensures 0.0 < ranges.maxHorizontalAngle ==> 0.0 <= p.x.value <= 1.0
    ensures 0.0 < ranges.maxAngleUp + ranges.maxAngleDown ==> 0.0 <= p.y.value <= 1.0
  {
    var rx := CropAngleRange(pitch - calibrationPitch);
    var ry := CropAngleRange(yaw - calibrationYaw);
    var vertical := Vertical(rx, ranges.maxAngleUp, ranges.maxAngleDown);
    var horizontal := Horizontal(ry, ranges.maxHorizontalAngle);
    assert 0.0 < ranges.maxHorizontalAngle ==> 0.0 <= horizontal + ranges.maxHorizontalAngle <= 2.0 * ranges.maxHorizontalAngle;
    assert 0.0 < ranges.maxAngleUp + ranges.maxAngleDown ==>
             0.0 <= vertical + ranges.maxAngleDown <= ranges.maxAngleUp + ranges.maxAngleDown;
    Position(Ratio(horizontal + ranges.maxHorizontalAngle, 2.0 * ranges.maxHorizontalAngle),
             Ratio(vertical + ranges.maxAngleDown, ranges.maxAngleUp + ranges.maxAngleDown))
  }

  /**
   * At the calibration orientation the target is centred horizontally and sits at the height of
   * the downward range's share: with the defaults, 5 / 60 of the way up.
   */
  lemma CalibrationPosition(pitch: real, yaw: real, ranges: Ranges)
    requires 0.0 < ranges.maxHorizontalAngle && 0.0 <= ranges.maxAngleUp && 0.0 <= ranges.maxAngleDown
    requires 0.0 < ranges.maxAngleUp + ranges.maxAngleDown
    ensures GetPosition(pitch, yaw, pitch, yaw, ranges)
         == Position(Finite(0.5), Finite(ranges.maxAngleDown / (ranges.maxAngleUp + ranges.maxAngleDown)))
  {
    CropAngleRangeKeeps(0.0);
    assert pitch - pitch == 0.0 && yaw - yaw == 0.0;
    var h := ranges.maxHorizontalAngle;
    assert Horizontal(0.0, h) == 0.0;
    assert Vertical(0.0, ranges.maxAngleUp, ranges.maxAngleDown) == 0.0;
    assert (0.0 + h) / (2.0 * h) == 0.5;
  }

  /** Turning further to the right never moves the target to the left. */
  lemma HorizontalMonotone(yaw1: real, yaw2: real, maxHorizontalAngle: real)
    requires yaw1 <= yaw2 && 0.0 < maxHorizontalAngle
    ensures Ratio(Horizontal(yaw1, maxHorizontalAngle) + maxHorizontalAngle, 2.0 * maxHorizontalAngle).value
         <= Ratio(Horizontal(yaw2, maxHorizontalAngle) + maxHorizontalAngle, 2.0 * maxHorizontalAngle).value
  {
    var h1, h2 := Horizontal(yaw1, maxHorizontalAngle), Horizontal(yaw2, maxHorizontalAngle);
    assert h1 <= h2;
    DivideMonotone(h1 + maxHorizontalAngle, h2 + maxHorizontalAngle, 2.0 * maxHorizontalAngle);
  }

  lemma DivideMonotone(a: real, b: real, d: real)
    requires a <= b && 0.0 < d
    ensures a / d <= b / d
  {
  }
}
