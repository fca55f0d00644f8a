/**
 * The physics side of the prosthesis (ProsthesisMovementController): each fixed update moves the
 * hand towards the controller's target position inside the playground, turns it by the
 * controller's rotation velocity, and opens or closes it within the animation's limits.
 */
module ProsthesisMovementController {
  import opened Numerics
  import Myo

  /**
   * `MinCircleDistance(degFrom, degTo)`: the signed turn from one angle to the other, the shorter
   * of the clockwise and counter-clockwise ones; computed for degFrom <= degTo and negated
   * otherwise.
   */
  function MinCircleDistance(degFrom: real, degTo: real): (d: real)
    ensures Abs(d) <= Abs(degTo - degFrom)
    decreases if degFrom <= degTo then 0 else 1
  {
    if degFrom <= degTo then
      var cw := degTo - degFrom;
      var ccw := cw - 360.0;
      if Abs(cw) < Abs(ccw) then cw else ccw
    else
      -MinCircleDistance(degTo, degFrom)
  }

  /** The turn reaches the target angle: it differs from the plain difference by at most one full turn. */
  lemma MinCircleDistanceReaches(degFrom: real, degTo: real)
    ensures var d := MinCircleDistance(degFrom, degTo);
            d == degTo - degFrom || d == degTo - degFrom - 360.0 || d == degTo - degFrom + 360.0
  {
  }

  /** Turning back is the opposite turn, and no turn is needed from an angle to itself. */
  lemma MinCircleDistanceAntisymmetric(a: real, b: real)
    ensures MinCircleDistance(a, b) == -MinCircleDistance(b, a)
    ensures MinCircleDistance(a, a) == 0.0
  {
  }

  /**
   * Between two angles in [0, 360) the turn is at most half a circle; a gap of exactly 180 degrees
   * is turned counter-clockwise (negatively) from the smaller angle.
   */
  lemma MinCircleDistanceShortest(a: real, b: real)
    requires 0.0 <= a < 360.0 && 0.0 <= b < 360.0
    ensures -180.0 <= MinCircleDistance(a, b) <= 180.0
    ensures a < b && b - a == 180.0 ==> MinCircleDistance(a, b) == -180.0
    ensures Abs(MinCircleDistance(a, b)) <= Abs(b - a)
  {
  }

  /** `Vector2.Max` then `Vector2.Min` against 0 and 1: a NaN coordinate fails both comparisons and becomes 0. */
  function ClampUnit(c: Double): (r: real)
    ensures 0.0 <= r <= 1.0
    ensures c.Finite? && 0.0 <= c.value <= 1.0 ==> r == c.value
  {
    if c.NonFinite? then 0.0 else Myo.MinF(Myo.MaxF(c.value, 0.0), 1.0)
  }

  /** The playground's bounds. */
  datatype Bounds = Bounds(minX: real, minY: real, maxX: real, maxY: real)

  /**
   * `toWorldPosition(ctrlPosition)`: the controller's position clamped to the unit square and
   * mapped affinely onto the playground. Its coordinates come from `getPosition`, whose only
   * non-finite value is NaN.
   */
  function ToWorldPosition(ctrl: Myo.Position, b: Bounds): (r: (real, real))
    ensures b.minX <= b.maxX ==> b.minX <= r.0 <= b.maxX
    ensures b.minY <= b.maxY ==> b.minY <= r.1 <= b.maxY
  {
    (Scale(ClampUnit(ctrl.x), b.minX, b.maxX), Scale(ClampUnit(ctrl.y), b.minY, b.maxY))
  }

  /** The affine map of [0, 1] onto [lo, hi]. */
  function Scale(t: real, lo: real, hi: real): (s: real)
    requires 0.0 <= t <= 1.0
    ensures lo <= hi ==> lo <= s <= hi
    ensures t == 0.0 ==> s == lo
    ensures t == 1.0 ==> s == hi
  {
    var s := t * (hi - lo) + lo;
    ScaleWithin(t, lo, hi, s);
    s
  }

  lemma ScaleWithin(t: real, lo: real, hi: real, s: real)
    requires 0.0 <= t <= 1.0 && s == t * (hi - lo) + lo
    ensures lo <= hi ==> lo <= s <= hi
  {
    if lo <= hi {
      NonnegativeProduct(t, hi - lo);
      NonnegativeProduct(1.0 - t, hi - lo);
    }
  }

  /** The corners of the unit square land on the corners of the playground. */
  lemma ToWorldPositionCorners(b: Bounds)
    ensures ToWorldPosition(Myo.Position(Finite(0.0), Finite(0.0)), b) == (b.minX, b.minY)
    ensures ToWorldPosition(Myo.Position(Finite(1.0), Finite(1.0)), b) == (b.maxX, b.maxY)
    ensures ToWorldPosition(Myo.Position(NonFinite, NonFinite), b) == (b.minX, b.minY)
  {
    assert ClampUnit(Finite(1.0)) == 1.0;
    assert ClampUnit(Finite(0.0)) == 0.0;
  }

  /**
   * The opening speed `Open` hands to the animator: the controller's velocity over the shortest
   * opening duration, stopped when the hand is fully open and would open further, or fully closed
   * and would close further.
   */
  function OpenVelocity(controllerVelocity: real, minOpeningDuration: real, openingCoefficient: real): (v: real)
    requires minOpeningDuration != 0.0
    ensures v == 0.0 || v == controllerVelocity / minOpeningDuration
    ensures 0.0 < v ==> openingCoefficient < 1.0
    ensures v < 0.0 ==> 0.0 < openingCoefficient
    ensures 0.0 < openingCoefficient < 1.0 ==> v == controllerVelocity / minOpeningDuration
    ensures var q := controllerVelocity / minOpeningDuration;
            v == 0.0 <==> q == 0.0 || (1.0 <= openingCoefficient && 0.0 < q) || (openingCoefficient <= 0.0 && q < 0.0)
  {
    var openVelocity := controllerVelocity / minOpeningDuration;
    if openingCoefficient >= 1.0 && openVelocity > 0.0 then 0.0
    else if openingCoefficient <= 0.0 && openVelocity < 0.0 then 0.0
    else openVelocity
  }

  /** `Mathf.Deg2Rad` as a float. */
  const Deg2Rad: real := 0.0174532924

  /**
   * The turn of one frame in degrees: the target angular velocity, the controller's velocity
   * negated (a positive velocity turns clockwise) and scaled to degrees per second, times the
   * frame's duration.
   */
  function AngleStep(rotationVelocity: real, maxRotationVelocity: real, deltaTime: real): (s: real)
    ensures rotationVelocity == 0.0 || maxRotationVelocity == 0.0 || deltaTime == 0.0 ==> s == 0.0
    ensures 0.0 < maxRotationVelocity && 0.0 < deltaTime ==> (0.0 < rotationVelocity <==> s < 0.0)
  {
    var targetAngularVelocity := -rotationVelocity * maxRotationVelocity;
    StepSign(rotationVelocity, maxRotationVelocity, deltaTime);
    targetAngularVelocity * deltaTime
  }

  lemma StepSign(rv: real, m: real, dt: real)
    ensures rv == 0.0 || m == 0.0 || dt == 0.0 ==> -rv * m * dt == 0.0
    ensures 0.0 < m && 0.0 < dt ==> (0.0 < rv <==> -rv * m * dt < 0.0)
  {
    if 0.0 < m && 0.0 < dt {
      var k := m * dt;
      assert 0.0 < k;
      assert -rv * m * dt == -(rv * k);
      if 0.0 < rv { assert 0.0 < rv * k; }
      else { NonnegativeProduct(-rv, k); }
    }
  }

  /** `(angle + step + 360) % 360`: the angle after a step, wrapped by the truncated remainder. */
  function Turned(angle: real, step: real): (r: real)
    ensures -360.0 < r < 360.0
    ensures angle + step <= -360.0 ==> r <= 0.0
  {
    Mod360(angle + step + 360.0)
  }

  class Movement {
    /** The hand's target angle around the viewing axis, in degrees. */
    var currentAngle: real

    /** `Start()`: the hand points straight up. */
    constructor ()
      ensures currentAngle == 0.0
    {
      currentAngle := 0.0;
    }

    /**
     * `Rotate()`: the target angle advances by the controller's rotation velocity (negated: a
     * positive velocity turns clockwise) over the frame, wrapped by the remainder modulo 360;
     * the body's angular velocity, in radians per second, is the shortest turn from its current
     * Euler angles to (0, 0, target).
     */
    method Rotate(rotationVelocity: real, maxRotationVelocity: real, deltaTime: real, euler: (real, real, real))
        returns (angularVelocity: (real, real, real))
      requires deltaTime != 0.0
      modifies this
      ensures currentAngle == Turned(old(currentAngle), AngleStep(rotationVelocity, maxRotationVelocity, deltaTime))
      ensures angularVelocity == AngularVelocity(euler, currentAngle, deltaTime)
    {
      var angle := Turned(currentAngle, AngleStep(rotationVelocity, maxRotationVelocity, deltaTime));
      currentAngle := angle;
      angularVelocity := AngularVelocity(euler, angle, deltaTime);
    }
  }

  /**
   * The body's angular velocity in radians per second: the shortest turn from its Euler angles to
   * (0, 0, target) within one frame.
   */
  function AngularVelocity(euler: (real, real, real), target: real, deltaTime: real): (v: (real, real, real))
    requires deltaTime != 0.0
    ensures euler.0 == 0.0 ==> v.0 == 0.0
    ensures euler.1 == 0.0 ==> v.1 == 0.0
    ensures euler.2 == target ==> v.2 == 0.0
    ensures 0.0 < deltaTime && euler.2 < target && target - euler.2 < 180.0 ==> 0.0 < v.2
  {
    (Deg2Rad * (MinCircleDistance(euler.0, 0.0) / deltaTime),
     Deg2Rad * (MinCircleDistance(euler.1, 0.0) / deltaTime),
     Deg2Rad * (MinCircleDistance(euler.2, target) / deltaTime))
  }

  /**
   * The wrap of `Rotate`: the new angle lies in [0, 360) unless a single step turns the hand by a
   * full circle backwards, and it always differs from the unwrapped angle by whole turns.
   */
  lemma RotateWrap(angle: real, step: real) returns (turns: int)
    ensures -360.0 < angle + step ==> 0.0 <= Turned(angle, step) < 360.0
    ensures Turned(angle, step) == angle + step + turns as real * 360.0
  {
    turns := 1 - Truncate((angle + step + 360.0) / 360.0);
  }

  /** From an angle in [0, 360), a step of less than a full circle either way keeps the angle in [0, 360). */
  lemma RotateStaysInCircle(angle: real, step: real)
    requires 0.0 <= angle < 360.0 && -360.0 < step < 360.0
    ensures 0.0 <= Turned(angle, step) < 360.0
    ensures 0.0 <= angle + step < 360.0 ==> Turned(angle, step) == angle + step
  {
    if 0.0 <= angle + step < 360.0 {
      var x := angle + step + 360.0;
      assert 360.0 <= x < 720.0;
      assert Truncate(x / 360.0) == 1;
    }
  }
}
