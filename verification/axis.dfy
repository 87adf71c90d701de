/** One remote motion axis: its kinematic estimate, its calibration, and the
    feedback trajectory last sent for it (the `AxisData` record of
    InputManager.cs), with the operations InputManager.cs performs on a single
    record. Floats are modelled as `real`. */
module Axis {

  /** The record. `motionTime` is the clock reading of the last refresh. */
  datatype AxisData = AxisData(
    position: real, velocity: real, acceleration: real,
    maxPosition: real, maxVelocity: real, maxAcceleration: real,
    minPosition: real, minVelocity: real, minAcceleration: real,
    range: real,
    error: real,
    motionTime: real,
    actualPosition: real, actualVelocity: real,
    setpoints: seq<real>)

  function Min(x: real, y: real): real { if x <= y then x else y }

  function Max(x: real, y: real): real { if x >= y then x else y }

  /** `Mathf.Abs`. */
  function Abs(x: real): (r: real)
    ensures r >= 0.0 && (r == x || r == -x)
  {
    if x < 0.0 then -x else x
  }

  /** `Mathf.Clamp`: the lower bound is checked first, then the upper one
      (`ClampNearest` says which bound comes back). */
  function Clamp(v: real, lo: real, hi: real): (r: real)
    ensures r == v || r == lo || r == hi
    ensures lo <= hi ==> lo <= r <= hi
    ensures lo <= v <= hi ==> r == v
  {
    if v < lo then lo else if v > hi then hi else v
  }

  /** A value outside the bounds is moved to the nearer one, and `Clamp` is
      `Max(lo, Min(v, hi))` when the bounds are ordered. Because the lower
      bound is checked first, an inverted pair yields the lower bound for
      every value below it and the upper bound for every value above it that
      is not below the lower one. */
  lemma ClampNearest(v: real, lo: real, hi: real)
    ensures lo <= hi ==> Clamp(v, lo, hi) == Max(lo, Min(v, hi))
    ensures v < lo ==> Clamp(v, lo, hi) == lo
    ensures lo <= v && hi < v ==> Clamp(v, lo, hi) == hi
  {
  }

  /** Position after `t` time units of constant acceleration `acc`. */
  function Extrapolate(p: real, v: real, acc: real, t: real): real
  {
    p + v * t + acc * t * t / 2.0
  }

  /** The range `CalibrateAxisPosition` derives from a pair of bounds: their
      difference, or 1 when they coincide. */
  function RangeOf(lo: real, hi: real): (r: real)
    ensures r != 0.0
    ensures lo <= hi ==> r > 0.0
    ensures lo != hi ==> lo + r == hi
  {
    if hi - lo != 0.0 then hi - lo else 1.0
  }

  /** The record invariant every operation keeps: the range agrees with the
      position bounds (so it is never zero), the discrepancy is non-negative,
      and the velocity and acceleration extrema bracket zero, where they start. */
  predicate Valid(a: AxisData)
  {
    && a.range == RangeOf(a.minPosition, a.maxPosition)
    && a.error >= 0.0
    && a.minVelocity <= 0.0 <= a.maxVelocity
    && a.minAcceleration <= 0.0 <= a.maxAcceleration
  }

  /** `new AxisData(initialPosition)`, stamped with the clock reading `now`. */
  function NewAxis(initialPosition: real, now: real): (a: AxisData)
    ensures Valid(a)
    ensures a.position == initialPosition && a.motionTime == now
    ensures a.velocity == a.acceleration == a.error == 0.0
    ensures a.minVelocity == a.maxVelocity == a.minAcceleration == a.maxAcceleration == 0.0
    ensures a.range == 1.0 && a.minPosition == a.maxPosition == 0.0
    ensures a.actualPosition == a.actualVelocity == 0.0 && a.setpoints == []
  {
    AxisData(initialPosition, 0.0, 0.0,
             0.0, 0.0, 0.0,
             0.0, 0.0, 0.0,
             1.0, 0.0, now, 0.0, 0.0, [])
  }

  /** `CalibrateAxisSpeed` on one record: a running min/max tracker. The
      extrema move only outwards, and only as far as the current value. */
  function CalibrateSpeed(a: AxisData): (r: AxisData)
    ensures r.maxVelocity >= a.maxVelocity && r.minVelocity <= a.minVelocity
    ensures r.maxAcceleration >= a.maxAcceleration && r.minAcceleration <= a.minAcceleration
    ensures a.minVelocity <= a.maxVelocity ==>
              r.minVelocity == Min(a.minVelocity, a.velocity) && r.maxVelocity == Max(a.maxVelocity, a.velocity)
    ensures a.minAcceleration <= a.maxAcceleration ==>
              r.minAcceleration == Min(a.minAcceleration, a.acceleration)
              && r.maxAcceleration == Max(a.maxAcceleration, a.acceleration)
    ensures r == a.(minVelocity := r.minVelocity, maxVelocity := r.maxVelocity,
                    minAcceleration := r.minAcceleration, maxAcceleration := r.maxAcceleration)
    ensures Valid(a) ==> Valid(r)
  {
    var b :=
      if a.velocity > a.maxVelocity then a.(maxVelocity := a.velocity)
      else if a.velocity < a.minVelocity then a.(minVelocity := a.velocity)
      else a;
    if b.acceleration > b.maxAcceleration then b.(maxAcceleration := b.acceleration)
    else if b.acceleration < b.minAcceleration then b.(minAcceleration := b.acceleration)
    else b
  }

  /** After tracking, the current velocity and acceleration lie within their
      extrema, provided the extrema were ordered before. */
  lemma CalibrateSpeedBrackets(a: AxisData)
    requires a.minVelocity <= a.maxVelocity && a.minAcceleration <= a.maxAcceleration
    ensures CalibrateSpeed(a).minVelocity <= a.velocity <= CalibrateSpeed(a).maxVelocity
    ensures CalibrateSpeed(a).minAcceleration <= a.acceleration <= CalibrateSpeed(a).maxAcceleration
  {
  }

  /** Tracking the same values twice widens nothing more than tracking them
      once, provided the extrema were ordered before. */
  lemma CalibrateSpeedIdempotent(a: AxisData)
    requires a.minVelocity <= a.maxVelocity && a.minAcceleration <= a.maxAcceleration
    ensures CalibrateSpeed(CalibrateSpeed(a)) == CalibrateSpeed(a)
  {
  }

  /** Frames in which the velocity is observed as `vs[i]` and then tracked. */
  function Track(a: AxisData, vs: seq<real>): AxisData
    decreases |vs|
  {
    if |vs| == 0 then a else Track(CalibrateSpeed(a.(velocity := vs[0])), vs[1..])
  }

  /** Whatever the order of the observed velocities, the tracked extrema end
      up enclosing every one of them and the extrema held before. */
  lemma {:induction false} TrackEnclosesAll(a: AxisData, vs: seq<real>)
    requires a.minVelocity <= a.maxVelocity
    decreases |vs|
    ensures Track(a, vs).minVelocity <= a.minVelocity
    ensures Track(a, vs).maxVelocity >= a.maxVelocity
    ensures forall i :: 0 <= i < |vs| ==> Track(a, vs).minVelocity <= vs[i] <= Track(a, vs).maxVelocity
  {
    if |vs| > 0 {
      var b := CalibrateSpeed(a.(velocity := vs[0]));
      TrackEnclosesAll(b, vs[1..]);
      forall i | 1 <= i < |vs|
        ensures Track(a, vs).minVelocity <= vs[i] <= Track(a, vs).maxVelocity
      {
        assert vs[i] == vs[1..][i - 1];
      }
    }
  }

  /** `CalibrateAxisPosition` on one record: new bounds and the range derived
      from them. */
  function CalibratePosition(a: AxisData, lo: real, hi: real): (r: AxisData)
    ensures r.minPosition == lo && r.maxPosition == hi
    ensures r.range == RangeOf(lo, hi)
    ensures lo <= hi ==> r.range > 0.0
    ensures r == a.(minPosition := lo, maxPosition := hi, range := r.range)
    ensures Valid(a) ==> Valid(r)
  {
    a.(maxPosition := hi, minPosition := lo, range := if hi - lo != 0.0 then hi - lo else 1.0)
  }

  /** A normalised setpoint in [-1, 1] expressed in axis units. */
  function Denormalize(a: AxisData, s: real): real
  {
    (s + 1.0) * (a.range / 2.0) + a.minPosition
  }

  /** The inverse of `Denormalize`: axis units back to the normalised scale. */
  function Normalize(a: AxisData, x: real): real
    requires a.range != 0.0
  {
    2.0 * (x - a.minPosition) / a.range - 1.0
  }

  /** Denormalisation and normalisation undo one another. */
  lemma NormalizeRoundTrip(a: AxisData, s: real, x: real)
    requires a.range != 0.0
    ensures Normalize(a, Denormalize(a, s)) == s
    ensures Denormalize(a, Normalize(a, x)) == x
  {
  }

  /** On a calibrated record with distinct bounds, -1 maps to the lower bound,
      +1 to the upper bound, and [-1, 1] onto the interval between them. */
  lemma DenormalizeSpansBounds(a: AxisData, s: real)
    requires Valid(a) && a.minPosition < a.maxPosition
    requires -1.0 <= s <= 1.0
    ensures Denormalize(a, -1.0) == a.minPosition
    ensures Denormalize(a, 1.0) == a.maxPosition
    ensures a.minPosition <= Denormalize(a, s) <= a.maxPosition
  {
    assert a.range == a.maxPosition - a.minPosition;
    var u, h := s + 1.0, a.range / 2.0;
    assert 0.0 <= u <= 2.0 && h > 0.0 && 2.0 * h == a.range;
    assert u * h >= 0.0;
    assert 2.0 * h - u * h == (2.0 - u) * h >= 0.0;
  }

  /** A velocity in axis units on the normalised scale, as `GetAxisSpeed`
      returns it. */
  function NormalizedSpeed(a: AxisData, v: real): real
    requires a.range != 0.0
  {
    2.0 * v / a.range
  }

  /** The setpoints `s`, in order, each mapped into axis units; built by
      appending one mapped value at a time, as the feedback list is. */
  function DenormalizeAll(a: AxisData, s: seq<real>): (r: seq<real>)
    ensures |r| == |s|
    ensures forall i :: 0 <= i < |s| ==> r[i] == Denormalize(a, s[i])
  {
    if |s| == 0 then [] else DenormalizeAll(a, s[..|s| - 1]) + [Denormalize(a, s[|s| - 1])]
  }

  /** `SetAxisFeedback` on one record: the normalised setpoints replace the
      stored ones in axis units, the first becomes the commanded position, and
      the normalised velocity is brought into axis units. */
  function SetFeedback(a: AxisData, v: real, s: seq<real>): (r: AxisData)
    requires |s| > 0
    ensures r == a.(actualVelocity := r.actualVelocity, setpoints := r.setpoints, actualPosition := r.actualPosition)
    ensures |r.setpoints| == |s|
    ensures forall i :: 0 <= i < |s| ==> r.setpoints[i] == Denormalize(a, s[i])
    ensures r.actualPosition == r.setpoints[0]
    ensures a.range != 0.0 ==> forall i :: 0 <= i < |s| ==> Normalize(r, r.setpoints[i]) == s[i]
    ensures a.range != 0.0 ==> NormalizedSpeed(r, r.actualVelocity) == v
    ensures Valid(a) ==> Valid(r)
  {
    var mapped := DenormalizeAll(a, s);
    a.(actualVelocity := v * a.range / 2.0, setpoints := mapped, actualPosition := mapped[0])
  }

  /** The message-handling update of one record from a received position,
      velocity and acceleration at clock reading `now`. The received sample is
      projected forward by half the time since the last refresh, taken as the
      one-way delay. */
  function Ingest(a: AxisData, p: real, v: real, acc: real, now: real): (r: AxisData)
    requires a.range != 0.0
    ensures r.error >= 0.0 && r.error * Abs(a.range) == Abs(p - a.position)
    ensures r.position == Extrapolate(p, v, acc, (now - a.motionTime) / 2.0)
    ensures now == a.motionTime ==> r.position == p
    ensures r.velocity == v && r.acceleration == acc && r.motionTime == now
    ensures r == a.(position := r.position, velocity := v, acceleration := acc,
                    error := r.error, motionTime := now)
    ensures Valid(a) ==> Valid(r)
  {
    var error := Abs((p - a.position) / a.range);
    AbsQuotient(p - a.position, a.range);
    var delay := (now - a.motionTime) / 2.0;
    a.(error := error,
       motionTime := now,
       position := Extrapolate(p, v, acc, delay),
       acceleration := acc,
       velocity := v)
  }

  lemma AbsQuotient(x: real, y: real)
    requires y != 0.0
    ensures Abs(x / y) * Abs(y) == Abs(x)
  {
    assert (x / y) * y == x;
    if x / y < 0.0 {
      if y < 0.0 { assert Abs(x / y) * Abs(y) == (x / y) * y; }
      else { assert Abs(x / y) * Abs(y) == -(x / y) * y; }
    } else {
      if y < 0.0 { assert Abs(x / y) * Abs(y) == -(x / y) * y; }
      else { assert Abs(x / y) * Abs(y) == (x / y) * y; }
    }
  }

  lemma ScaleOrdered(lo: real, hi: real, k: real)
    requires k >= 0.0
    ensures lo <= hi ==> lo * k <= hi * k
  {
    if lo <= hi {
      assert hi * k - lo * k == (hi - lo) * k;
    }
  }

  /** Time since the record was last refreshed. */
  function Elapsed(a: AxisData, now: real): real
  {
    now - a.motionTime
  }

  /** The factor that widens every clamp envelope: one plus the last
      measured discrepancy. */
  function Tolerance(a: AxisData): real
  {
    1.0 + a.error
  }

  /** Scaling a pair of bounds by the tolerance widens the envelope only when
      the bounds bracket zero, as the velocity and acceleration extrema always
      do. Position bounds that are both positive are shifted upwards instead:
      the lower end of the envelope then lies above the calibrated minimum, so
      a position inside the calibrated bounds can be clamped. */
  lemma EnvelopeByTolerance(a: AxisData)
    requires a.error >= 0.0
    ensures a.minPosition <= 0.0 <= a.maxPosition ==>
              a.minPosition * Tolerance(a) <= a.minPosition && a.maxPosition <= a.maxPosition * Tolerance(a)
    ensures a.minVelocity <= 0.0 <= a.maxVelocity ==>
              a.minVelocity * Tolerance(a) <= a.minVelocity && a.maxVelocity <= a.maxVelocity * Tolerance(a)
    ensures 0.0 < a.minPosition && a.error > 0.0 ==> a.minPosition < a.minPosition * Tolerance(a)
  {
    Scaled(a.minPosition, a.error);
    Scaled(a.maxPosition, a.error);
    Scaled(a.minVelocity, a.error);
    Scaled(a.maxVelocity, a.error);
  }

  lemma Scaled(x: real, e: real)
    requires e >= 0.0
    ensures x * (1.0 + e) == x + x * e
    ensures x <= 0.0 ==> x * (1.0 + e) <= x
    ensures x >= 0.0 ==> x <= x * (1.0 + e)
    ensures x > 0.0 && e > 0.0 ==> x < x * (1.0 + e)
  {
  }

  /** The position target of the remote branch of `GetAxisSpeed` at clock
      reading `now`: the estimate extrapolated over the elapsed time, clamped
      to the position bounds widened by the tolerance. */
  function TargetPosition(a: AxisData, now: real): real
  {
    Clamp(Extrapolate(a.position, a.velocity, a.acceleration, Elapsed(a, now)),
          a.minPosition * Tolerance(a), a.maxPosition * Tolerance(a))
  }

  /** The velocity that reaches position `p` from the commanded position in
      the elapsed time, clamped to the widened velocity extrema. */
  function VelocityToward(a: AxisData, p: real, now: real): real
    requires now != a.motionTime
  {
    Clamp((p - a.actualPosition) / Elapsed(a, now),
          a.minVelocity * Tolerance(a), a.maxVelocity * Tolerance(a))
  }

  /** The acceleration that reaches velocity `v` from the commanded velocity
      in the elapsed time, clamped to the widened acceleration extrema. */
  function AccelerationToward(a: AxisData, v: real, now: real): real
    requires now != a.motionTime
  {
    Clamp((v - a.actualVelocity) / Elapsed(a, now),
          a.minAcceleration * Tolerance(a), a.maxAcceleration * Tolerance(a))
  }

  /** The value of the remote branch of `GetAxisSpeed`: the position target,
      the velocity toward it, the acceleration toward that velocity, and the
      speed that acceleration reaches from the commanded velocity over the
      elapsed time, on the normalised scale. */
  function RemoteSpeed(a: AxisData, now: real): real
    requires a.range != 0.0 && now != a.motionTime
  {
    var position := TargetPosition(a, now);
    var velocity := VelocityToward(a, position, now);
    var acceleration := AccelerationToward(a, velocity, now);
    SpeedAfter(a, acceleration, Elapsed(a, now))
  }

  /** The speed, on the normalised scale, reached from the commanded velocity
      by accelerating at `acc` for `dt`. */
  function SpeedAfter(a: AxisData, acc: real, dt: real): real
    requires a.range != 0.0
  {
    NormalizedSpeed(a, a.actualVelocity + acc * dt)
  }

  /** The position target lies in its widened envelope whenever the bounds
      are ordered, and an extrapolated position already inside the envelope
      is kept as it is. */
  lemma PositionWithin(a: AxisData, now: real)
    requires a.error >= 0.0
    ensures a.minPosition <= a.maxPosition ==>
              a.minPosition * Tolerance(a) <= TargetPosition(a, now) <= a.maxPosition * Tolerance(a)
    ensures var p := Extrapolate(a.position, a.velocity, a.acceleration, Elapsed(a, now));
            a.minPosition * Tolerance(a) <= p <= a.maxPosition * Tolerance(a) ==> TargetPosition(a, now) == p
  {
    ClampScaled(Extrapolate(a.position, a.velocity, a.acceleration, Elapsed(a, now)),
                a.minPosition, a.maxPosition, Tolerance(a));
  }

  /** Whatever position it aims at, the velocity target lies in its widened
      envelope whenever the extrema are ordered, and an exact velocity
      already inside the envelope is kept as it is. */
  lemma VelocityWithin(a: AxisData, p: real, now: real)
    requires a.error >= 0.0 && now != a.motionTime
    ensures a.minVelocity <= a.maxVelocity ==>
              a.minVelocity * Tolerance(a) <= VelocityToward(a, p, now) <= a.maxVelocity * Tolerance(a)
    ensures var v := (p - a.actualPosition) / Elapsed(a, now);
            a.minVelocity * Tolerance(a) <= v <= a.maxVelocity * Tolerance(a) ==> VelocityToward(a, p, now) == v
  {
    var x, k := (p - a.actualPosition) / Elapsed(a, now), Tolerance(a);
    assert VelocityToward(a, p, now) == Clamp(x, a.minVelocity * k, a.maxVelocity * k);
    ClampScaled(x, a.minVelocity, a.maxVelocity, k);
  }

  /** Whatever velocity it aims at, the acceleration target lies in its
      widened envelope whenever the extrema are ordered, and an exact
      acceleration already inside the envelope is kept as it is. */
  lemma AccelerationWithin(a: AxisData, v: real, now: real)
    requires a.error >= 0.0 && now != a.motionTime
    ensures a.minAcceleration <= a.maxAcceleration ==>
              a.minAcceleration * Tolerance(a) <= AccelerationToward(a, v, now) <= a.maxAcceleration * Tolerance(a)
    ensures var acc := (v - a.actualVelocity) / Elapsed(a, now);
            a.minAcceleration * Tolerance(a) <= acc <= a.maxAcceleration * Tolerance(a) ==> AccelerationToward(a, v, now) == acc
  {
    var x, k := (v - a.actualVelocity) / Elapsed(a, now), Tolerance(a);
    assert AccelerationToward(a, v, now) == Clamp(x, a.minAcceleration * k, a.maxAcceleration * k);
    ClampScaled(x, a.minAcceleration, a.maxAcceleration, k);
  }

  /** `Mathf.Clamp` into bounds scaled by a non-negative factor lands inside
      the scaled bounds when they are ordered. */
  lemma ClampScaled(v: real, lo: real, hi: real, k: real)
    requires k >= 0.0
    ensures lo <= hi ==> lo * k <= Clamp(v, lo * k, hi * k) <= hi * k
  {
    ScaleOrdered(lo, hi, k);
  }

  /** `v` lies between the speeds the two ends of the widened acceleration
      envelope would give over the time elapsed until `now`. */
  predicate SpeedBracketed(a: AxisData, now: real, v: real)
    requires a.range != 0.0
  {
    && SpeedAfter(a, a.minAcceleration * Tolerance(a), Elapsed(a, now)) <= v
    && v <= SpeedAfter(a, a.maxAcceleration * Tolerance(a), Elapsed(a, now))
  }

  /** On a valid record whose position bounds are ordered, the remote speed is
      bracketed by its acceleration envelope once time has moved on. */
  lemma RemoteSpeedWithin(a: AxisData, now: real)
    requires Valid(a) && now != a.motionTime
    ensures a.minPosition <= a.maxPosition && now > a.motionTime ==> SpeedBracketed(a, now, RemoteSpeed(a, now))
  {
    if a.minPosition <= a.maxPosition && now > a.motionTime {
      var velocity := VelocityToward(a, TargetPosition(a, now), now);
      AccelerationWithin(a, velocity, now);
      SpeedWithin(a, AccelerationToward(a, velocity, now), Elapsed(a, now));
    }
  }

  /** A joint at 50 moving at 10 with no acceleration, bounds 0 and 100 and no
      discrepancy, commanded at 50 and at rest, queried one time unit later:
      the position target is 60, the velocity and acceleration targets are
      10, and the speed is 10 over half the range. */
  lemma ElbowPrediction(a: AxisData, now: real)
    requires a.position == 50.0 && a.velocity == 10.0 && a.acceleration == 0.0
    requires a.minPosition == 0.0 && a.maxPosition == 100.0 && a.range == 100.0 && a.error == 0.0
    requires a.minVelocity == -20.0 && a.maxVelocity == 20.0
    requires a.minAcceleration == -20.0 && a.maxAcceleration == 20.0
    requires a.actualPosition == 50.0 && a.actualVelocity == 0.0
    requires now == a.motionTime + 1.0
    ensures TargetPosition(a, now) == 60.0
    ensures VelocityToward(a, 60.0, now) == 10.0
    ensures AccelerationToward(a, 10.0, now) == 10.0
    ensures RemoteSpeed(a, now) == 0.2
  {
  }

  /** The normalised speed grows with the applied acceleration when time runs
      forward and the range is positive. */
  lemma SpeedMonotone(a: AxisData, x: real, y: real, dt: real)
    requires a.range > 0.0 && dt > 0.0 && x <= y
    ensures SpeedAfter(a, x, dt) <= SpeedAfter(a, y, dt)
  {
    ScaleOrdered(x, y, dt);
    DivideOrdered(2.0 * (a.actualVelocity + x * dt), 2.0 * (a.actualVelocity + y * dt), a.range);
  }

  /** An acceleration inside its widened envelope gives a speed between the
      speeds of the envelope's ends. */
  lemma SpeedWithin(a: AxisData, acc: real, dt: real)
    requires a.range > 0.0 && dt > 0.0 && a.error >= 0.0
    requires a.minAcceleration * Tolerance(a) <= acc <= a.maxAcceleration * Tolerance(a)
    ensures SpeedAfter(a, a.minAcceleration * Tolerance(a), dt)
            <= SpeedAfter(a, acc, dt)
            <= SpeedAfter(a, a.maxAcceleration * Tolerance(a), dt)
  {
    SpeedMonotone(a, a.minAcceleration * Tolerance(a), acc, dt);
    SpeedMonotone(a, acc, a.maxAcceleration * Tolerance(a), dt);
  }

  lemma DivideOrdered(x: real, y: real, k: real)
    requires k > 0.0 && x <= y
    ensures x / k <= y / k
  {
    assert y / k - x / k == (y - x) / k;
  }

}
