/** Sensors: the attitude errors the flight controllers work on, read from the Euler angles (in
    degrees) of the first object tagged "protostructure", which need not be the main structure,
    and wrapped to the interval (-180, 180]. */
module Sensors {
  import opened Basics

  /** Truncation toward zero, as a float-to-integer cast does. */
  function Trunc(r: real): (n: int)
    ensures r >= 0.0 ==> 0 <= n && n as real <= r < n as real + 1.0
    ensures r < 0.0 ==> n <= 0 && n as real - 1.0 < r <= n as real
  {
    if r >= 0.0 then r.Floor else -((-r).Floor)
  }

  /** The remainder of C#'s floating-point `%` by 360: it has the sign of the dividend. */
  function FMod360(a: real): (r: real)
    ensures -360.0 < r < 360.0
    ensures a >= 0.0 ==> 0.0 <= r
    ensures a <= 0.0 ==> r <= 0.0
  {
    var q := Trunc(a / 360.0);
    a - 360.0 * q as real
  }

  /** WrapAngle: the angle brought into (-180, 180]. */
  function WrapAngle(a: real): real {
    var angle := FMod360(FMod360(a) + 360.0);
    if angle > 180.0 && angle <= 360.0 then angle - 360.0 else angle
  }

  /** The wrapped angle lies in (-180, 180] and differs from the input by whole turns. */
  lemma WrapAngleTurns(a: real) returns (k: int)
    ensures -180.0 < WrapAngle(a) <= 180.0
    ensures WrapAngle(a) == a + 360.0 * k as real
  {
    var q1 := Trunc(a / 360.0);
    var r1 := FMod360(a);
    assert r1 == a - 360.0 * q1 as real;
    var b := r1 + 360.0;
    var q2 := Trunc(b / 360.0);
    var r2 := FMod360(b);
    assert r2 == b - 360.0 * q2 as real;
    if r2 > 180.0 && r2 <= 360.0 {
      k := -q1 - q2;
    } else {
      k := 1 - q1 - q2;
    }
  }

  /** Two angles in (-180, 180] that differ by whole turns are equal. */
  lemma SameTurnClass(x: real, y: real, k: int)
    requires -180.0 < x <= 180.0 && -180.0 < y <= 180.0
    requires x == y + 360.0 * k as real
    ensures x == y
  {
  }

  /** An angle already in (-180, 180] is left alone. */
  lemma WrapAngleIdentity(a: real)
    requires -180.0 < a <= 180.0
    ensures WrapAngle(a) == a
  {
    var k := WrapAngleTurns(a);
    SameTurnClass(WrapAngle(a), a, k);
  }

  /** Wrapping depends only on the direction: a full turn changes nothing, and wrapping twice
      is wrapping once. */
  lemma WrapAnglePeriodic(a: real)
    ensures WrapAngle(a + 360.0) == WrapAngle(a)
    ensures WrapAngle(WrapAngle(a)) == WrapAngle(a)
  {
    var k1 := WrapAngleTurns(a + 360.0);
    var k2 := WrapAngleTurns(a);
    SameTurnClass(WrapAngle(a + 360.0), WrapAngle(a), k1 - k2 + 1);
    WrapAngleIdentity(WrapAngle(a));
  }

  /** GetPitchError: the pitch error when holding level. */
  function PitchError(euler: Vec3): real {
    WrapAngle(euler.x)
  }

  /** GetPitchErrorForward: the error from 16 degrees of forward pitch. */
  function PitchErrorForward(euler: Vec3): real {
    WrapAngle(euler.x) - 16.0
  }

  /** GetRollError. */
  function RollError(euler: Vec3): real {
    WrapAngle(euler.z)
  }

  /** GetYawError: the error from the 45-degree heading the vehicle is placed at. */
  function YawError(euler: Vec3): real {
    WrapAngle(euler.y) - 45.0
  }

  /** The errors lie in the wrapped interval shifted by their set points, and each vanishes
      exactly at its set point. */
  lemma ErrorRanges(euler: Vec3)
    ensures -180.0 < PitchError(euler) <= 180.0 && -180.0 < RollError(euler) <= 180.0
    ensures -196.0 < PitchErrorForward(euler) <= 164.0
    ensures -225.0 < YawError(euler) <= 135.0
    ensures -180.0 < euler.y <= 180.0 ==> (YawError(euler) == 0.0 <==> euler.y == 45.0)
    ensures -180.0 < euler.x <= 180.0 ==> (PitchErrorForward(euler) == 0.0 <==> euler.x == 16.0)
  {
    var _ := WrapAngleTurns(euler.x);
    var _ := WrapAngleTurns(euler.y);
    var _ := WrapAngleTurns(euler.z);
    if -180.0 < euler.y <= 180.0 {
      WrapAngleIdentity(euler.y);
    }
    if -180.0 < euler.x <= 180.0 {
      WrapAngleIdentity(euler.x);
    }
  }
}
