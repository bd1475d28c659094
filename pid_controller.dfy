/** PIDController: a proportional-integral-derivative controller with an integral clamped to
    [-20, 20], stepped once per physics tick of 0.02 s. */
module Pid {
  import opened Basics

  /** Time.fixedDeltaTime as makePrototype sets it. */
  const FixedDeltaTime: real := 0.02

  const ErrorSumMax: real := 20.0

  /** The controller's fields: the gains of the last call and the error memory. */
  datatype PidState = PidState(gainP: real, gainI: real, gainD: real, errorOld: real, errorSum: real)

  const Fresh: PidState := PidState(0.0, 0.0, 0.0, 0.0, 0.0)

  /** GetFactorFromPIDController: the gains are taken from (x, y, z), the integral accumulates
      the error over one tick and is clamped, the derivative is the change of the error over one
      tick. */
  function PidStep(s: PidState, gains: Vec3, e: real): (r: (PidState, real))
    ensures -ErrorSumMax <= r.0.errorSum <= ErrorSumMax
    ensures r.0.errorOld == e
    ensures r.0.gainP == gains.x && r.0.gainI == gains.y && r.0.gainD == gains.z
  {
    var sum := Clamp(s.errorSum + FixedDeltaTime * e, -ErrorSumMax, ErrorSumMax);
    var derivative := (e - s.errorOld) / FixedDeltaTime;
    (PidState(gains.x, gains.y, gains.z, e, sum), gains.x * e + gains.y * sum + gains.z * derivative)
  }

  /** Inside the clamp band the integral is the running sum; a positive error never lowers it and
      a negative one never raises it. */
  lemma IntegralFollowsError(s: PidState, gains: Vec3, e: real)
    requires -ErrorSumMax <= s.errorSum <= ErrorSumMax
    ensures var sum := PidStep(s, gains, e).0.errorSum;
      && (-ErrorSumMax <= s.errorSum + FixedDeltaTime * e <= ErrorSumMax ==> sum == s.errorSum + FixedDeltaTime * e)
      && (e >= 0.0 ==> s.errorSum <= sum)
      && (e <= 0.0 ==> sum <= s.errorSum)
  {
  }

  /** The integral term of the output is bounded by the integral gain times the clamp. */
  lemma IntegralTermBounded(s: PidState, gains: Vec3, e: real)
    ensures Abs(gains.y * PidStep(s, gains, e).0.errorSum) <= Abs(gains.y) * ErrorSumMax
  {
    var sum := PidStep(s, gains, e).0.errorSum;
    ProductBound(gains.y, sum, ErrorSumMax);
  }

  lemma ProductBound(a: real, b: real, c: real)
    requires -c <= b <= c
    ensures Abs(a * b) <= Abs(a) * c
  {
    if a >= 0.0 {
      assert a * b <= a * c;
      assert -(a * c) <= a * b;
    } else {
      assert a * b >= a * c;
      assert a * b <= -(a * c);
    }
  }

  /** When the same error is seen twice in a row, the derivative term of the second call is zero. */
  lemma SteadyErrorHasNoDerivative(s: PidState, gains: Vec3, e: real)
    ensures var s1 := PidStep(s, gains, e).0;
      PidStep(s1, gains, e).1 == gains.x * e + gains.y * PidStep(s1, gains, e).0.errorSum
  {
  }

  /** A fresh controller seeing no error gives no output. */
  lemma FreshAtRest(gains: Vec3)
    ensures PidStep(Fresh, gains, 0.0) == (PidState(gains.x, gains.y, gains.z, 0.0, 0.0), 0.0)
  {
    var r := PidStep(Fresh, gains, 0.0);
    assert r.0.errorSum == 0.0;
    assert (0.0 - 0.0) / FixedDeltaTime == 0.0;
    assert r.1 == gains.x * 0.0 + gains.y * 0.0 + gains.z * 0.0;
    assert gains.x * 0.0 == 0.0 && gains.y * 0.0 == 0.0 && gains.z * 0.0 == 0.0;
  }

  /** The controller after a run of errors, one call per tick. */
  function PidRun(s: PidState, gains: Vec3, es: seq<real>): PidState
    decreases |es|
  {
    if |es| == 0 then s else PidStep(PidRun(s, gains, es[..|es| - 1]), gains, es[|es| - 1]).0
  }

  function Sum(es: seq<real>): real
    decreases |es|
  {
    if |es| == 0 then 0.0 else Sum(es[..|es| - 1]) + es[|es| - 1]
  }

  /** As long as the running integral stays inside the clamp band, a fresh controller's integral
      is the tick length times the sum of the errors seen, and it remembers the last error. */
  lemma {:induction false} IntegralIsSum(gains: Vec3, es: seq<real>)
    requires forall n :: 0 <= n <= |es| ==> -ErrorSumMax <= FixedDeltaTime * Sum(es[..n]) <= ErrorSumMax
    ensures PidRun(Fresh, gains, es).errorSum == FixedDeltaTime * Sum(es)
    ensures |es| > 0 ==> PidRun(Fresh, gains, es).errorOld == es[|es| - 1]
    decreases |es|
  {
    if |es| > 0 {
      var n := |es| - 1;
      forall k | 0 <= k <= n
        ensures -ErrorSumMax <= FixedDeltaTime * Sum(es[..n][..k]) <= ErrorSumMax
      {
        assert es[..n][..k] == es[..k];
      }
      IntegralIsSum(gains, es[..n]);
      assert es[..|es|] == es;
      assert -ErrorSumMax <= FixedDeltaTime * Sum(es[..|es|]) <= ErrorSumMax;
    }
  }

  class PIDController {
    var gainP: real
    var gainI: real
    var gainD: real
    var errorOld: real
    var errorSum: real

    function State(): PidState
      reads this
    {
      PidState(gainP, gainI, gainD, errorOld, errorSum)
    }

    constructor ()
      ensures State() == Fresh
    {
      gainP, gainI, gainD, errorOld, errorSum := 0.0, 0.0, 0.0, 0.0, 0.0;
    }

    method GetFactorFromPIDController(gains: Vec3, error: real) returns (output: real)
      modifies this
      ensures (State(), output) == PidStep(old(State()), gains, error)
    {
      ghost var s0 := State();
      gainP, gainI, gainD := gains.x, gains.y, gains.z;
      output := 0.0;
      output := output + gainP * error;
      errorSum := errorSum + FixedDeltaTime * error;
      errorSum := Clamp(errorSum, -ErrorSumMax, ErrorSumMax);
      output := output + gainI * errorSum;
      var derivative := (error - errorOld) / FixedDeltaTime;
      errorOld := error;
      output := output + gainD * derivative;
      assert derivative == (error - s0.errorOld) / FixedDeltaTime;
      assert output == gains.x * error + gains.y * errorSum + gains.z * derivative;
      assert errorSum == Clamp(s0.errorSum + FixedDeltaTime * error, -ErrorSumMax, ErrorSumMax);
      assert PidStep(s0, gains, error).1 == output;
      assert PidStep(s0, gains, error).0 == State();
    }
  }
}
