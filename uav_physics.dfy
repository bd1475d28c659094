/** UAVPhysics: the per-tick flight controller of a prototype. Each tick it decides whether the
    hover phase is over, runs the attitude controllers, allocates thrust to the motors by
    quadrant, spends battery energy, and applies the ordered termination checks. What the
    physics engine reports about the main structure in a tick is an input (Sensed), and the
    forces it is asked to apply are an output. */
module Physics {
  import opened Basics
  import opened VehicleLayout
  import opened Sensors
  import opened Pid

  const PitchGains: Vec3 := Vec3(2.0, 3.0, 2.0)
  const RollGains: Vec3 := Vec3(2.0, 0.2, 0.5)
  const YawGains: Vec3 := Vec3(1.0, 0.0, 0.0)
  const ThrottleGains: Vec3 := Vec3(0.5, 0.2, 0.2)

  /** Scales Unity speed to miles per hour for the base design. */
  const VelocityScale: real := 0.5418
  /** Scales Unity distance to miles for the base design. */
  const RangeScale: real := 38.0
  /** The energy figure that marks a runaway simulation as out of energy. */
  const Drained: real := 1000000000000000.0
  const HoverSteps: int := 100
  const MaxSteps: int := 40000
  const MaxThrottle: real := 200.0

  /** resultMsg; it is unset (NoResult) until the analysis produces a verdict. Failure is
      declared by the source but never produced. */
  datatype Verdict = NoResult | Success | Failure | CouldNotStabilize | HitBoundary

  /** What the engine reports in one tick: the main structure's velocity, angular velocity and
      position, the Euler angles of the first object tagged "protostructure" (which need not be
      the main structure), the magnitude of the main structure's horizontal velocity, its distance
      from where it started, and the height of the test stand. */
  datatype Sensed = Sensed(velocity: Vec3, angularVelocity: Vec3, position: Vec3, euler: Vec3,
                           planarSpeed: real, travelled: real, standHeight: real)

  /** The fields of a UAVPhysics and of its four controllers. */
  datatype Flight = Flight(steps: int, hover: bool, throttle: real, energyUsed: real, ended: bool,
                           range: real, velocity: real, result: Verdict,
                           pitch: PidState, roll: PidState, yaw: PidState, throttleControl: PidState)

  const Initial: Flight := Flight(0, true, 0.0, 0.0, false, -1.0, 0.0, NoResult, Fresh, Fresh, Fresh, Fresh)

  // ---------------------------------------------------------------------------------------
  // The attitude controllers

  /** The vehicle is holding still: small linear and angular velocities. */
  predicate Calm(s: Sensed) {
    Abs(s.velocity.y) < 0.1 && Abs(s.angularVelocity.y) < 0.05 && Abs(s.angularVelocity.x) < 0.05
    && Abs(s.velocity.x) < 0.1 && Abs(s.velocity.z) < 0.1
  }

  function Doubled(g: Vec3): Vec3 {
    Vec3(g.x * 2.0, g.y * 2.0, g.z * 2.0)
  }

  /** The controller part of a tick: the new step count and hover flag, the controllers after
      their calls and their outputs. */
  datatype Control = Control(steps: int, hover: bool, pitch: PidState, roll: PidState, yaw: PidState,
                             pitchOut: real, rollOut: real, yawOut: real)

  function PitchErrorFor(hover: bool, euler: Vec3): real {
    if !hover then PitchErrorForward(euler) else PitchError(euler)
  }

  function PitchGainsFor(throttle: real): Vec3 {
    if throttle > 100.0 then Doubled(PitchGains) else PitchGains
  }

  function Controls(f: Flight, s: Sensed): Control {
    var steps := f.steps + 1;
    var hover := if Calm(s) && steps > HoverSteps then false else f.hover;
    var pitch := PidStep(f.pitch, PitchGainsFor(f.throttle), PitchErrorFor(hover, s.euler));
    var roll := PidStep(f.roll, RollGains, RollError(s.euler) * -1.0);
    var yaw := PidStep(f.yaw, YawGains, YawError(s.euler));
    Control(steps, hover, pitch.0, roll.0, yaw.0, pitch.1, roll.1, yaw.1)
  }

  /** The hover phase ends at most once and never resumes: it ends in the first tick after the
      hundredth in which the vehicle is calm. */
  lemma HoverLatch(f: Flight, s: Sensed)
    ensures !Controls(f, s).hover <==> !f.hover || (Calm(s) && f.steps + 1 > HoverSteps)
    ensures Controls(f, s).steps == f.steps + 1
    ensures f.steps < HoverSteps ==> Controls(f, s).hover == f.hover
  {
  }

  /** The controllers see the forward pitch error exactly when the hover phase is over and the
      negated roll error; the pitch gains are doubled exactly when the throttle is above 100. */
  lemma ControlInputs(f: Flight, s: Sensed)
    ensures var c := Controls(f, s);
      && (c.pitch.errorOld == PitchError(s.euler) - 16.0 || c.hover)
      && (c.hover ==> c.pitch.errorOld == PitchError(s.euler))
      && c.roll.errorOld == -RollError(s.euler)
      && c.yaw.errorOld == YawError(s.euler)
      && (f.throttle > 100.0 <==> c.pitch.gainP == 4.0)
      && (f.throttle > 100.0 ==> c.pitch.gainI == 6.0 && c.pitch.gainD == 4.0)
      && (f.throttle <= 100.0 ==> c.pitch.gainI == 3.0 && c.pitch.gainD == 2.0)
  {
  }

  // ---------------------------------------------------------------------------------------
  // Thrust allocation

  /** A motor's entry in the forces dictionary. */
  datatype Thrust = Thrust(motor: Motor, force: real)

  /** Does string s contain t? */
  predicate Contains(s: string, t: string)
    decreases |s|
  {
    (|t| <= |s| && s[..|t|] == t) || (|s| > 0 && Contains(s[1..], t))
  }

  /** getYawIncrement: counter-clockwise motors take the yaw correction with the opposite sign. */
  function YawIncrement(name: string, v: real): real {
    if Contains(name, "ccw") then -v else v
  }

  /** The attitude part of each quadrant's motor command, as the force loops write it. */
  function QuadrantBase(q: Quadrant, throttle: real, p: real, r: real): real {
    match q
    case FrontRight => throttle + p + r
    case FrontLeft => throttle + p - r
    case BackRight => throttle + -p + r
    case BackLeft => throttle + -p + -r
    case Right => throttle + r
    case Left => throttle - r
    case Front => throttle + p
    case Back => throttle - p
    case Unassigned => throttle
  }

  /** Which way each quadrant takes the pitch and roll corrections. */
  function PitchSign(q: Quadrant): real {
    match q
    case FrontRight => 1.0
    case FrontLeft => 1.0
    case Front => 1.0
    case BackRight => -1.0
    case BackLeft => -1.0
    case Back => -1.0
    case _ => 0.0
  }

  function RollSign(q: Quadrant): real {
    match q
    case FrontRight => 1.0
    case BackRight => 1.0
    case Right => 1.0
    case FrontLeft => -1.0
    case BackLeft => -1.0
    case Left => -1.0
    case _ => 0.0
  }

  /** Each quadrant's command is the throttle plus its signed pitch and roll corrections, and
      opposite quadrants take opposite corrections, so a mirrored pair adds up to twice the
      throttle. */
  lemma QuadrantBaseSigns(q: Quadrant, t: real, p: real, r: real)
    ensures QuadrantBase(q, t, p, r) == t + PitchSign(q) * p + RollSign(q) * r
    ensures QuadrantBase(q, t, p, r) + QuadrantBase(Opposite(q), t, p, r) == 2.0 * t
  {
  }

  /** The entries one force loop adds for the motors of its quadrant. */
  function GroupForces(ms: seq<Motor>, base: real, yaw: real): seq<Thrust>
    decreases |ms|
  {
    if |ms| == 0 then []
    else
      var n := |ms| - 1;
      GroupForces(ms[..n], base, yaw) + [Thrust(ms[n], base + YawIncrement(ms[n].name, yaw))]
  }

  /** The entries of the force loop for quadrant q. */
  function QuadrantForces(ms: seq<Motor>, q: Quadrant, t: real, p: real, r: real, y: real): seq<Thrust> {
    GroupForces(MotorsIn(ms, q), QuadrantBase(q, t, p, r), y)
  }

  /** The forces dictionary of a tick, in insertion order: one force loop per quadrant. */
  function Forces(ms: seq<Motor>, t: real, p: real, r: real, y: real): seq<Thrust> {
    QuadrantForces(ms, FrontRight, t, p, r, y) + QuadrantForces(ms, FrontLeft, t, p, r, y)
    + QuadrantForces(ms, BackRight, t, p, r, y) + QuadrantForces(ms, BackLeft, t, p, r, y)
    + QuadrantForces(ms, Right, t, p, r, y) + QuadrantForces(ms, Left, t, p, r, y)
    + QuadrantForces(ms, Front, t, p, r, y) + QuadrantForces(ms, Back, t, p, r, y)
  }

  lemma {:induction false} GroupForcesMembers(ms: seq<Motor>, base: real, yaw: real)
    ensures forall th :: th in GroupForces(ms, base, yaw) <==> th.motor in ms && th.force == base + YawIncrement(th.motor.name, yaw)
    decreases |ms|
  {
    if |ms| > 0 {
      var n := |ms| - 1;
      GroupForcesMembers(ms[..n], base, yaw);
      assert ms == ms[..n] + [ms[n]];
    }
  }

  lemma QuadrantForcesMembers(ms: seq<Motor>, q: Quadrant, t: real, p: real, r: real, y: real)
    ensures forall th :: th in QuadrantForces(ms, q, t, p, r, y) <==>
      th.motor in ms && th.motor.quadrant == q
      && th.force == t + PitchSign(q) * p + RollSign(q) * r + YawIncrement(th.motor.name, y)
  {
    MotorsInMembers(ms, q);
    GroupForcesMembers(MotorsIn(ms, q), QuadrantBase(q, t, p, r), y);
    QuadrantBaseSigns(q, t, p, r);
  }

  /** A tick commands exactly the motors that have a quadrant: each gets its quadrant's command
      plus its yaw increment, and a motor left without a quadrant gets no command at all. */
  lemma ForcesMembers(ms: seq<Motor>, t: real, p: real, r: real, y: real)
    ensures forall th :: th in Forces(ms, t, p, r, y) <==>
      th.motor in ms && th.motor.quadrant != Unassigned
      && th.force == t + PitchSign(th.motor.quadrant) * p + RollSign(th.motor.quadrant) * r + YawIncrement(th.motor.name, y)
  {
    QuadrantForcesMembers(ms, FrontRight, t, p, r, y);
    QuadrantForcesMembers(ms, FrontLeft, t, p, r, y);
    QuadrantForcesMembers(ms, BackRight, t, p, r, y);
    QuadrantForcesMembers(ms, BackLeft, t, p, r, y);
    QuadrantForcesMembers(ms, Right, t, p, r, y);
    QuadrantForcesMembers(ms, Left, t, p, r, y);
    QuadrantForcesMembers(ms, Front, t, p, r, y);
    QuadrantForcesMembers(ms, Back, t, p, r, y);
  }

  // ---------------------------------------------------------------------------------------
  // Energy

  /** The force applied to each motor: the command, capped at the motor's maximum thrust. */
  function Applied(fs: seq<Thrust>): (r: seq<real>)
    ensures |r| == |fs|
    decreases |fs|
  {
    if |fs| == 0 then []
    else Applied(fs[..|fs| - 1]) + [MinReal(fs[|fs| - 1].force, fs[|fs| - 1].motor.maximumThrust)]
  }

  /** The energy one tick of motor commands uses. */
  function Spent(fs: seq<Thrust>): real
    decreases |fs|
  {
    if |fs| == 0 then 0.0
    else Spent(fs[..|fs| - 1]) + MinReal(fs[|fs| - 1].force, fs[|fs| - 1].motor.maximumThrust) / 500.0
  }

  /** The most energy the commands could use: every motor at its maximum thrust. */
  function Ceiling(fs: seq<Thrust>): real
    decreases |fs|
  {
    if |fs| == 0 then 0.0 else Ceiling(fs[..|fs| - 1]) + fs[|fs| - 1].motor.maximumThrust / 500.0
  }

  /** No motor is driven above its maximum thrust or its command; the energy used is the total
      applied force over 500 and never more than the ceiling. */
  lemma {:induction false} SpentIsApplied(fs: seq<Thrust>)
    ensures forall i :: 0 <= i < |fs| ==>
      Applied(fs)[i] <= fs[i].motor.maximumThrust && Applied(fs)[i] <= fs[i].force
      && (Applied(fs)[i] == fs[i].force || Applied(fs)[i] == fs[i].motor.maximumThrust)
    ensures Spent(fs) == Sum(Applied(fs)) / 500.0
    ensures Spent(fs) <= Ceiling(fs)
    decreases |fs|
  {
    if |fs| > 0 {
      var n := |fs| - 1;
      SpentIsApplied(fs[..n]);
      var a := Applied(fs);
      assert a[..n] == Applied(fs[..n]);
      assert forall i :: 0 <= i < n ==> fs[..n][i] == fs[i];
    }
  }

  // ---------------------------------------------------------------------------------------
  // The tick

  /** getDistance: the distance travelled once forward flight began, otherwise the negated
      vertical speed, scaled to miles. */
  function Range(hover: bool, s: Sensed): real {
    (if !hover then s.travelled else -Abs(s.velocity.y)) / RangeScale
  }

  /** A hovering vehicle never reports a positive range. */
  lemma RangeSign(hover: bool, s: Sensed)
    ensures hover ==> Range(hover, s) <= 0.0
    ensures !hover && s.travelled >= 0.0 ==> Range(hover, s) >= 0.0
  {
  }

  /** The run-time guard. The source tests the x coordinate twice, once against 2000 and once
      against 4000, and never tests z. */
  predicate Runaway(s: Sensed, steps: int) {
    Abs(s.position.x) > 2000.0 || Abs(s.position.x) > 4000.0 || steps > MaxSteps
  }

  /** The guard depends on nothing but |x| > 2000 and the step count. */
  lemma RunawayTest(s: Sensed, steps: int)
    ensures Runaway(s, steps) <==> Abs(s.position.x) > 2000.0 || steps > MaxSteps
  {
  }

  datatype TickResult = TickResult(flight: Flight, hit: bool, applied: seq<real>)


  /** The energy branch of a tick: commands are applied while the battery lasts; otherwise the
      analysis ends, successfully only if forward flight had begun. */
  function EnergyStep(f: Flight, s: Sensed, fs: seq<Thrust>, battery: real): (Flight, seq<real>) {
    if f.energyUsed < battery then (f.(energyUsed := f.energyUsed + Spent(fs)), Applied(fs))
    else if !f.hover then
      (f.(velocity := VelocityScale * s.planarSpeed, range := Range(f.hover, s), ended := true, result := Success), [])
    else
      (f.(velocity := VelocityScale * s.planarSpeed, range := Range(f.hover, s), ended := true, result := CouldNotStabilize), [])
  }

  /** The first checks after the energy branch: the test stand and the run-time guard. */
  function GroundChecks(f: Flight, s: Sensed, hitIn: bool): (Flight, bool) {
    var low := s.position.y <= s.standHeight;
    var f1 := if low then f.(result := HitBoundary) else f;
    (if Runaway(s, f.steps) then f1.(energyUsed := Drained) else f1, hitIn || low)
  }

  /** The last checks: the height limit and the collision flag. */
  function EndChecks(f: Flight, s: Sensed, hit: bool): Flight {
    var f1 := if s.position.y > 1200.0
      then f.(velocity := VelocityScale * s.planarSpeed, range := Range(f.hover, s), ended := true, result := CouldNotStabilize)
      else f;
    if hit
    then f1.(velocity := s.planarSpeed, ended := true, range := Range(f.hover, s),
             result := if !f.hover then HitBoundary else CouldNotStabilize)
    else f1
  }

  /** The checks after the energy branch, in order. */
  function Checks(f: Flight, s: Sensed, hitIn: bool): (Flight, bool) {
    var g := GroundChecks(f, s, hitIn);
    (EndChecks(g.0, s, g.1), g.1)
  }

  /** AddMotorAndFoilForce over the motors of the layout and its battery energy. */
  function Tick(f: Flight, s: Sensed, hitIn: bool, ms: seq<Motor>, battery: real): TickResult {
    var c := Controls(f, s);
    var fs := Forces(ms, f.throttle, c.pitchOut, c.rollOut, c.yawOut);
    var f1 := f.(steps := c.steps, hover := c.hover, pitch := c.pitch, roll := c.roll, yaw := c.yaw);
    var e := EnergyStep(f1, s, fs, battery);
    var k := Checks(e.0, s, hitIn);
    TickResult(k.0, k.1, e.1)
  }

  /** What the energy branch changes. */
  lemma EnergyStepFacts(f: Flight, s: Sensed, fs: seq<Thrust>, battery: real)
    ensures var e := EnergyStep(f, s, fs, battery);
      && e.0 == f.(energyUsed := e.0.energyUsed, velocity := e.0.velocity, range := e.0.range,
                   ended := e.0.ended, result := e.0.result)
      && (f.energyUsed < battery ==> e.0 == f.(energyUsed := f.energyUsed + Spent(fs)) && e.1 == Applied(fs))
      && (f.energyUsed >= battery ==>
            e.0 == f.(velocity := VelocityScale * s.planarSpeed, range := Range(f.hover, s), ended := true,
                      result := if !f.hover then Success else CouldNotStabilize)
            && e.1 == [])
  {
  }

  /** What the final checks change. */
  lemma ChecksFacts(f: Flight, s: Sensed, hitIn: bool)
    ensures var k := Checks(f, s, hitIn);
      && k.0 == f.(energyUsed := k.0.energyUsed, velocity := k.0.velocity, range := k.0.range,
                   ended := k.0.ended, result := k.0.result)
      && (k.1 <==> hitIn || s.position.y <= s.standHeight)
      && k.0.energyUsed == (if Runaway(s, f.steps) then Drained else f.energyUsed)
      && (k.0.ended <==> f.ended || s.position.y > 1200.0 || k.1)
      && (k.1 ==> k.0.result == (if !f.hover then HitBoundary else CouldNotStabilize)
                  && k.0.velocity == s.planarSpeed && k.0.range == Range(f.hover, s))
      && (!k.1 && s.position.y > 1200.0 ==>
            k.0.result == CouldNotStabilize && k.0.velocity == VelocityScale * s.planarSpeed
            && k.0.range == Range(f.hover, s))
      && (!k.1 && s.position.y <= 1200.0 ==>
            k.0.result == f.result && k.0.velocity == f.velocity && k.0.range == f.range)
  {
  }

  /** The analysis ends in a tick exactly when it had ended, the battery was spent, the vehicle
      rose above 1200, or it hit something; the hit flag is set from then on. */
  lemma TickEnds(f: Flight, s: Sensed, hitIn: bool, ms: seq<Motor>, battery: real)
    ensures var r := Tick(f, s, hitIn, ms, battery);
      && (r.hit <==> hitIn || s.position.y <= s.standHeight)
      && (r.flight.ended <==> f.ended || f.energyUsed >= battery || s.position.y > 1200.0 || r.hit)
      && r.flight.steps == f.steps + 1 && r.flight.hover == Controls(f, s).hover
      && r.flight.throttle == f.throttle
  {
    var c := Controls(f, s);
    var fs := Forces(ms, f.throttle, c.pitchOut, c.rollOut, c.yawOut);
    var f1 := f.(steps := c.steps, hover := c.hover, pitch := c.pitch, roll := c.roll, yaw := c.yaw);
    EnergyStepFacts(f1, s, fs, battery);
    ChecksFacts(EnergyStep(f1, s, fs, battery).0, s, hitIn);
  }

  /** The verdict of a tick, by the first check that decides it counting from the last: a hit
      gives HitBoundary in forward flight and CouldNotStabilize while hovering, with the raw
      planar speed; then the height limit; then an empty battery, which counts as Success only in
      forward flight; otherwise the verdict, range and velocity are left alone. */
  lemma TickVerdict(f: Flight, s: Sensed, hitIn: bool, ms: seq<Motor>, battery: real)
    ensures var r := Tick(f, s, hitIn, ms, battery); var hover := Controls(f, s).hover;
      && (r.hit ==> r.flight.result == (if !hover then HitBoundary else CouldNotStabilize)
                    && r.flight.velocity == s.planarSpeed && r.flight.range == Range(hover, s))
      && (!r.hit && s.position.y > 1200.0 ==>
                    r.flight.result == CouldNotStabilize && r.flight.velocity == VelocityScale * s.planarSpeed
                    && r.flight.range == Range(hover, s))
      && (!r.hit && s.position.y <= 1200.0 && f.energyUsed >= battery ==>
                    r.flight.result == (if !hover then Success else CouldNotStabilize)
                    && r.flight.velocity == VelocityScale * s.planarSpeed && r.flight.range == Range(hover, s))
      && (!r.hit && s.position.y <= 1200.0 && f.energyUsed < battery ==>
                    r.flight.result == f.result && r.flight.velocity == f.velocity && r.flight.range == f.range)
  {
    var c := Controls(f, s);
    var fs := Forces(ms, f.throttle, c.pitchOut, c.rollOut, c.yawOut);
    var f1 := f.(steps := c.steps, hover := c.hover, pitch := c.pitch, roll := c.roll, yaw := c.yaw);
    EnergyStepFacts(f1, s, fs, battery);
    ChecksFacts(EnergyStep(f1, s, fs, battery).0, s, hitIn);
  }

  /** While the battery lasts the motors are commanded and their energy is added to the total,
      unless the run-time guard drains the battery outright; an empty battery commands nothing. */
  lemma TickEnergy(f: Flight, s: Sensed, hitIn: bool, ms: seq<Motor>, battery: real)
    ensures var r := Tick(f, s, hitIn, ms, battery); var c := Controls(f, s);
      var fs := Forces(ms, f.throttle, c.pitchOut, c.rollOut, c.yawOut);
      && (Runaway(s, f.steps + 1) ==> r.flight.energyUsed == Drained)
      && (!Runaway(s, f.steps + 1) && f.energyUsed < battery ==> r.flight.energyUsed == f.energyUsed + Spent(fs))
      && (!Runaway(s, f.steps + 1) && f.energyUsed >= battery ==> r.flight.energyUsed == f.energyUsed)
      && r.applied == (if f.energyUsed < battery then Applied(fs) else [])
  {
    var c := Controls(f, s);
    var fs := Forces(ms, f.throttle, c.pitchOut, c.rollOut, c.yawOut);
    var f1 := f.(steps := c.steps, hover := c.hover, pitch := c.pitch, roll := c.roll, yaw := c.yaw);
    EnergyStepFacts(f1, s, fs, battery);
    ChecksFacts(EnergyStep(f1, s, fs, battery).0, s, hitIn);
  }

  // ---------------------------------------------------------------------------------------
  // The autopilot

  /** The throttle update of AddAutoPilot: the throttle controller works on the vertical speed
      and its output is subtracted, within [0, 200]. */
  function AutoPilot(f: Flight, s: Sensed): (r: Flight)
    ensures 0.0 <= r.throttle <= MaxThrottle
    ensures r == f.(throttleControl := r.throttleControl, throttle := r.throttle)
  {
    var (tc, out) := PidStep(f.throttleControl, ThrottleGains, s.velocity.y);
    f.(throttleControl := tc, throttle := Clamp(f.throttle + -out, 0.0, MaxThrottle))
  }

  /** A rising vehicle never gets more throttle from a throttle controller with no memory, and a
      sinking one never gets less. */
  lemma AutoPilotOpposesClimb(f: Flight, s: Sensed)
    requires f.throttleControl.errorOld == 0.0 && f.throttleControl.errorSum == 0.0
    requires 0.0 <= f.throttle <= MaxThrottle
    ensures s.velocity.y >= 0.0 ==> AutoPilot(f, s).throttle <= f.throttle
    ensures s.velocity.y <= 0.0 ==> AutoPilot(f, s).throttle >= f.throttle
  {
    var v := s.velocity.y;
    var step := PidStep(f.throttleControl, ThrottleGains, v);
    assert step.0.errorSum == Clamp(FixedDeltaTime * v, -ErrorSumMax, ErrorSumMax);
    assert step.1 == 0.5 * v + 0.2 * step.0.errorSum + 0.2 * (v / FixedDeltaTime);
  }

  // ---------------------------------------------------------------------------------------
  // The class

  /** UavCollision's hit flag: set by the engine on a collision and by the test-stand check. */
  class Collision {
    var hit: bool

    constructor ()
      ensures !hit
    {
      hit := false;
    }
  }

  class UAVPhysics {
    var steps: int
    var hover: bool
    var throttle: real
    var totalMotorEnergyUsed: real
    var analysisEnded: bool
    var range: real
    var velocity: real
    var resultMsg: Verdict
    const pidPitch: PIDController
    const pidRoll: PIDController
    const pidYaw: PIDController
    const throttleControl: PIDController
    const vehicle: QuadrantMotorVehicleLayout

    /** The four controllers are separate objects. */
    predicate Valid()
      reads this
    {
      pidPitch != pidRoll && pidPitch != pidYaw && pidPitch != throttleControl
      && pidRoll != pidYaw && pidRoll != throttleControl && pidYaw != throttleControl
    }

    function State(): Flight
      reads this, pidPitch, pidRoll, pidYaw, throttleControl
    {
      Flight(steps, hover, throttle, totalMotorEnergyUsed, analysisEnded, range, velocity, resultMsg,
             pidPitch.State(), pidRoll.State(), pidYaw.State(), throttleControl.State())
    }

    constructor (vehicle: QuadrantMotorVehicleLayout)
      ensures Valid() && State() == Initial && this.vehicle == vehicle
    {
      this.vehicle := vehicle;
      range := -1.0;
      steps := 0;
      hover := true;
      totalMotorEnergyUsed := 0.0;
      analysisEnded := false;
      throttle, velocity, resultMsg := 0.0, 0.0, NoResult;
      pidPitch := new PIDController();
      pidRoll := new PIDController();
      pidYaw := new PIDController();
      throttleControl := new PIDController();
    }

    /** getDistance. */
    method GetDistance(s: Sensed) returns (r: real)
      modifies this
      ensures r == range == Range(hover, s)
      ensures State() == old(State()).(range := r)
    {
      if !hover {
        range := s.travelled;
      } else {
        range := -Abs(s.velocity.y);
      }
      range := range / RangeScale;
      r := range;
    }

    /** The force loops of a tick, one per quadrant in order. */
    method AssignForces(po: real, ro: real, yo: real) returns (forces: seq<Thrust>)
      ensures forces == Forces(vehicle.motors, throttle, po, ro, yo)
    {
      forces := CornerForces(po, ro, yo);
      forces := SideForces(forces, po, ro, yo);
    }

    /** The force loops of the four corner quadrants. */
    method CornerForces(po: real, ro: real, yo: real) returns (forces: seq<Thrust>)
      ensures forces == QuadrantForces(vehicle.motors, FrontRight, throttle, po, ro, yo)
        + QuadrantForces(vehicle.motors, FrontLeft, throttle, po, ro, yo)
        + QuadrantForces(vehicle.motors, BackRight, throttle, po, ro, yo)
        + QuadrantForces(vehicle.motors, BackLeft, throttle, po, ro, yo)
    {
      forces := AddQuadrant([], FrontRight, po, ro, yo);
      forces := AddQuadrant(forces, FrontLeft, po, ro, yo);
      forces := AddQuadrant(forces, BackRight, po, ro, yo);
      forces := AddQuadrant(forces, BackLeft, po, ro, yo);
    }

    /** The force loops of the four side quadrants, after the corners. */
    method SideForces(corners: seq<Thrust>, po: real, ro: real, yo: real) returns (forces: seq<Thrust>)
      ensures forces == corners
        + QuadrantForces(vehicle.motors, Right, throttle, po, ro, yo)
        + QuadrantForces(vehicle.motors, Left, throttle, po, ro, yo)
        + QuadrantForces(vehicle.motors, Front, throttle, po, ro, yo)
        + QuadrantForces(vehicle.motors, Back, throttle, po, ro, yo)
    {
      forces := AddQuadrant(corners, Right, po, ro, yo);
      forces := AddQuadrant(forces, Left, po, ro, yo);
      forces := AddQuadrant(forces, Front, po, ro, yo);
      forces := AddQuadrant(forces, Back, po, ro, yo);
    }

    /** One quadrant's force loop: the quadrant's base command plus the yaw increment for each
        of its motors. */
    method AddQuadrant(forces: seq<Thrust>, q: Quadrant, po: real, ro: real, yo: real) returns (r: seq<Thrust>)
      ensures r == forces + QuadrantForces(vehicle.motors, q, throttle, po, ro, yo)
    {
      var group := vehicle.GetMotorsOf(q);
      r := AddGroup(forces, group, QuadrantBase(q, throttle, po, ro), yo);
    }

    /** The battery branch of a tick: each command is capped and its energy counted. */
    method UseEnergy(forces: seq<Thrust>) returns (applied: seq<real>)
      modifies this
      ensures totalMotorEnergyUsed == old(totalMotorEnergyUsed) + Spent(forces)
      ensures applied == Applied(forces)
      ensures State() == old(State()).(energyUsed := totalMotorEnergyUsed)
    {
      applied := [];
      var i := 0;
      while i < |forces|
        invariant 0 <= i <= |forces|
        invariant totalMotorEnergyUsed == old(totalMotorEnergyUsed) + Spent(forces[..i])
        invariant applied == Applied(forces[..i])
        invariant State() == old(State()).(energyUsed := totalMotorEnergyUsed)
      {
        assert forces[..i + 1][..i] == forces[..i];
        var availableForce := MinReal(forces[i].force, forces[i].motor.maximumThrust);
        totalMotorEnergyUsed := totalMotorEnergyUsed + availableForce / 500.0;
        applied := applied + [availableForce];
        i := i + 1;
      }
      assert forces[..i] == forces;
    }

    /** The controller part of AddMotorAndFoilForce. */
    method RunControllers(s: Sensed) returns (po: real, ro: real, yo: real)
      requires Valid()
      modifies this, pidPitch, pidRoll, pidYaw
      ensures var c := Controls(old(State()), s);
        && State() == old(State()).(steps := c.steps, hover := c.hover, pitch := c.pitch, roll := c.roll, yaw := c.yaw)
        && po == c.pitchOut && ro == c.rollOut && yo == c.yawOut
    {
      steps := steps + 1;
      if Abs(s.velocity.y) < 0.10 && Abs(s.angularVelocity.y) < 0.05 && Abs(s.angularVelocity.x) < 0.05
        && Abs(s.velocity.x) < 0.10 && Abs(s.velocity.z) < 0.10 && steps > 100
      {
        hover := false;
      }
      po, ro, yo := AttitudeOutputs(s);
    }

    /** The three attitude controller calls of a tick. */
    method AttitudeOutputs(s: Sensed) returns (po: real, ro: real, yo: real)
      requires Valid()
      modifies pidPitch, pidRoll, pidYaw
      ensures var p := PidStep(old(pidPitch.State()), PitchGainsFor(throttle), PitchErrorFor(hover, s.euler));
        pidPitch.State() == p.0 && po == p.1
      ensures var r := PidStep(old(pidRoll.State()), RollGains, RollError(s.euler) * -1.0);
        pidRoll.State() == r.0 && ro == r.1
      ensures var y := PidStep(old(pidYaw.State()), YawGains, YawError(s.euler));
        pidYaw.State() == y.0 && yo == y.1
    {
      var pitchError := PitchError(s.euler);
      if !hover {
        pitchError := PitchErrorForward(s.euler);
      }
      var rollError := RollError(s.euler) * -1.0;
      var yawError := YawError(s.euler);
      var gains := if throttle > 100.0 then Doubled(PitchGains) else PitchGains;
      po := pidPitch.GetFactorFromPIDController(gains, pitchError);
      ro := pidRoll.GetFactorFromPIDController(RollGains, rollError);
      yo := pidYaw.GetFactorFromPIDController(YawGains, yawError);
    }

    /** AddMotorAndFoilForce, without the foil lift. */
    method AddMotorAndFoilForce(s: Sensed, collision: Collision) returns (applied: seq<real>)
      requires Valid()
      modifies this, pidPitch, pidRoll, pidYaw, collision
      ensures Valid()
      ensures TickResult(State(), collision.hit, applied)
        == Tick(old(State()), s, old(collision.hit), vehicle.motors, BatteryEnergy(vehicle.structureWeight))
    {
      var po, ro, yo := RunControllers(s);
      var forces := AssignForces(po, ro, yo);
      var totalEnergy := vehicle.TotalBatteryEnergy();
      applied := SpendOrStop(s, forces, totalEnergy);
      FinalChecks(s, collision);
    }

    /** The energy branch of AddMotorAndFoilForce. */
    method SpendOrStop(s: Sensed, forces: seq<Thrust>, totalEnergy: real) returns (applied: seq<real>)
      modifies this
      ensures (State(), applied) == EnergyStep(old(State()), s, forces, totalEnergy)
    {
      if totalMotorEnergyUsed < totalEnergy {
        applied := UseEnergy(forces);
      } else if !hover {
        velocity := VelocityScale * s.planarSpeed;
        var _ := GetDistance(s);
        analysisEnded := true;
        resultMsg := Success;
        applied := [];
      } else {
        velocity := VelocityScale * s.planarSpeed;
        var _ := GetDistance(s);
        analysisEnded := true;
        resultMsg := CouldNotStabilize;
        applied := [];
      }
    }

    /** The checks at the end of AddMotorAndFoilForce. */
    method FinalChecks(s: Sensed, collision: Collision)
      modifies this, collision
      ensures (State(), collision.hit) == Checks(old(State()), s, old(collision.hit))
    {
      StandAndGuard(s, collision);
      HeightAndHit(s, collision.hit);
    }

    method StandAndGuard(s: Sensed, collision: Collision)
      modifies this, collision
      ensures (State(), collision.hit) == GroundChecks(old(State()), s, old(collision.hit))
    {
      if s.position.y <= s.standHeight {
        resultMsg := HitBoundary;
        collision.hit := true;
      }
      if Abs(s.position.x) > 2000.0 || Abs(s.position.x) > 4000.0 || steps > 40000 {
        totalMotorEnergyUsed := Drained;
      }
    }

    method HeightAndHit(s: Sensed, hit: bool)
      modifies this
      ensures State() == EndChecks(old(State()), s, hit)
    {
      if s.position.y > 1200.0 {
        velocity := VelocityScale * s.planarSpeed;
        var _ := GetDistance(s);
        analysisEnded := true;
        resultMsg := CouldNotStabilize;
      }
      if hit {
        velocity := s.planarSpeed;
        analysisEnded := true;
        var _ := GetDistance(s);
        if !hover {
          resultMsg := HitBoundary;
        } else {
          resultMsg := CouldNotStabilize;
        }
      }
    }

    /** The throttle update of AddAutoPilot. */
    method AddAutoPilot(s: Sensed)
      requires Valid()
      modifies this, throttleControl
      ensures Valid()
      ensures State() == AutoPilot(old(State()), s)
    {
      var error := s.velocity.y;
      var output := throttleControl.GetFactorFromPIDController(ThrottleGains, error);
      throttle := throttle + -output;
      throttle := Clamp(throttle, 0.0, MaxThrottle);
    }
  }

  /** The entries of a force loop appended to the dictionary built so far. */
  method AddGroup(forces: seq<Thrust>, group: seq<Motor>, base: real, yaw: real) returns (r: seq<Thrust>)
    ensures r == forces + GroupForces(group, base, yaw)
  {
    r := forces;
    var i := 0;
    while i < |group|
      invariant 0 <= i <= |group|
      invariant r == forces + GroupForces(group[..i], base, yaw)
    {
      assert group[..i + 1][..i] == group[..i];
      r := r + [Thrust(group[i], base + YawIncrement(group[i].name, yaw))];
      i := i + 1;
    }
    assert group[..i] == group;
  }

}
