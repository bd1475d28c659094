/** QuadrantMotorVehicleLayout: the physical prototype of a design. Each scene component
    becomes a part with a mass; motors are sorted into quadrants around the vehicle centre;
    the structure nearest the centre becomes the main structure; and the parts are joined one
    at a time to their nearest heavy neighbour. The quantities the engine supplies (mesh
    sizes and positions, the centre of the bounds, the 45-degree rotated offset of each part)
    are inputs. */
module VehicleLayout {
  import opened Basics

  // ---------------------------------------------------------------------------------------
  // Quadrants

  /** MotorData's quadrant names; Unassigned is the initial empty string. */
  datatype Quadrant = FrontRight | FrontLeft | Front | BackRight | BackLeft | Back | Right | Left | Unassigned

  const Tolerance: real := 0.01

  /** The quadrant if-chain of makePrototype for the rotated offset (x, z) of a motor. */
  function QuadrantOf(x: real, z: real): Quadrant {
    var t := Tolerance;
    if x > t && z > t then FrontLeft
    else if x > t && z < -t then FrontRight
    else if x < -t && z < -t then BackRight
    else if x < -t && z > t then BackLeft
    else if x > t && z > -t && z < t then Front
    else if x < -t && z > -t && z < t then Back
    else if z > t && x > -t && x < t then Left
    else if z < -t && x > -t && x < t then Right
    else Unassigned
  }

  /** The region of the plane each quadrant covers, stated on its own. */
  predicate InRegion(q: Quadrant, x: real, z: real) {
    var t := Tolerance;
    match q
    case FrontLeft => x > t && z > t
    case FrontRight => x > t && z < -t
    case BackRight => x < -t && z < -t
    case BackLeft => x < -t && z > t
    case Front => x > t && Abs(z) < t
    case Back => x < -t && Abs(z) < t
    case Left => z > t && Abs(x) < t
    case Right => z < -t && Abs(x) < t
    case Unassigned =>
      (Abs(x) <= t && Abs(z) <= t) || (Abs(x) > t && Abs(z) == t) || (Abs(z) > t && Abs(x) == t)
  }

  /** The if-chain picks exactly the quadrant whose region holds the offset; the empty
      quadrant is left for offsets near the centre or exactly on a tolerance line. */
  lemma QuadrantRegion(x: real, z: real, q: Quadrant)
    ensures QuadrantOf(x, z) == q <==> InRegion(q, x, z)
  {
  }

  function Opposite(q: Quadrant): Quadrant {
    match q
    case FrontLeft => BackRight
    case BackRight => FrontLeft
    case FrontRight => BackLeft
    case BackLeft => FrontRight
    case Front => Back
    case Back => Front
    case Left => Right
    case Right => Left
    case Unassigned => Unassigned
  }

  /** Mirroring the offset through the centre moves a motor to the opposite quadrant. */
  lemma QuadrantOpposite(x: real, z: real)
    ensures QuadrantOf(-x, -z) == Opposite(QuadrantOf(x, z))
  {
  }

  // ---------------------------------------------------------------------------------------
  // Parts and their masses

  /** A scene component: its name, position, mesh size and its offset from the centre of the
      vehicle's bounds after the 45-degree rotation (x and z components). */
  datatype Part = Part(name: string, position: Vec3, size: Vec3, offset: (real, real))

  predicate StartsWith(s: string, p: string) {
    |p| <= |s| && s[..|p|] == p
  }

  function Volume(p: Part): real {
    p.size.x * p.size.y * p.size.z
  }

  /** The Rigidbody mass a part's prototype copy ends up with (Unity's default mass is 1). */
  function RigidMass(p: Part): real {
    if StartsWith(p.name, "structure") then Volume(p) / 20.0
    else if StartsWith(p.name, "m") then Volume(p) / 10.0
    else if StartsWith(p.name, "c") then 0.0
    else if StartsWith(p.name, "f") then Volume(p) / 71.0
    else 1.0
  }

  /** The Rigidbody drag a part's prototype copy ends up with (Unity's default drag is 0). */
  function RigidDrag(p: Part): real {
    if StartsWith(p.name, "structure") then RigidMass(p) / 100.0
    else if StartsWith(p.name, "m") then RigidMass(p) / 400.0
    else if StartsWith(p.name, "f") then RigidMass(p) / 400.0
    else 0.0
  }

  /** The name prefixes that pick a mass rule exclude each other, so the rules of makePrototype,
      applied one after another, leave the part with the mass of its own category. */
  lemma MassRulesExclusive(p: Part)
    ensures StartsWith(p.name, "structure") ==> !StartsWith(p.name, "m") && !StartsWith(p.name, "c") && !StartsWith(p.name, "f")
    ensures StartsWith(p.name, "m") ==> !StartsWith(p.name, "c") && !StartsWith(p.name, "f")
    ensures StartsWith(p.name, "c") ==> !StartsWith(p.name, "f")
  {
    if StartsWith(p.name, "structure") {
      assert p.name[0] == "structure"[0];
    }
    if StartsWith(p.name, "m") {
      assert p.name[0] == 'm';
    }
    if StartsWith(p.name, "c") {
      assert p.name[0] == 'c';
    }
  }

  /** The mass and drag each category of part ends up with: structures vol / 20 with a hundredth
      of it as drag, motors vol / 10 and foils vol / 71 with a four-hundredth, connectors mass 0
      and the default drag. */
  lemma MassAndDrag(p: Part)
    ensures IsStructure(p) ==> RigidMass(p) == Volume(p) / 20.0 && RigidDrag(p) == RigidMass(p) / 100.0
    ensures StartsWith(p.name, "m") ==> RigidMass(p) == Volume(p) / 10.0 && RigidDrag(p) == RigidMass(p) / 400.0
    ensures StartsWith(p.name, "c") ==> RigidMass(p) == 0.0 && RigidDrag(p) == 0.0
    ensures StartsWith(p.name, "f") ==> RigidMass(p) == Volume(p) / 71.0 && RigidDrag(p) == RigidMass(p) / 400.0
  {
    MassRulesExclusive(p);
  }

  /** The running weight totals of makePrototype. */
  datatype Weights = Weights(structure: real, motor: real, connection: real, foil: real)

  /** The totals after the parts, in order: structures add volume / 20, motors volume / 10 and
      foils volume / 71; nothing is ever added to the connection total. */
  function WeightsOf(parts: seq<Part>): Weights
    decreases |parts|
  {
    if |parts| == 0 then Weights(0.0, 0.0, 0.0, 0.0)
    else
      AddWeights(WeightsOf(parts[..|parts| - 1]), PartWeights(parts[|parts| - 1]))
  }

  /** What one part adds to the totals. */
  function PartWeights(p: Part): Weights {
    Weights(if StartsWith(p.name, "structure") then Volume(p) / 20.0 else 0.0,
            if StartsWith(p.name, "m") then Volume(p) / 10.0 else 0.0,
            0.0,
            if StartsWith(p.name, "f") then Volume(p) / 71.0 else 0.0)
  }

  function AddWeights(a: Weights, b: Weights): Weights {
    Weights(a.structure + b.structure, a.motor + b.motor, a.connection + b.connection, a.foil + b.foil)
  }

  /** Each total is the sum of the Rigidbody masses of its category. */
  lemma {:induction false} WeightsAreMasses(parts: seq<Part>)
    ensures WeightsOf(parts).connection == 0.0
    ensures WeightsOf(parts).structure == MassOfKind(parts, "structure")
    ensures WeightsOf(parts).motor == MassOfKind(parts, "m")
    ensures WeightsOf(parts).foil == MassOfKind(parts, "f")
    decreases |parts|
  {
    if |parts| > 0 {
      var p := parts[|parts| - 1];
      WeightsAreMasses(parts[..|parts| - 1]);
      MassRulesExclusive(p);
    }
  }

  /** The sum of the Rigidbody masses of the parts whose name starts with prefix. */
  function MassOfKind(parts: seq<Part>, prefix: string): real
    decreases |parts|
  {
    if |parts| == 0 then 0.0
    else
      var p := parts[|parts| - 1];
      MassOfKind(parts[..|parts| - 1], prefix) + (if StartsWith(p.name, prefix) then RigidMass(p) else 0.0)
  }

  // ---------------------------------------------------------------------------------------
  // Motors and foils

  /** A prototype motor: the part it copies, that part's name (the copy itself is named
      `<name>(Clone)`; the "ccw" test answers the same on both), and its MotorData. */
  datatype Motor = Motor(part: nat, name: string, quadrant: Quadrant, maximumThrust: real)

  /** getMotorThrust from the motor's mesh size. */
  function MotorThrust(size: Vec3): real {
    10.0 + size.x * 1.4 * size.y * size.z / 0.075
  }

  /** A motor mesh of positive size is rated above the base thrust of 10. */
  lemma MotorThrustAboveBase(size: Vec3)
    requires size.x > 0.0 && size.y > 0.0 && size.z > 0.0
    ensures MotorThrust(size) > 10.0
  {
    assert size.x * 1.4 * size.y > 0.0;
    assert size.x * 1.4 * size.y * size.z > 0.0;
  }

  /** The motors dictionary of makePrototype, in insertion order: one entry per part whose name
      starts with `m`. */
  function MotorsOf(parts: seq<Part>): seq<Motor>
    decreases |parts|
  {
    if |parts| == 0 then []
    else
      MotorsOf(parts[..|parts| - 1]) + MotorEntry(|parts| - 1, parts[|parts| - 1])
  }

  /** The dictionary entry a part at position n adds, if it is a motor. */
  function MotorEntry(n: nat, p: Part): seq<Motor> {
    if StartsWith(p.name, "m") then [Motor(n, p.name, QuadrantOf(p.offset.0, p.offset.1), MotorThrust(p.size))] else []
  }

  /** Every motor entry copies an `m` part, with the quadrant of that part's offset. */
  lemma {:induction false} MotorsOfParts(parts: seq<Part>, i: int)
    requires 0 <= i < |MotorsOf(parts)|
    ensures var m := MotorsOf(parts)[i];
      m.part < |parts| && StartsWith(parts[m.part].name, "m") && m.name == parts[m.part].name
      && m.quadrant == QuadrantOf(parts[m.part].offset.0, parts[m.part].offset.1)
      && m.maximumThrust == MotorThrust(parts[m.part].size)
    decreases |parts|
  {
    var n := |parts| - 1;
    if i < |MotorsOf(parts[..n])| {
      MotorsOfParts(parts[..n], i);
      assert MotorsOf(parts)[i] == MotorsOf(parts[..n])[i];
    }
  }

  /** The foils list: the positions of the parts whose name starts with `foil`. */
  function FoilsOf(parts: seq<Part>): seq<nat>
    decreases |parts|
  {
    if |parts| == 0 then []
    else
      var n := |parts| - 1;
      FoilsOf(parts[..n]) + (if StartsWith(parts[n].name, "foil") then [n] else [])
  }

  /** getMotors: the motors of one quadrant, in dictionary order. */
  function MotorsIn(ms: seq<Motor>, q: Quadrant): seq<Motor>
    decreases |ms|
  {
    if |ms| == 0 then []
    else MotorsIn(ms[..|ms| - 1], q) + (if ms[|ms| - 1].quadrant == q then [ms[|ms| - 1]] else [])
  }

  /** getMotors returns exactly the motors of the quadrant. */
  lemma {:induction false} MotorsInMembers(ms: seq<Motor>, q: Quadrant)
    ensures forall m :: m in MotorsIn(ms, q) <==> m in ms && m.quadrant == q
    ensures |MotorsIn(ms, q)| <= |ms|
    decreases |ms|
  {
    if |ms| > 0 {
      var n := |ms| - 1;
      MotorsInMembers(ms[..n], q);
      assert ms == ms[..n] + [ms[n]];
    }
  }

  method GetMotors(ms: seq<Motor>, q: Quadrant) returns (r: seq<Motor>)
    ensures r == MotorsIn(ms, q)
  {
    r := [];
    var i := 0;
    while i < |ms|
      invariant 0 <= i <= |ms|
      invariant r == MotorsIn(ms[..i], q)
    {
      assert ms[..i + 1][..i] == ms[..i];
      if ms[i].quadrant == q {
        r := r + [ms[i]];
      }
      i := i + 1;
    }
    assert ms[..i] == ms;
  }

  // ---------------------------------------------------------------------------------------
  // The main structure

  /** Where a part's prototype copy is placed: scaled by 2 and lifted above the test stand. */
  function Placed(p: Vec3): Vec3 {
    Vec3(2.0 * p.x, 2.0 * p.y + 1000.0, 2.0 * p.z + 2000.0)
  }

  /** The point main-structure candidates are measured from. */
  function Anchor(centre: Vec3): Vec3 {
    Vec3(centre.x, 1000.0 + centre.y, 2000.0 + centre.z)
  }

  /** The squared distance; comparing distances is comparing their squares. */
  function SqDist(a: Vec3, b: Vec3): (r: real)
    ensures r >= 0.0
  {
    (a.x - b.x) * (a.x - b.x) + (a.y - b.y) * (a.y - b.y) + (a.z - b.z) * (a.z - b.z)
  }

  function Remoteness(p: Part, centre: Vec3): real {
    SqDist(Placed(p.position), Anchor(centre))
  }

  predicate IsStructure(p: Part) {
    StartsWith(p.name, "structure")
  }

  /** The main structure after the parts, in order: the first structure, replaced only by one
      strictly nearer the anchor. */
  function MainOf(parts: seq<Part>, centre: Vec3): (r: Option<nat>)
    ensures r.Some? ==> r.value < |parts| && IsStructure(parts[r.value])
    decreases |parts|
  {
    if |parts| == 0 then Option.None
    else
      var n := |parts| - 1;
      var prev := MainOf(parts[..n], centre);
      if IsStructure(parts[n]) && (prev.None? || Remoteness(parts[n], centre) < Remoteness(parts[prev.value], centre))
      then Some(n)
      else prev
  }

  /** There is a main structure exactly when some part is a structure; it is nearest the anchor
      of all structures, and strictly nearer than every structure before it. */
  lemma {:induction false} MainOfNearest(parts: seq<Part>, centre: Vec3)
    ensures MainOf(parts, centre).None? <==> forall j :: 0 <= j < |parts| ==> !IsStructure(parts[j])
    ensures MainOf(parts, centre).Some? ==>
      var k := MainOf(parts, centre).value;
      && (forall j :: 0 <= j < |parts| && IsStructure(parts[j]) ==> Remoteness(parts[k], centre) <= Remoteness(parts[j], centre))
      && (forall j :: 0 <= j < k && IsStructure(parts[j]) ==> Remoteness(parts[k], centre) < Remoteness(parts[j], centre))
    decreases |parts|
  {
    if |parts| > 0 {
      var n := |parts| - 1;
      MainOfNearest(parts[..n], centre);
      assert forall j :: 0 <= j < n ==> parts[..n][j] == parts[j];
    }
  }

  // ---------------------------------------------------------------------------------------
  // attachedObjects

  /** A prototype copy taking part in the attachment: its part, position and mass. */
  datatype Body = Body(id: nat, position: Vec3, mass: real)

  /** The best pair found so far by the nested scan and its squared distance. */
  datatype Best = Best(pair: Option<(nat, nat)>, min: real)

  /** The squared form of the initial minimum distance 10000000000. */
  const Far: real := 100000000000000000000.0

  predicate Eligible(o: Body, c: Body) {
    c.mass > 0.9 && SqDist(o.position, c.position) < Far
  }

  /** The inner scan of attachedObjects for the unconnected body o at position i. */
  function ScanRow(o: Body, i: nat, connected: seq<Body>, b: Best): Best
    decreases |connected|
  {
    if |connected| == 0 then b
    else
      var n := |connected| - 1;
      var p := ScanRow(o, i, connected[..n], b);
      var c := connected[n];
      if SqDist(o.position, c.position) < p.min && c.mass > 0.9 then Best(Some((i, n)), SqDist(o.position, c.position)) else p
  }

  /** The whole nested scan of attachedObjects. */
  function Scan(all: seq<Body>, connected: seq<Body>): Best
    decreases |all|
  {
    if |all| == 0 then Best(Option.None, Far)
    else ScanRow(all[|all| - 1], |all| - 1, connected, Scan(all[..|all| - 1], connected))
  }

  /** One row of the scan either keeps the pair it was given or picks a heavy connected body of
      that row strictly nearer than the minimum so far; either way the minimum only falls. */
  lemma {:induction false} ScanRowFound(o: Body, i: nat, cs: seq<Body>, b: Best)
    ensures var r := ScanRow(o, i, cs, b);
      r.min <= b.min &&
      ((r.pair == b.pair && r.min == b.min) ||
       (r.pair.Some? && r.pair.value.0 == i && r.pair.value.1 < |cs| && cs[r.pair.value.1].mass > 0.9
        && r.min == SqDist(o.position, cs[r.pair.value.1].position) && r.min < b.min))
    decreases |cs|
  {
    if |cs| > 0 {
      var n := |cs| - 1;
      ScanRowFound(o, i, cs[..n], b);
      var p := ScanRow(o, i, cs[..n], b);
      if p.pair != b.pair || p.min != b.min {
        assert cs[..n][p.pair.value.1] == cs[p.pair.value.1];
      }
    }
  }

  /** After a row, the minimum is at most the distance to every heavy connected body. */
  lemma {:induction false} ScanRowMinimal(o: Body, i: nat, cs: seq<Body>, b: Best, m: int)
    requires 0 <= m < |cs| && cs[m].mass > 0.9
    ensures ScanRow(o, i, cs, b).min <= SqDist(o.position, cs[m].position)
    decreases |cs|
  {
    var n := |cs| - 1;
    ScanRowFound(o, i, cs[..n], b);
    if m < n {
      assert cs[..n][m] == cs[m];
      ScanRowMinimal(o, i, cs[..n], b, m);
    }
  }

  /** The pair the scan finds is an unconnected body and a connected body of mass above 0.9,
      closer than the initial bound, at the distance the scan reports; with no pair the minimum is
      still the bound. */
  lemma {:induction false} ScanFound(all: seq<Body>, cs: seq<Body>)
    ensures var b := Scan(all, cs);
      b.min <= Far &&
      (b.pair.None? ==> b.min == Far) &&
      (b.pair.Some? ==>
        var (i, m) := b.pair.value;
        i < |all| && m < |cs| && Eligible(all[i], cs[m]) && b.min == SqDist(all[i].position, cs[m].position))
    decreases |all|
  {
    if |all| > 0 {
      var n := |all| - 1;
      ScanFound(all[..n], cs);
      var p := Scan(all[..n], cs);
      ScanRowFound(all[n], n, cs, p);
      if Scan(all, cs).pair == p.pair && p.pair.Some? {
        assert all[..n][p.pair.value.0] == all[p.pair.value.0];
      }
    }
  }

  /** The scan's minimum is at most the distance of every pair of an unconnected body and a heavy
      connected body. */
  lemma {:induction false} ScanMinimal(all: seq<Body>, cs: seq<Body>, i: int, m: int)
    requires 0 <= i < |all| && 0 <= m < |cs| && cs[m].mass > 0.9
    ensures Scan(all, cs).min <= SqDist(all[i].position, cs[m].position)
    decreases |all|
  {
    var n := |all| - 1;
    var p := Scan(all[..n], cs);
    ScanRowFound(all[n], n, cs, p);
    if i == n {
      ScanRowMinimal(all[n], n, cs, p, m);
    } else {
      assert all[..n][i] == all[i];
      ScanMinimal(all[..n], cs, i, m);
    }
  }

  /** A row that improves on the minimum it was given picks, in that row, a body strictly nearer
      than every heavy connected body before it: later equal distances do not displace it. */
  lemma {:induction false} ScanRowFirst(o: Body, i: nat, cs: seq<Body>, b: Best, m': int)
    requires ScanRow(o, i, cs, b).min < b.min
    requires 0 <= m' < |cs| && cs[m'].mass > 0.9
    requires ScanRow(o, i, cs, b).pair.Some? && m' < ScanRow(o, i, cs, b).pair.value.1
    ensures ScanRow(o, i, cs, b).min < SqDist(o.position, cs[m'].position)
    decreases |cs|
  {
    var n := |cs| - 1;
    var p := ScanRow(o, i, cs[..n], b);
    ScanRowFound(o, i, cs[..n], b);
    var r := ScanRow(o, i, cs, b);
    if r == p {
      assert p.min < b.min;
      assert cs[..n][m'] == cs[m'];
      ScanRowFirst(o, i, cs[..n], b, m');
    } else {
      assert r.pair.value.1 == n;
      assert cs[..n][m'] == cs[m'];
      ScanRowMinimal(o, i, cs[..n], b, m');
    }
  }

  /** Ties go to the first pair scanned: the pair found is strictly nearer than every pair of an
      unconnected body and a heavy connected body that the scan met before it. */
  lemma {:induction false} ScanFirst(all: seq<Body>, cs: seq<Body>, i': int, m': int)
    requires Scan(all, cs).pair.Some?
    requires 0 <= i' < |all| && 0 <= m' < |cs| && cs[m'].mass > 0.9
    requires i' < Scan(all, cs).pair.value.0 || (i' == Scan(all, cs).pair.value.0 && m' < Scan(all, cs).pair.value.1)
    ensures Scan(all, cs).min < SqDist(all[i'].position, cs[m'].position)
    decreases |all|
  {
    var n := |all| - 1;
    var p := Scan(all[..n], cs);
    ScanRowFound(all[n], n, cs, p);
    ScanFound(all[..n], cs);
    var r := Scan(all, cs);
    if r.pair == p.pair && r.min == p.min {
      assert p.pair.value.0 < n;
      assert all[..n][i'] == all[i'];
      ScanFirst(all[..n], cs, i', m');
    } else if i' == n {
      ScanRowFirst(all[n], n, cs, p, m');
    } else {
      assert all[..n][i'] == all[i'];
      ScanMinimal(all[..n], cs, i', m');
    }
  }

  /** attachedObjects finds no pair exactly when no unconnected body is within the bound of a
      connected body heavier than 0.9; a pair it finds is such a pair, at least as near as every
      other. */
  lemma ScanMeaning(all: seq<Body>, cs: seq<Body>)
    ensures ScanPicks(all, cs, Scan(all, cs))
  {
    var b := Scan(all, cs);
    ScanFound(all, cs);
    forall i, m | 0 <= i < |all| && 0 <= m < |cs| && cs[m].mass > 0.9
      ensures b.min <= SqDist(all[i].position, cs[m].position)
    {
      ScanMinimal(all, cs, i, m);
    }
    BestPicks(all, cs, b);
  }

  /** The meaning of a scan's result: no pair exactly when no unconnected body is within the
      bound of a heavy connected body, and otherwise such a pair at least as near as every other. */
  predicate ScanPicks(all: seq<Body>, cs: seq<Body>, b: Best) {
    && (b.pair.None? <==> forall i, m :: 0 <= i < |all| && 0 <= m < |cs| ==> !Eligible(all[i], cs[m]))
    && (b.pair.Some? ==>
          var (i, m) := b.pair.value;
          && i < |all| && m < |cs| && Eligible(all[i], cs[m])
          && forall i', m' :: 0 <= i' < |all| && 0 <= m' < |cs| && Eligible(all[i'], cs[m']) ==>
               SqDist(all[i].position, cs[m].position) <= SqDist(all[i'].position, cs[m'].position))
  }

  lemma BestPicks(all: seq<Body>, cs: seq<Body>, b: Best)
    requires b.min <= Far && (b.pair.None? ==> b.min == Far)
    requires b.pair.Some? ==>
      var (i, m) := b.pair.value;
      i < |all| && m < |cs| && Eligible(all[i], cs[m]) && b.min == SqDist(all[i].position, cs[m].position)
    requires forall i, m :: 0 <= i < |all| && 0 <= m < |cs| && cs[m].mass > 0.9 ==> b.min <= SqDist(all[i].position, cs[m].position)
    ensures ScanPicks(all, cs, b)
  {
    if b.pair.Some? {
      var (i, m) := b.pair.value;
      assert Eligible(all[i], cs[m]);
    } else {
      forall i, m | 0 <= i < |all| && 0 <= m < |cs|
        ensures !Eligible(all[i], cs[m])
      {
        if cs[m].mass > 0.9 {
          assert b.min <= SqDist(all[i].position, cs[m].position);
        }
      }
    }
  }

  /** The attachment loop, from the iteration count `count`: while bodies remain unconnected and
      fewer than 100 iterations have run, the scanned pair is joined and its unconnected body
      moves to the connected list. No pair to join is a NullReferenceException. */
  datatype Attachment = Attachment(connected: seq<Body>, unconnected: seq<Body>, links: seq<(nat, nat)>, ok: bool)

  function Attach(connected: seq<Body>, all: seq<Body>, count: int): Attachment
    decreases 100 - count, 1
  {
    if !(|all| > 0 && count < 100) then Attachment(connected, all, [], true)
    else AttachPair(connected, all, count, Scan(all, connected).pair)
  }

  /** One iteration of the attachment loop, once the scan has chosen `pair`. */
  function AttachPair(connected: seq<Body>, all: seq<Body>, count: int, pair: Option<(nat, nat)>): Attachment
    requires count < 100
    decreases 100 - count, 0
  {
    match pair
    case None => Attachment(connected, all, [], false)
    case Some((i, m)) =>
      if i < |all| && m < |connected| then
        var r := Attach(connected + [all[i]], all[..i] + all[i + 1..], count + 1);
        r.(links := [(all[i].id, connected[m].id)] + r.links)
      else Attachment(connected, all, [], false)
  }

  /** The attachment moves bodies from the unconnected list to the end of the connected list and
      never loses or invents one. */
  lemma {:induction false} AttachConserves(connected: seq<Body>, all: seq<Body>, count: int)
    ensures var r := Attach(connected, all, count);
      multiset(r.connected) + multiset(r.unconnected) == multiset(connected) + multiset(all)
      && |r.connected| >= |connected| && r.connected[..|connected|] == connected
    decreases 100 - count
  {
    if |all| > 0 && count < 100 {
      var pr := Scan(all, connected).pair;
      if pr.Some? && pr.value.0 < |all| && pr.value.1 < |connected| {
        var i := pr.value.0;
        var rest := all[..i] + all[i + 1..];
        var next := connected + [all[i]];
        AttachConserves(next, rest, count + 1);
        var r := Attach(next, rest, count + 1);
        assert Attach(connected, all, count).connected == r.connected;
        assert Attach(connected, all, count).unconnected == r.unconnected;
        RemoveAt(all, i);
        PrefixOfPrefix(r.connected, connected, next);
      }
    }
  }

  lemma RemoveAt(all: seq<Body>, i: nat)
    requires i < |all|
    ensures multiset(all) == multiset(all[..i] + all[i + 1..]) + multiset{all[i]}
  {
    assert all == all[..i] + [all[i]] + all[i + 1..];
  }

  lemma PrefixOfPrefix(s: seq<Body>, a: seq<Body>, b: seq<Body>)
    requires |b| >= |a| && b[..|a|] == a && |s| >= |b| && s[..|b|] == b
    ensures s[..|a|] == a
  {
    assert s[..|a|] == s[..|b|][..|a|];
  }

  /** One link is made per body moved, at most 100 - count in all; when the attachment completes,
      no body is left unconnected unless the iteration bound was reached. */
  lemma {:induction false} AttachCounts(connected: seq<Body>, all: seq<Body>, count: int)
    requires 0 <= count <= 100
    ensures var r := Attach(connected, all, count);
      |r.links| == |r.connected| - |connected| <= 100 - count
      && (r.ok ==> |r.unconnected| == 0 || |r.links| == 100 - count)
    decreases 100 - count
  {
    if |all| > 0 && count < 100 {
      var pr := Scan(all, connected).pair;
      if pr.Some? && pr.value.0 < |all| && pr.value.1 < |connected| {
        var (i, m) := pr.value;
        var rest := all[..i] + all[i + 1..];
        var next := connected + [all[i]];
        AttachCounts(next, rest, count + 1);
        var r := Attach(next, rest, count + 1);
        assert Attach(connected, all, count) == r.(links := [(all[i].id, connected[m].id)] + r.links);
      }
    }
  }

  method AttachObjects(connected: seq<Body>, all: seq<Body>)
    returns (ok: bool, connected': seq<Body>, all': seq<Body>, links: seq<(nat, nat)>)
    ensures Attachment(connected', all', links, ok) == Attach(connected, all, 0)
  {
    connected', all', links := connected, all, [];
    var counter := 0;
    while |all'| > 0 && counter < 100
      invariant 0 <= counter <= 100
      invariant Attach(connected, all, 0) == Attach(connected', all', counter).(links := links + Attach(connected', all', counter).links)
      decreases 100 - counter
    {
      var best := ScanPairs(all', connected');
      ScanFound(all', connected');
      if best.None? {
        assert Attach(connected', all', counter) == Attachment(connected', all', [], false);
        assert links + [] == links;
        return false, connected', all', links;
      }
      var (i, m) := best.value;
      ghost var link := (all'[i].id, connected'[m].id);
      ghost var rest := AttachStep(connected', all', counter, i, m);
      assert links + ([link] + rest.links) == links + [link] + rest.links;
      links := links + [(all'[i].id, connected'[m].id)];
      connected', all' := connected' + [all'[i]], all'[..i] + all'[i + 1..];
      counter := counter + 1;
    }
    assert Attach(connected', all', counter) == Attachment(connected', all', [], true);
    assert links + [] == links;
    ok := true;
  }

  /** One pass of the attachment loop that found the pair (i, m). */
  lemma AttachStep(connected: seq<Body>, all: seq<Body>, count: int, i: nat, m: nat) returns (rest: Attachment)
    requires |all| > 0 && count < 100 && Scan(all, connected).pair == Some((i, m))
    requires i < |all| && m < |connected|
    ensures rest == Attach(connected + [all[i]], all[..i] + all[i + 1..], count + 1)
    ensures Attach(connected, all, count) == rest.(links := [(all[i].id, connected[m].id)] + rest.links)
  {
    rest := Attach(connected + [all[i]], all[..i] + all[i + 1..], count + 1);
  }

  /** The nested scan loop of attachedObjects. */
  method ScanPairs(all: seq<Body>, connected: seq<Body>) returns (pair: Option<(nat, nat)>)
    ensures pair == Scan(all, connected).pair
  {
    var b := Best(Option.None, Far);
    var i := 0;
    while i < |all|
      invariant 0 <= i <= |all|
      invariant b == Scan(all[..i], connected)
    {
      var m := 0;
      ghost var b0 := b;
      while m < |connected|
        invariant 0 <= m <= |connected|
        invariant b == ScanRow(all[i], i, connected[..m], b0)
      {
        assert connected[..m + 1][..m] == connected[..m];
        var d := SqDist(all[i].position, connected[m].position);
        if d < b.min && connected[m].mass > 0.9 {
          b := Best(Some((i, m)), d);
        }
        m := m + 1;
      }
      assert connected[..m] == connected;
      assert all[..i + 1][..i] == all[..i];
      i := i + 1;
    }
    assert all[..i] == all;
    pair := b.pair;
  }

  // ---------------------------------------------------------------------------------------
  // Energy and cost

  /** getTotalBatteryEnergy from the structure weight. */
  function BatteryEnergy(structureWeight: real): (r: real)
    ensures r >= 0.0
  {
    (structureWeight / 17.7) * (structureWeight / 17.7) * 570.0
  }

  /** The base design of 17.7 lb of structure carries 570 Wh, and a heavier structure carries
      more. */
  lemma BatteryEnergyScale(a: real, b: real)
    requires 0.0 <= a <= b
    ensures BatteryEnergy(17.7) == 570.0
    ensures BatteryEnergy(a) <= BatteryEnergy(b)
  {
    var x, y := a / 17.7, b / 17.7;
    assert 0.0 <= x <= y;
    assert x * x <= x * y <= y * y;
  }

  /** getCost from the weight totals and the number of motors. */
  function Cost(w: Weights, motorCount: nat): real {
    (w.structure + w.motor + w.connection) * 140.0 + w.foil * 40.0 + (200.0 + 50.0 * motorCount as real)
  }

  /** The base cost of 17.7 lb of structure and four motors is 2878, and each motor adds 50. */
  lemma CostScale(w: Weights, n: nat)
    ensures Cost(Weights(17.7, 0.0, 0.0, 0.0), 4) == 2878.0
    ensures Cost(w, n + 1) == Cost(w, n) + 50.0
  {
  }

  // ---------------------------------------------------------------------------------------
  // makePrototype

  /** The bodies handed to attachedObjects: the prototype copies grouped by tag (structures,
      counter-clockwise motors, clockwise motors, connections, foils). */
  function Tagged(parts: seq<Part>, masses: seq<real>, prefix: string): seq<Body>
    requires |masses| == |parts|
    decreases |parts|
  {
    if |parts| == 0 then []
    else
      var n := |parts| - 1;
      Tagged(parts[..n], masses[..n], prefix) +
        (if StartsWith(parts[n].name, prefix) then [Body(n, Placed(parts[n].position), masses[n])] else [])
  }

  function AllObjects(parts: seq<Part>, masses: seq<real>): seq<Body>
    requires |masses| == |parts|
  {
    Tagged(parts, masses, "structure") + Tagged(parts, masses, "motorccw") + Tagged(parts, masses, "motorcw")
      + Tagged(parts, masses, "connection") + Tagged(parts, masses, "foil")
  }

  /** List.Remove: drops the first occurrence of b. */
  function RemoveFirst(bs: seq<Body>, b: Body): seq<Body> {
    if |bs| == 0 then []
    else if bs[0] == b then bs[1..]
    else [bs[0]] + RemoveFirst(bs[1..], b)
  }

  function MassesOf(parts: seq<Part>): (r: seq<real>)
    ensures |r| == |parts|
    decreases |parts|
  {
    if |parts| == 0 then [] else MassesOf(parts[..|parts| - 1]) + [RigidMass(parts[|parts| - 1])]
  }

  /** The main structure and its position once the part p at position i has been looked at: a
      structure replaces the current choice when there is none or when it is strictly nearer
      the anchor. */
  function Candidate(main: Option<nat>, mainPosition: Vec3, i: nat, p: Part, centre: Vec3): (Option<nat>, Vec3) {
    if IsStructure(p) && (main.None? || SqDist(Placed(p.position), Anchor(centre)) < SqDist(mainPosition, Anchor(centre)))
    then (Some(i), Placed(p.position))
    else (main, mainPosition)
  }

  /** What the part at position i adds to each of the prototype summaries. */
  lemma CopyStep(parts: seq<Part>, i: nat)
    requires i < |parts|
    ensures WeightsOf(parts[..i + 1]) == AddWeights(WeightsOf(parts[..i]), PartWeights(parts[i]))
    ensures MotorsOf(parts[..i + 1]) == MotorsOf(parts[..i]) + MotorEntry(i, parts[i])
    ensures FoilsOf(parts[..i + 1]) == FoilsOf(parts[..i]) + (if StartsWith(parts[i].name, "foil") then [i] else [])
    ensures MassesOf(parts[..i + 1]) == MassesOf(parts[..i]) + [RigidMass(parts[i])]
  {
    assert parts[..i + 1][..i] == parts[..i];
    assert parts[..i + 1][i] == parts[i];
  }

  /** The main structure after the part at position i is the candidate that part yields, given
      the position of the main structure before it. */
  lemma MainStep(parts: seq<Part>, i: nat, centre: Vec3, mainPosition: Vec3)
    requires i < |parts|
    requires MainOf(parts[..i], centre).Some? ==> mainPosition == Placed(parts[MainOf(parts[..i], centre).value].position)
    ensures MainOf(parts[..i + 1], centre) == Candidate(MainOf(parts[..i], centre), mainPosition, i, parts[i], centre).0
  {
    assert parts[..i + 1][..i] == parts[..i];
    assert parts[..i + 1][i] == parts[i];
  }

  class QuadrantMotorVehicleLayout {
    var structureWeight: real
    var motorWeight: real
    var connectionWeight: real
    var foilWeight: real
    var scale: real
    var motors: seq<Motor>
    var foils: seq<nat>
    /** The main structure, as a part position. */
    var main: Option<nat>
    var mainPosition: Vec3
    /** The Rigidbody masses of the prototype copies, by part position. */
    var masses: seq<real>
    /** The fixed joints attachedObjects created, as (joined part, part joined to). */
    var links: seq<(nat, nat)>

    constructor ()
      ensures motors == [] && foils == [] && main.None? && links == []
    {
      motors, foils, main, links := [], [], Option.None, [];
      masses := [];
    }

    function Totals(): Weights
      reads this
    {
      Weights(structureWeight, motorWeight, connectionWeight, foilWeight)
    }

    function TotalBatteryEnergy(): real
      reads this
    {
      BatteryEnergy(structureWeight)
    }

    function TotalCost(): real
      reads this
    {
      Cost(Totals(), |motors|)
    }

    method GetMotorsOf(q: Quadrant) returns (r: seq<Motor>)
      ensures r == MotorsIn(motors, q)
    {
      r := GetMotors(motors, q);
    }

    /** The body of makePrototype's loop over the scene components, for the part at position i. */
    method PlacePart(i: nat, p: Part, centre: Vec3)
      modifies this
      ensures Totals() == AddWeights(old(Totals()), PartWeights(p))
      ensures motors == old(motors) + MotorEntry(i, p)
      ensures foils == old(foils) + (if StartsWith(p.name, "foil") then [i] else [])
      ensures masses == old(masses) + [RigidMass(p)] && links == old(links) && scale == old(scale)
      ensures (main, mainPosition) == Candidate(old(main), old(mainPosition), i, p, centre)
    {
      RecordPart(i, p);
      WeighPart(i, p, centre);
    }

    /** The foil entry, motor entry and Rigidbody mass of the part's copy. */
    method RecordPart(i: nat, p: Part)
      modifies this
      ensures motors == old(motors) + MotorEntry(i, p)
      ensures foils == old(foils) + (if StartsWith(p.name, "foil") then [i] else [])
      ensures masses == old(masses) + [RigidMass(p)]
      ensures Totals() == old(Totals()) && links == old(links) && scale == old(scale)
      ensures main == old(main) && mainPosition == old(mainPosition)
    {
      if StartsWith(p.name, "foil") {
        foils := foils + [i];
      }
      if StartsWith(p.name, "m") {
        motors := motors + [Motor(i, p.name, QuadrantOf(p.offset.0, p.offset.1), MotorThrust(p.size))];
      }
      masses := masses + [RigidMass(p)];
    }

    /** The weight totals and the choice of the main structure. */
    method WeighPart(i: nat, p: Part, centre: Vec3)
      modifies this
      ensures Totals() == AddWeights(old(Totals()), PartWeights(p))
      ensures motors == old(motors) && foils == old(foils) && masses == old(masses)
      ensures links == old(links) && scale == old(scale)
      ensures (main, mainPosition) == Candidate(old(main), old(mainPosition), i, p, centre)
    {
      if StartsWith(p.name, "structure") {
        structureWeight := structureWeight + Volume(p) / 20.0;
        var placed := Placed(p.position);
        if main.None? || SqDist(placed, Anchor(centre)) < SqDist(mainPosition, Anchor(centre)) {
          main := Some(i);
          mainPosition := placed;
        }
      }
      if StartsWith(p.name, "m") {
        motorWeight := motorWeight + Volume(p) / 10.0;
      }
      if StartsWith(p.name, "f") {
        foilWeight := foilWeight + Volume(p) / 71.0;
      }
    }

    /** The first half of makePrototype: the totals are cleared and every scene component gets
        its prototype copy, mass, motor entry and foil entry; the main structure is chosen. */
    method CopyParts(parts: seq<Part>, centre: Vec3)
      modifies this
      ensures scale == 2.0 && links == []
      ensures Totals() == WeightsOf(parts) && masses == MassesOf(parts)
      ensures motors == MotorsOf(parts) && foils == FoilsOf(parts) && main == MainOf(parts, centre)
      ensures main.Some? ==> mainPosition == Placed(parts[main.value].position)
    {
      structureWeight, motorWeight, connectionWeight, foilWeight := 0.0, 0.0, 0.0, 0.0;
      scale := 2.0;
      motors, foils, main, masses, links := [], [], Option.None, [], [];
      var i := 0;
      while i < |parts|
        invariant 0 <= i <= |parts|
        invariant CopiedUpTo(parts, centre, i)
      {
        CopyNext(parts, centre, i);
        i := i + 1;
      }
      assert parts[..i] == parts;
    }

    /** The state after the loop of makePrototype has copied the first i parts. */
    predicate CopiedUpTo(parts: seq<Part>, centre: Vec3, i: nat)
      requires i <= |parts|
      reads this
    {
      && Totals() == WeightsOf(parts[..i])
      && motors == MotorsOf(parts[..i]) && foils == FoilsOf(parts[..i])
      && main == MainOf(parts[..i], centre) && masses == MassesOf(parts[..i])
      && (main.Some? ==> main.value < i && mainPosition == Placed(parts[main.value].position))
      && links == [] && scale == 2.0
    }

    /** One pass of the loop of makePrototype. */
    method CopyNext(parts: seq<Part>, centre: Vec3, i: nat)
      requires i < |parts| && CopiedUpTo(parts, centre, i)
      modifies this
      ensures CopiedUpTo(parts, centre, i + 1)
    {
      CopyStep(parts, i);
      MainStep(parts, i, centre, mainPosition);
      ghost var m0, p0 := main, mainPosition;
      PlacePart(i, parts[i], centre);
      if IsStructure(parts[i]) && (m0.None? || SqDist(Placed(parts[i].position), Anchor(centre)) < SqDist(p0, Anchor(centre))) {
        assert main == Some(i) && mainPosition == Placed(parts[i].position);
      } else {
        assert main == m0 && mainPosition == p0;
      }
    }

    /** makePrototype over the scene components, the centre of their bounds and the parsed
        capacity: fails without a structure; otherwise adds the capacity to the main
        structure's mass and attaches the other bodies. `thrown` is the NullReferenceException
        of an attachment step that finds no pair. */
    method MakePrototype(parts: seq<Part>, centre: Vec3, capacity: real) returns (valid: bool, thrown: bool)
      modifies this
      ensures scale == 2.0
      ensures Totals() == WeightsOf(parts)
      ensures motors == MotorsOf(parts) && foils == FoilsOf(parts) && main == MainOf(parts, centre)
      ensures main.None? ==> !valid && !thrown && masses == MassesOf(parts) && links == []
      ensures main.Some? ==>
        var m := main.value;
        var ms := MassesOf(parts)[m := MassesOf(parts)[m] + capacity];
        var all := AllObjects(parts, ms);
        var r := Attach([Body(m, Placed(parts[m].position), ms[m])], RemoveFirst(all, Body(m, Placed(parts[m].position), ms[m])), 0);
        valid && masses == ms && links == r.links && thrown == !r.ok
    {
      CopyParts(parts, centre);
      if main.None? {
        return false, false;
      }
      var m := main.value;
      assert mainPosition == Placed(parts[m].position);
      masses := masses[m := masses[m] + capacity];
      var all := AllObjects(parts, masses);
      var base := Body(m, mainPosition, masses[m]);
      var attached, connected', all', links' := AttachObjects([base], RemoveFirst(all, base));
      links := links';
      valid, thrown := true, !attached;
    }
  }
}
