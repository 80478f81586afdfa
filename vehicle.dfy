/** The vehicle and transmission globals of the two point-mass simulators
    (pointmass_circuit.py and pointmass_accel.py) and the engine-table logic they share: the
    rpm a gear turns at a given wheel speed, and the torque lookup over the tabulated curve. */
module Vehicle {
  import opened Common

  /** One `(rpm, Nm)` entry of `torque_curve`. */
  datatype TorquePoint = TorquePoint(rpm: real, torque: real)

  /** `tire_radius`, `final_drive`, `upshift_RPM`, `gear_ratios` and `torque_curve`. */
  datatype Drivetrain = Drivetrain(tireRadius: real, finalDrive: real, upshiftRpm: real,
                                   gearRatios: seq<real>, torqueCurve: seq<TorquePoint>)

  /** `VEHICLE_MASS`, `Cd`, `Cl` and the frontal area `A`. */
  datatype Body = Body(mass: real, cd: real, cl: real, area: real)

  /** What the engine functions need of the globals to run at all: a non-empty gear list and
      table, and positive radius and ratios (they are divided by). */
  ghost predicate WellFormed(p: Drivetrain)
  {
    && 0.0 < p.tireRadius
    && 0.0 < p.finalDrive
    && |p.gearRatios| > 0
    && (forall g | 0 <= g < |p.gearRatios| :: 0.0 < p.gearRatios[g])
    && |p.torqueCurve| > 0
  }

  /** The table's rpm column strictly increases. */
  ghost predicate Sorted(tc: seq<TorquePoint>)
  {
    forall j, k | 0 <= j < k < |tc| :: tc[j].rpm < tc[k].rpm
  }

  /** A physical table: sorted, with positive rpm and non-negative torque. */
  ghost predicate Physical(p: Drivetrain)
  {
    && WellFormed(p)
    && Sorted(p.torqueCurve)
    && (forall k | 0 <= k < |p.torqueCurve| ::
          0.0 < p.torqueCurve[k].rpm && 0.0 <= p.torqueCurve[k].torque)
  }

  ghost predicate ValidBody(b: Body)
  {
    0.0 < b.mass && 0.0 <= b.cd && 0.0 <= b.cl && 0.0 <= b.area
  }

  function First(tc: seq<TorquePoint>): TorquePoint
    requires |tc| > 0
  {
    tc[0]
  }

  function Last(tc: seq<TorquePoint>): TorquePoint
    requires |tc| > 0
  {
    tc[|tc| - 1]
  }

  /** Engine rpm per metre per second of wheel speed in gear `g`:
      `60 * final_drive * ratio / (2 * pi * tire_radius)`. */
  function RpmPerSpeed(p: Drivetrain, g: nat): real
    requires WellFormed(p) && g < |p.gearRatios|
  {
    60.0 * p.finalDrive * p.gearRatios[g] / (2.0 * Pi * p.tireRadius)
  }

  /** `vel / (2 * pi * tire_radius) * 60 * final_drive * gear_ratios[g]`. */
  function GearRpm(p: Drivetrain, vel: real, g: nat): real
    requires WellFormed(p) && g < |p.gearRatios|
  {
    vel * RpmPerSpeed(p, g)
  }

  /** `rpm * 2 * pi * tire_radius / (60 * final_drive * gear_ratios[g])`: the wheel speed at
      which gear `g` turns the engine at `rpm`. */
  function WheelSpeed(p: Drivetrain, rpm: real, g: nat): real
    requires WellFormed(p) && g < |p.gearRatios|
  {
    RpmPositive(p, g);
    rpm / RpmPerSpeed(p, g)
  }

  lemma RpmPositive(p: Drivetrain, g: nat)
    requires WellFormed(p) && g < |p.gearRatios|
    ensures 0.0 < RpmPerSpeed(p, g)
  {
    var num := 60.0 * p.finalDrive * p.gearRatios[g];
    var den := 2.0 * Pi * p.tireRadius;
    MulPos(60.0 * p.finalDrive, p.gearRatios[g]);
    assert 0.0 < num;
    assert 0.0 < den;
    DivPos(num, den);
  }

  lemma DivPos(a: real, b: real)
    requires 0.0 < a && 0.0 < b
    ensures 0.0 < a / b
  {
  }

  /** Converting a speed to rpm and back gives the speed again, and the conversion preserves
      order: these are what make a clamped rpm a lower wheel speed. */
  lemma {:induction false} WheelSpeedInvertsGearRpm(p: Drivetrain, vel: real, g: nat)
    requires WellFormed(p) && g < |p.gearRatios|
    ensures WheelSpeed(p, GearRpm(p, vel, g), g) == vel
  {
    RpmPositive(p, g);
    var k := RpmPerSpeed(p, g);
    assert vel * k / k == vel;
  }

  lemma {:induction false} WheelSpeedMonotone(p: Drivetrain, r1: real, r2: real, g: nat)
    requires WellFormed(p) && g < |p.gearRatios|
    ensures r1 < r2 <==> WheelSpeed(p, r1, g) < WheelSpeed(p, r2, g)
    ensures r1 == r2 <==> WheelSpeed(p, r1, g) == WheelSpeed(p, r2, g)
  {
    RpmPositive(p, g);
    var k := RpmPerSpeed(p, g);
    DivMonotone(r1, r2, k);
    DivMonotone(r2, r1, k);
  }

  lemma DivMonotone(a: real, b: real, k: real)
    requires 0.0 < k
    ensures a < b <==> a / k < b / k
  {
    if a < b {
      DivPos(b - a, k);
      assert (b - a) / k == b / k - a / k;
    }
    if a / k < b / k {
      assert (b / k - a / k) * k == b - a;
      MulPos(b / k - a / k, k);
    }
  }

  /** The value the interior branch of the lookup computes from the two entries `e1`, `e2` that
      its scans settle on: the straight line through them, evaluated at `rpm`. */
  function Chord(e1: TorquePoint, e2: TorquePoint, rpm: real): real
    requires e1.rpm != e2.rpm
  {
    e1.torque + (rpm - e1.rpm) * (e2.torque - e1.torque) / (e2.rpm - e1.rpm)
  }

  /** The torque both scripts read off `torque_curve` at `rpm`: the first entry's torque at or
      below the first rpm, the last entry's at or above the last rpm, and in between the line
      through the FIRST and LAST entries (not through the pair that brackets `rpm`). */
  function TableTorque(tc: seq<TorquePoint>, rpm: real): real
    requires |tc| > 0
  {
    if rpm <= First(tc).rpm then First(tc).torque
    else if rpm >= Last(tc).rpm then Last(tc).torque
    else Chord(First(tc), Last(tc), rpm)
  }

  /** The loop `for r in torque_curve: if rpm > r[0]: e1 = r; break`: the first entry whose rpm
      is below `rpm`, if any. */
  method FirstEntryBelow(tc: seq<TorquePoint>, rpm: real) returns (e1: Option<nat>)
    ensures e1.Some? ==> e1.value < |tc| && tc[e1.value].rpm < rpm
    ensures e1.Some? ==> forall j | 0 <= j < e1.value :: rpm <= tc[j].rpm
    ensures e1.None? ==> forall j | 0 <= j < |tc| :: rpm <= tc[j].rpm
  {
    e1 := None;
    for k := 0 to |tc|
      invariant e1.None?
      invariant forall j | 0 <= j < k :: rpm <= tc[j].rpm
    {
      if rpm > tc[k].rpm {
        e1 := Some(k);
        break;
      }
    }
  }

  /** The loop `for r in torque_curve: if rpm < r[0]: e2 = r`, which never breaks: the LAST entry
      whose rpm is above `rpm`, if any. */
  method LastEntryAbove(tc: seq<TorquePoint>, rpm: real) returns (e2: Option<nat>)
    ensures e2.Some? ==> e2.value < |tc| && rpm < tc[e2.value].rpm
    ensures e2.Some? ==> forall j | e2.value < j < |tc| :: tc[j].rpm <= rpm
    ensures e2.None? ==> forall j | 0 <= j < |tc| :: tc[j].rpm <= rpm
  {
    e2 := None;
    for k := 0 to |tc|
      invariant e2.Some? ==> e2.value < k && rpm < tc[e2.value].rpm
      invariant e2.Some? ==> forall j | e2.value < j < k :: tc[j].rpm <= rpm
      invariant e2.None? ==> forall j | 0 <= j < k :: tc[j].rpm <= rpm
    {
      if rpm < tc[k].rpm {
        e2 := Some(k);
      }
    }
  }

  /** The interior branch of the lookup: both scans run over the whole table and, because `rpm`
      lies strictly between the first and last tabulated rpm, they settle on the first and the
      last entry whatever lies between, so the torque is read off the chord through those two. */
  method InteriorTorque(tc: seq<TorquePoint>, rpm: real) returns (torque: real)
    requires |tc| > 0 && First(tc).rpm < rpm < Last(tc).rpm
    ensures torque == TableTorque(tc, rpm)
    ensures Min(First(tc).torque, Last(tc).torque) <= torque
    ensures torque <= -Min(-First(tc).torque, -Last(tc).torque)
  {
    var e1 := FirstEntryBelow(tc, rpm);
    var e2 := LastEntryAbove(tc, rpm);
    assert e1 == Some(0);
    assert e2 == Some(|tc| - 1);
    var a, b := tc[e1.value], tc[e2.value];
    torque := a.torque + (rpm - a.rpm) * (b.torque - a.torque) / (b.rpm - a.rpm);
    ChordBetween(a, b, rpm);
  }

  /** Between its two entries the chord stays between their torques. */
  lemma ChordBetween(e1: TorquePoint, e2: TorquePoint, rpm: real)
    requires e1.rpm < rpm < e2.rpm
    ensures Min(e1.torque, e2.torque) <= Chord(e1, e2, rpm)
    ensures Chord(e1, e2, rpm) <= -Min(-e1.torque, -e2.torque)
  {
    var w := e2.rpm - e1.rpm;
    var x := rpm - e1.rpm;
    var frac := x / w;
    var d := e2.torque - e1.torque;
    DivPos(x, w);
    DivPos(w - x, w);
    DivSub(w, x, w);
    assert w / w == 1.0;
    MulDivSwap(x, d, w);
    assert Chord(e1, e2, rpm) == e1.torque + frac * d;
    ScaleBetween(frac, d);
  }

  lemma DivSub(a: real, b: real, w: real)
    requires w != 0.0
    ensures (a - b) / w == a / w - b / w
  {
  }

  lemma MulDivSwap(x: real, d: real, w: real)
    requires w != 0.0
    ensures x * d / w == (x / w) * d
  {
  }

  lemma ScaleBetween(frac: real, d: real)
    requires 0.0 < frac < 1.0
    ensures Min(0.0, d) <= frac * d <= -Min(0.0, -d)
  {
    if 0.0 < d {
      MulPos(frac, d);
      MulPos(1.0 - frac, d);
      assert (1.0 - frac) * d == d - frac * d;
    } else if d < 0.0 {
      MulPos(frac, -d);
      MulPos(1.0 - frac, -d);
      assert frac * (-d) == -(frac * d);
      assert (1.0 - frac) * (-d) == frac * d - d;
    }
  }

  /** The lookup never extrapolates a slope: on a sorted table its torque lies between the first
      and last tabulated torques at every rpm. */
  lemma {:induction false} TableTorqueBetweenEnds(tc: seq<TorquePoint>, rpm: real)
    requires |tc| > 0 && First(tc).rpm <= Last(tc).rpm
    ensures Min(First(tc).torque, Last(tc).torque) <= TableTorque(tc, rpm)
    ensures TableTorque(tc, rpm) <= -Min(-First(tc).torque, -Last(tc).torque)
  {
    if First(tc).rpm < rpm < Last(tc).rpm {
      ChordBetween(First(tc), Last(tc), rpm);
    }
  }

  /** Drag force per unit velocity, `0.5 * rho * A * Cd`. */
  function DragCoeff(b: Body): real
  {
    0.5 * Rho * b.area * b.cd
  }

  /** Downforce per unit velocity, `0.5 * rho * A * Cl`. */
  function LiftCoeff(b: Body): real
  {
    0.5 * Rho * b.area * b.cl
  }

  lemma CoeffsNonneg(b: Body)
    requires ValidBody(b)
    ensures 0.0 <= DragCoeff(b) && 0.0 <= LiftCoeff(b)
  {
    MulNonneg(0.5 * Rho, b.area);
    MulNonneg(0.5 * Rho * b.area, b.cd);
    MulNonneg(0.5 * Rho * b.area, b.cl);
  }

  /** The source's constants. pointmass_circuit.py: */
  const CircuitDrivetrain: Drivetrain :=
    Drivetrain(0.22098, 61.0 / 23.0 * 37.0 / 13.0, 9500.0,
               [35.0 / 14.0, 30.0 / 15.0, 31.0 / 19.0, 28.0 / 21.0, 23.0 / 21.0],
               [TorquePoint(7000.0, 36.18), TorquePoint(8000.0, 33.59),
                TorquePoint(9000.0, 31.29), TorquePoint(10000.0, 29.83)])

  const CircuitBody: Body := Body(190.0 + 69.0, 0.436, 1.07, 3.84)

  /** pointmass_accel.py: */
  const AccelDrivetrain: Drivetrain :=
    Drivetrain(0.22098, 61.0 / 23.0 * 37.0 / 13.0, 10000.0,
               [35.0 / 14.0, 30.0 / 15.0, 31.0 / 19.0, 28.0 / 21.0, 23.0 / 21.0],
               [TorquePoint(2500.0, 33.72), TorquePoint(3000.0, 30.26),
                TorquePoint(4000.0, 33.60), TorquePoint(5000.0, 32.59),
                TorquePoint(6000.0, 30.07), TorquePoint(7000.0, 30.59),
                TorquePoint(8000.0, 33.93), TorquePoint(9000.0, 32.75),
                TorquePoint(10000.0, 29.83)])

  const AccelBody: Body := Body(190.0 + 69.0, 0.436, 1.07, 3.84)

  /** `MU`, the single friction coefficient of the straight-line run. */
  const AccelMu: real := 1.5

  /** On the straight-line run's own table the lookup does not pass through an interior entry:
      at 3000 rpm the table says 30.26 Nm but the chord through 2500 and 10000 rpm gives more. */
  lemma LookupMissesInteriorEntry()
    ensures TableTorque(AccelDrivetrain.torqueCurve, 3000.0) != AccelDrivetrain.torqueCurve[1].torque
    ensures AccelDrivetrain.torqueCurve[1].rpm == 3000.0
  {
  }
}
