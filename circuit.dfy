/** pointmass_circuit.py: the lap simulator. `ic_engine` (gear choice, rpm clamp and torque
    lookup), the force chain of one integration step, the radius lookup in the `radii` table,
    and the record list `d` that each step appends to and whose newest record `correct_frame`
    may rewrite in place. */
module Circuit {
  import opened Common
  import opened Vehicle

  /** `mu_lat`: lateral tyre friction, a constant load-insensitive coefficient. */
  function MuLat(fn: real): real
  {
    1.8
  }

  /** `mu_long`: longitudinal tyre friction. */
  function MuLong(fn: real): real
  {
    1.3
  }

  /** What `ic_engine` returns. */
  datatype Engine = Engine(torque: real, rpm: real, vel: real, gear: nat)

  /** The gear loop of `ic_engine`, from gear `g` on: the gear it leaves in `gear` and the rpm it
      leaves in `rpm` when it breaks or runs out of gears. */
  function GearScan(p: Drivetrain, vel: real, g: nat): (r: (nat, real))
    requires WellFormed(p) && g < |p.gearRatios|
    decreases |p.gearRatios| - g
    ensures g <= r.0 < |p.gearRatios|
    ensures forall k | g <= k < r.0 :: p.upshiftRpm <= GearRpm(p, vel, k)
    ensures GearRpm(p, vel, r.0) < p.upshiftRpm ==> r.1 == GearRpm(p, vel, r.0)
    ensures p.upshiftRpm <= GearRpm(p, vel, r.0) ==>
              && r.0 == |p.gearRatios| - 1
              && r.1 == Min(GearRpm(p, vel, r.0), Last(p.torqueCurve).rpm)
  {
    var rpm := GearRpm(p, vel, g);
    if rpm < p.upshiftRpm then (g, rpm)
    else if g == |p.gearRatios| - 1 then (g, Min(rpm, Last(p.torqueCurve).rpm))
    else GearScan(p, vel, g + 1)
  }

  /** What `ic_engine(vel)` returns: torque looked up at the rpm the gear loop leaves, that rpm
      clamped into the table, and the wheel speed of the clamped rpm when it is below `vel`. */
  function EngineOf(p: Drivetrain, vel: real): (e: Engine)
    requires WellFormed(p)
    ensures e.gear < |p.gearRatios|
  {
    var (gear, rpm0) := GearScan(p, vel, 0);
    var tc := p.torqueCurve;
    var rpm :=
      if rpm0 <= First(tc).rpm then First(tc).rpm
      else if rpm0 >= Last(tc).rpm then Last(tc).rpm
      else rpm0;
    Engine(TableTorque(tc, rpm0), rpm, Min(WheelSpeed(p, rpm, gear), vel), gear)
  }

  /** `ic_engine`: the gear loop whose fall-through leaves `gear` and `rpm` behind, then the
      clamp and the table lookup. */
  method IcEngine(p: Drivetrain, vel: real) returns (e: Engine)
    requires WellFormed(p)
    ensures e == EngineOf(p, vel)
  {
    var n := |p.gearRatios|;
    var tc := p.torqueCurve;
    var gear: nat := 0;
    var rpm := 0.0;
    var g := 0;
    while g < n
      invariant 0 <= g <= n
      invariant g < n ==> GearScan(p, vel, g) == GearScan(p, vel, 0)
      invariant g == n ==> (gear, rpm) == GearScan(p, vel, 0)
      decreases n - g
    {
      gear := g;
      rpm := GearRpm(p, vel, g);
      if rpm < p.upshiftRpm {
        break;
      } else if rpm > Last(tc).rpm {
        rpm := Last(tc).rpm;
      }
      g := g + 1;
    }
    assert (gear, rpm) == GearScan(p, vel, 0);
    var rpm0 := rpm;
    var torque: real;
    if rpm <= First(tc).rpm {
      torque := First(tc).torque;
      rpm := First(tc).rpm;
    } else if rpm >= Last(tc).rpm {
      torque := Last(tc).torque;
      rpm := Last(tc).rpm;
    } else {
      torque := InteriorTorque(tc, rpm);
    }
    e := Engine(torque, rpm, Min(WheelSpeed(p, rpm, gear), vel), gear);
  }

  /** On a table whose first rpm is at most its last, the returned rpm lies in the table's range,
      and the returned torque is the table's value at that rpm, between the end torques. */
  lemma EngineRpmInTable(p: Drivetrain, vel: real)
    requires WellFormed(p) && Sorted(p.torqueCurve)
    ensures var e := EngineOf(p, vel);
      && First(p.torqueCurve).rpm <= e.rpm <= Last(p.torqueCurve).rpm
      && e.torque == TableTorque(p.torqueCurve, e.rpm)
      && Min(First(p.torqueCurve).torque, Last(p.torqueCurve).torque) <= e.torque
      && e.torque <= -Min(-First(p.torqueCurve).torque, -Last(p.torqueCurve).torque)
  {
    var tc := p.torqueCurve;
    if |tc| > 1 {
      assert tc[0].rpm < tc[|tc| - 1].rpm;
    }
    TableTorqueBetweenEnds(tc, GearScan(p, vel, 0).1);
  }

  /** The returned velocity never exceeds the input: it is lowered exactly when the chosen gear
      would turn the engine past the table's top rpm, and then to the wheel speed of that rpm. */
  lemma EngineNeverRaisesVelocity(p: Drivetrain, vel: real)
    requires WellFormed(p) && First(p.torqueCurve).rpm <= Last(p.torqueCurve).rpm
    ensures var e := EngineOf(p, vel);
      && e.vel <= vel
      && (e.vel < vel <==> Last(p.torqueCurve).rpm < GearRpm(p, vel, e.gear))
      && (e.vel < vel ==> e.vel == WheelSpeed(p, Last(p.torqueCurve).rpm, e.gear))
  {
    var e := EngineOf(p, vel);
    var top := Last(p.torqueCurve).rpm;
    var raw := GearRpm(p, vel, e.gear);
    WheelSpeedInvertsGearRpm(p, vel, e.gear);
    WheelSpeedMonotone(p, e.rpm, raw, e.gear);
    if top < raw {
      assert e.rpm == top;
    } else {
      assert raw <= e.rpm;
    }
  }

  /** A car at rest stays at rest: with a table of positive rpm the engine never lowers a zero
      velocity, and never lowers a non-negative one below zero. */
  lemma EngineKeepsVelocityNonneg(p: Drivetrain, vel: real)
    requires Physical(p) && 0.0 <= vel
    ensures 0.0 <= EngineOf(p, vel).vel
    ensures vel == 0.0 ==> EngineOf(p, vel).vel == 0.0
  {
    var e := EngineOf(p, vel);
    var top := Last(p.torqueCurve).rpm;
    EngineNeverRaisesVelocity(p, vel);
    if e.vel < vel {
      WheelSpeedMonotone(p, 0.0, top, e.gear);
      WheelSpeedInvertsGearRpm(p, 0.0, e.gear);
      assert GearRpm(p, 0.0, e.gear) == 0.0;
    }
    if vel == 0.0 {
      assert GearRpm(p, 0.0, e.gear) == 0.0;
    }
  }

  /** The fields one step writes into its record, lines 158-184. */
  datatype Forces = Forces(gear: nat, tEngMax: real, fEngMax: real, fDrag: real, fDf: real,
                           fNormal: real, fLatTireMax: real, vCornerMax: Extended,
                           fLatVelMax: real, fLat: real, aLat: real, fLongFricLim: real,
                           fLongCp: real, fLongNet: real, aLong: real)

  /** One record of `d`: time, velocity, step length, distance, radius and (from the first step
      on) the forces. The spline position `x`, `y` is not part of this model. */
  datatype Frame = Frame(t: real, vel: real, len: real, dist: real, r: Extended,
                         forces: Option<Forces>)

  /** Line 165: weight plus downforce. */
  function NormalLoad(b: Body, downforce: real): real
  {
    b.mass * G + downforce
  }

  /** Line 169: the tyre's lateral limit under a normal load. */
  function TireLimit(fNormal: real): real
  {
    fNormal * MuLat(fNormal)
  }

  lemma NormalLoadPositive(b: Body, v: real)
    requires ValidBody(b) && 0.0 <= v
    ensures 0.0 < NormalLoad(b, LiftCoeff(b) * v)
    ensures 0.0 < TireLimit(NormalLoad(b, LiftCoeff(b) * v))
  {
    CoeffsNonneg(b);
    MulNonneg(LiftCoeff(b), v);
    MulPos(b.mass, G);
  }

  /** The tyre side of one step (lines 165-176): normal load, lateral limits, the lateral force
      used and the longitudinal force left on the friction ellipse. */
  datatype Grip = Grip(fNormal: real, fLatTireMax: real, fLatVelMax: real, fLat: real,
                       fLongFricLim: real)

  function TyreGrip(sqrt: real -> real, b: Body, v: real, r: Extended): Grip
    requires ValidBody(b) && 0.0 <= v
    requires r.Finite? ==> 0.0 < r.value
  {
    var fNormal := NormalLoad(b, LiftCoeff(b) * v);
    NormalLoadPositive(b, v);
    var fLatTireMax := TireLimit(fNormal);
    var fLatVelMax := LatDemand(b.mass, v, r);
    var fLat := Min(fLatTireMax, fLatVelMax);
    Grip(fNormal, fLatTireMax, fLatVelMax, fLat, FrictionLimit(sqrt, fNormal, fLatTireMax, fLat))
  }

  /** The force chain of one step (lines 158-182), from the engine answer `eng`, the previous
      record's velocity `v` and the radius `r` looked up for this step. Drag and downforce are
      linear in `v`; a straight (`r` infinite) has no corner speed limit and no lateral load. */
  function StepForces(sqrt: real -> real, b: Body, p: Drivetrain, eng: Engine, v: real,
                      r: Extended): (f: Forces)
    requires WellFormed(p) && eng.gear < |p.gearRatios| && ValidBody(b) && 0.0 <= v
    requires r.Finite? ==> 0.0 < r.value
    ensures f.gear == eng.gear
  {
    var tEngMax := eng.torque * p.finalDrive * p.gearRatios[eng.gear];
    var fEngMax := tEngMax / p.tireRadius;
    var fDrag := DragCoeff(b) * v;
    var g := TyreGrip(sqrt, b, v, r);
    var vCornerMax := if r.Inf? then Inf else Finite(CornerSpeed(sqrt, g.fLatTireMax, b.mass, r.value));
    var fLongCp := Min(g.fLongFricLim, fEngMax);
    var fLongNet := fLongCp - fDrag;
    Forces(eng.gear, tEngMax, fEngMax, fDrag, LiftCoeff(b) * v, g.fNormal, g.fLatTireMax,
           vCornerMax, g.fLatVelMax, g.fLat, g.fLat / b.mass, g.fLongFricLim, fLongCp,
           fLongNet, fLongNet / b.mass)
  }

  /** Line 171: the lateral force the turn asks for at velocity `v`, `m * v**2 / r`; none on a
      straight. */
  function LatDemand(mass: real, v: real, r: Extended): real
    requires r.Finite? ==> r.value != 0.0
  {
    if r.Inf? then 0.0 else mass * Sq(v) / r.value
  }

  /** Line 170: the speed at which the tyre's lateral limit holds the car on radius `r`. */
  function CornerSpeed(sqrt: real -> real, tireMax: real, mass: real, r: real): real
    requires mass != 0.0
  {
    sqrt(tireMax / mass * r)
  }

  lemma CornerSpeedSign(sqrt: real -> real, tireMax: real, mass: real, r: real)
    requires IsSqrt(sqrt) && 0.0 < tireMax && 0.0 < mass && 0.0 < r
    ensures 0.0 <= CornerSpeed(sqrt, tireMax, mass, r)
  {
    DivPos(tireMax, mass);
    MulPos(tireMax / mass, r);
    SqrtAt(sqrt, tireMax / mass * r);
  }

  lemma LatDemandNonneg(mass: real, v: real, r: Extended)
    requires 0.0 <= mass && (r.Finite? ==> 0.0 < r.value)
    ensures 0.0 <= LatDemand(mass, v, r)
  {
    if r.Finite? {
      SqNonneg(v);
      MulNonneg(mass, Sq(v));
    }
  }

  /** Line 176: the longitudinal force the tyre has left once `lat` of its lateral limit
      `tireMax` is used, on the ellipse of grip `fNormal * mu_long`. */
  function FrictionLimit(sqrt: real -> real, fNormal: real, tireMax: real, lat: real): real
    requires tireMax != 0.0
  {
    sqrt((1.0 - Sq(lat / tireMax)) * Sq(fNormal * MuLong(fNormal)))
  }

  /** The lateral force never exceeds what the tyre or the turn asks for, so the radicand of
      the longitudinal limit is non-negative and the two forces lie on the friction ellipse. */
  lemma FrictionEllipse(sqrt: real -> real, b: Body, p: Drivetrain, eng: Engine, v: real,
                        r: Extended)
    requires IsSqrt(sqrt)
    requires WellFormed(p) && eng.gear < |p.gearRatios| && ValidBody(b) && 0.0 <= v
    requires r.Finite? ==> 0.0 < r.value
    ensures var f := StepForces(sqrt, b, p, eng, v, r);
      && 0.0 < f.fNormal
      && 0.0 <= f.fLat <= f.fLatTireMax
      && f.fLat <= f.fLatVelMax
      && 0.0 <= (1.0 - Sq(f.fLat / f.fLatTireMax)) * Sq(f.fNormal * MuLong(f.fNormal))
      && 0.0 <= f.fLongFricLim
      && Sq(f.fLat / f.fLatTireMax) + Sq(f.fLongFricLim / (f.fNormal * MuLong(f.fNormal))) == 1.0
  {
    GripEllipse(sqrt, b, v, r);
  }

  lemma GripEllipse(sqrt: real -> real, b: Body, v: real, r: Extended)
    requires IsSqrt(sqrt) && ValidBody(b) && 0.0 <= v
    requires r.Finite? ==> 0.0 < r.value
    ensures var g := TyreGrip(sqrt, b, v, r);
      && 0.0 < g.fNormal
      && 0.0 <= g.fLat <= g.fLatTireMax
      && g.fLat <= g.fLatVelMax
      && 0.0 <= (1.0 - Sq(g.fLat / g.fLatTireMax)) * Sq(g.fNormal * MuLong(g.fNormal))
      && 0.0 <= g.fLongFricLim
      && Sq(g.fLat / g.fLatTireMax) + Sq(g.fLongFricLim / (g.fNormal * MuLong(g.fNormal))) == 1.0
  {
    var g := TyreGrip(sqrt, b, v, r);
    NormalLoadPositive(b, v);
    LatDemandNonneg(b.mass, v, r);
    LateralSplit(sqrt, g.fNormal, g.fLatTireMax, g.fLatVelMax, g.fLat, g.fLongFricLim);
  }

  /** The lateral force is the smaller of the tyre's limit and what the turn asks for; the
      longitudinal limit then completes the friction ellipse. */
  lemma LateralSplit(sqrt: real -> real, n: real, tireMax: real, velMax: real, lat: real, lim: real)
    requires IsSqrt(sqrt) && 0.0 < n && 0.0 < tireMax && 0.0 <= velMax
    requires lat == Min(tireMax, velMax) && lim == FrictionLimit(sqrt, n, tireMax, lat)
    ensures 0.0 <= lat <= tireMax && lat <= velMax
    ensures 0.0 <= (1.0 - Sq(lat / tireMax)) * Sq(n * MuLong(n))
    ensures 0.0 <= lim
    ensures Sq(lat / tireMax) + Sq(lim / (n * MuLong(n))) == 1.0
  {
    EllipseSplit(sqrt, n, tireMax, lat);
  }

  /** The friction-ellipse arithmetic on its own: for a lateral force between zero and the
      tyre's lateral limit, the radicand is non-negative and the longitudinal limit completes
      the ellipse. */
  lemma EllipseSplit(sqrt: real -> real, n: real, tireMax: real, lat: real)
    requires IsSqrt(sqrt) && 0.0 < n && 0.0 < tireMax && 0.0 <= lat <= tireMax
    ensures 0.0 <= (1.0 - Sq(lat / tireMax)) * Sq(n * MuLong(n))
    ensures 0.0 <= FrictionLimit(sqrt, n, tireMax, lat)
    ensures Sq(lat / tireMax) + Sq(FrictionLimit(sqrt, n, tireMax, lat) / (n * MuLong(n))) == 1.0
  {
    MulPos(n, 1.3);
    UnitRatio(lat, tireMax);
    RadicandNonneg(lat / tireMax, n * MuLong(n));
    SqrtAt(sqrt, (1.0 - Sq(lat / tireMax)) * Sq(n * MuLong(n)));
    EllipseClose(lat / tireMax, n * MuLong(n), FrictionLimit(sqrt, n, tireMax, lat));
  }

  lemma UnitRatio(a: real, c: real)
    requires 0.0 < c && 0.0 <= a <= c
    ensures 0.0 <= a / c <= 1.0
  {
    DivLe(a, c, c);
    DivLe(0.0, a, c);
    assert c / c == 1.0;
  }

  lemma RadicandNonneg(s: real, grip: real)
    requires 0.0 <= s <= 1.0 && grip != 0.0
    ensures 0.0 <= (1.0 - Sq(s)) * Sq(grip)
  {
    SqAtMostOne(s);
    SqNonneg(grip);
    MulNonneg(1.0 - Sq(s), Sq(grip));
  }

  /** A longitudinal force `l` whose square is the radicand completes the ellipse. */
  lemma EllipseClose(s: real, grip: real, l: real)
    requires grip != 0.0 && Sq(l) == (1.0 - Sq(s)) * Sq(grip)
    ensures Sq(s) + Sq(l / grip) == 1.0
  {
    SqQuotient(l, grip);
    MulDivCancel(1.0 - Sq(s), Sq(grip));
  }

  lemma MulDivCancel(a: real, q: real)
    requires q != 0.0
    ensures a * q / q == a
  {
  }

  lemma SqAtMostOne(s: real)
    requires 0.0 <= s <= 1.0
    ensures Sq(s) <= 1.0
  {
    MulLe(s, 1.0, s);
    assert s * s <= 1.0 * s;
    assert 1.0 * s == s;
    assert Sq(s) == s * s;
  }

  lemma SqQuotient(a: real, c: real)
    requires c != 0.0
    ensures Sq(c) != 0.0 && Sq(a / c) == Sq(a) / Sq(c)
  {
    SqNonneg(c);
    var x := a / c;
    assert a == x * c;
    assert Mul(a, a) == Mul(x, x) * Mul(c, c);
  }

  /** The longitudinal force at the contact patch is capped by both the friction limit and the
      engine, and is never negative while the engine pulls. */
  lemma TractionLimits(sqrt: real -> real, b: Body, p: Drivetrain, eng: Engine, v: real,
                       r: Extended)
    requires IsSqrt(sqrt)
    requires WellFormed(p) && eng.gear < |p.gearRatios| && ValidBody(b) && 0.0 <= v
    requires r.Finite? ==> 0.0 < r.value
    ensures var f := StepForces(sqrt, b, p, eng, v, r);
      && f.fLongCp <= f.fLongFricLim
      && f.fLongCp <= f.fEngMax
      && (f.fLongCp == f.fLongFricLim || f.fLongCp == f.fEngMax)
      && (0.0 <= eng.torque ==> 0.0 <= f.fLongCp)
  {
    var f := StepForces(sqrt, b, p, eng, v, r);
    FrictionEllipse(sqrt, b, p, eng, v, r);
    if 0.0 <= eng.torque {
      MulNonneg(eng.torque, p.finalDrive);
      MulNonneg(eng.torque * p.finalDrive, p.gearRatios[eng.gear]);
      assert 0.0 <= f.tEngMax / p.tireRadius;
    }
  }

  /** The record the step appends (lines 158-186): `vel` is the lower of the corner speed and
      the integrated velocity, `len` the trapezoidal step over a fixed `dt`. */
  function NextFrame(sqrt: real -> real, b: Body, p: Drivetrain, dt: real, prev: Frame,
                     eng: Engine, r: Extended): (next: Frame)
    requires WellFormed(p) && eng.gear < |p.gearRatios| && ValidBody(b) && 0.0 <= prev.vel
    requires r.Finite? ==> 0.0 < r.value
    ensures Linked(prev, next, dt)
    ensures next.r == r && next.forces == Some(StepForces(sqrt, b, p, eng, prev.vel, r))
  {
    var f := StepForces(sqrt, b, p, eng, prev.vel, r);
    var vel := NewVelocity(f, prev.vel, dt);
    var len := Trapezoid(prev.vel, vel, dt);
    Frame(prev.t + dt, vel, len, prev.dist + len, r, Some(f))
  }

  /** The new velocity is capped by the corner speed and by the integrated velocity, and stays
      non-negative when the engine pulls and one step of drag cannot reverse the car. */
  lemma NextVelocityBounds(sqrt: real -> real, b: Body, p: Drivetrain, dt: real, prev: Frame,
                           eng: Engine, r: Extended)
    requires IsSqrt(sqrt)
    requires WellFormed(p) && eng.gear < |p.gearRatios| && ValidBody(b) && 0.0 <= prev.vel
    requires r.Finite? ==> 0.0 < r.value
    ensures var next := NextFrame(sqrt, b, p, dt, prev, eng, r);
            var f := next.forces.value;
      && next.vel <= prev.vel + f.aLong * dt
      && (f.vCornerMax.Finite? ==> next.vel <= f.vCornerMax.value)
      && (0.0 <= eng.torque && 0.0 < dt && DragCoeff(b) * dt <= b.mass ==> 0.0 <= next.vel)
  {
    var next := NextFrame(sqrt, b, p, dt, prev, eng, r);
    if 0.0 <= eng.torque && 0.0 < dt && DragCoeff(b) * dt <= b.mass {
      IntegratedStepNonneg(sqrt, b, p, eng, prev.vel, r, dt);
    }
  }

  lemma CornerSpeedNonneg(sqrt: real -> real, b: Body, p: Drivetrain, eng: Engine, v: real,
                          r: Extended)
    requires IsSqrt(sqrt)
    requires WellFormed(p) && eng.gear < |p.gearRatios| && ValidBody(b) && 0.0 <= v
    requires r.Finite? ==> 0.0 < r.value
    ensures var f := StepForces(sqrt, b, p, eng, v, r);
      f.vCornerMax.Finite? ==> 0.0 <= f.vCornerMax.value
  {
    var f := StepForces(sqrt, b, p, eng, v, r);
    if r.Finite? {
      NormalLoadPositive(b, v);
      CornerSpeedSign(sqrt, f.fLatTireMax, b.mass, r.value);
    }
  }

  lemma IntegratedStepNonneg(sqrt: real -> real, b: Body, p: Drivetrain, eng: Engine, v: real,
                             r: Extended, dt: real)
    requires IsSqrt(sqrt)
    requires WellFormed(p) && eng.gear < |p.gearRatios| && ValidBody(b) && 0.0 <= v
    requires r.Finite? ==> 0.0 < r.value
    requires 0.0 <= eng.torque && 0.0 < dt && DragCoeff(b) * dt <= b.mass
    ensures 0.0 <= NewVelocity(StepForces(sqrt, b, p, eng, v, r), v, dt)
  {
    var f := StepForces(sqrt, b, p, eng, v, r);
    CornerSpeedNonneg(sqrt, b, p, eng, v, r);
    TractionLimits(sqrt, b, p, eng, v, r);
    assert f.fDrag == DragCoeff(b) * v;
    assert f.fLongNet == f.fLongCp - f.fDrag;
    assert f.aLong == f.fLongNet / b.mass;
    assert f.aLong == (f.fLongCp - DragCoeff(b) * v) / b.mass;
    IntegratedVelocityNonneg(b, dt, v, f.fLongCp, f.aLong);
    NewVelocityNonneg(f, v, dt);
  }

  lemma NewVelocityNonneg(f: Forces, v: real, dt: real)
    requires f.vCornerMax.Finite? ==> 0.0 <= f.vCornerMax.value
    requires 0.0 <= v + f.aLong * dt
    ensures 0.0 <= NewVelocity(f, v, dt)
  {
  }

  /** Line 184: the lower of the corner speed and the velocity integrated over `dt`. */
  function NewVelocity(f: Forces, v: real, dt: real): real
  {
    MinExt(f.vCornerMax, v + f.aLong * dt)
  }

  lemma IntegratedVelocityNonneg(b: Body, dt: real, v: real, fLongCp: real, aLong: real)
    requires ValidBody(b) && 0.0 < dt && 0.0 <= v && 0.0 <= fLongCp
    requires DragCoeff(b) * dt <= b.mass
    requires aLong == (fLongCp - DragCoeff(b) * v) / b.mass
    ensures 0.0 <= v + aLong * dt
  {
    var k := DragCoeff(b);
    var m := b.mass;
    CoeffsNonneg(b);
    DivLe(-(k * v), fLongCp - k * v, m);
    MulLe(-(k * v) / m, (fLongCp - k * v) / m, dt);
    assert -(k * v) / m * dt == -((k * dt) * v / m);
    MulLe(k * dt, m, v);
    DivLe((k * dt) * v, m * v, m);
    assert m * v / m == v;
  }

  /** The first `radii` entry whose key exceeds `s`, scanning from index `from`. */
  function FirstKeyAbove(radii: seq<(real, Extended)>, s: real, from: nat): (k: Option<nat>)
    requires from <= |radii|
    decreases |radii| - from
    ensures k.Some? ==> from <= k.value < |radii| && s < radii[k.value].0
    ensures k.Some? ==> forall j | from <= j < k.value :: radii[j].0 <= s
    ensures k.None? ==> forall j | from <= j < |radii| :: radii[j].0 <= s
  {
    if from == |radii| then None
    else if s < radii[from].0 then Some(from)
    else FirstKeyAbove(radii, s, from + 1)
  }

  /** Line 167: the radius of the first entry whose key exceeds the distance `s`; `None` where
      the list comprehension is empty and indexing it raises IndexError. */
  function RadiusAt(radii: seq<(real, Extended)>, s: real): (r: Option<Extended>)
  {
    var k := FirstKeyAbove(radii, s, 0);
    if k.Some? then Some(radii[k.value].1) else None
  }

  lemma RadiusAtIsFirstAbove(radii: seq<(real, Extended)>, s: real)
    ensures RadiusAt(radii, s).None? <==> forall j | 0 <= j < |radii| :: radii[j].0 <= s
    ensures RadiusAt(radii, s).Some? ==>
      exists k | 0 <= k < |radii| ::
        && s < radii[k].0
        && RadiusAt(radii, s).value == radii[k].1
        && forall j | 0 <= j < k :: radii[j].0 <= s
  {
    var k := FirstKeyAbove(radii, s, 0);
    if k.Some? {
      assert s < radii[k.value].0;
    }
  }

  /** The trapezoidal step length between velocities `v0` and `v1` over `dt`. */
  function Trapezoid(v0: real, v1: real, dt: real): real
  {
    (v0 + v1) * dt / 2.0
  }

  /** Consecutive records: time advances by `dt` and the distance by the trapezoidal step. */
  ghost predicate Linked(a: Frame, b: Frame, dt: real)
  {
    && b.t == a.t + dt
    && b.len == Trapezoid(a.vel, b.vel, dt)
    && b.dist == a.dist + b.len
  }

  ghost predicate Chained(d: seq<Frame>, dt: real)
  {
    forall k | 1 <= k < |d| :: Linked(d[k - 1], d[k], dt)
  }

  /** Time is the number of steps times `dt`: the step is fixed in time, not in distance. */
  lemma {:induction false} TimesAreSteps(d: seq<Frame>, dt: real)
    requires Chained(d, dt) && |d| > 0 && d[0].t == 0.0
    ensures forall k | 0 <= k < |d| :: d[k].t == k as real * dt
    decreases |d|
  {
    if |d| > 1 {
      var n := |d| - 1;
      TimesAreSteps(d[..n], dt);
      assert d[n - 1].t == (n - 1) as real * dt;
      assert d[n].t == d[n - 1].t + dt;
      assert (n - 1) as real * dt + dt == n as real * dt;
    }
  }

  /** With non-negative velocities the distance never decreases along the records. */
  lemma {:induction false} DistanceNondecreasing(d: seq<Frame>, dt: real)
    requires Chained(d, dt) && 0.0 < dt
    requires forall k | 0 <= k < |d| :: 0.0 <= d[k].vel
    ensures forall j, k | 0 <= j <= k < |d| :: d[j].dist <= d[k].dist
    decreases |d|
  {
    if |d| > 1 {
      var n := |d| - 1;
      DistanceNondecreasing(d[..n], dt);
      MulNonneg(d[n - 1].vel + d[n].vel, dt);
      assert d[n - 1].dist <= d[n].dist;
    }
  }

  /** `correct_frame` applied to record `f` whose predecessor is `before`: when the engine,
      asked at `f`'s velocity, gives a lower one, `vel`, `len` and `dist` are recomputed. */
  function Corrected(p: Drivetrain, dt: real, before: Frame, f: Frame): Frame
    requires WellFormed(p)
  {
    var ev := EngineOf(p, f.vel).vel;
    if f.vel <= ev then f
    else
      var len := Trapezoid(before.vel, ev, dt);
      f.(vel := ev, len := len, dist := before.dist + len)
  }

  /** The correction never raises the velocity, keeps it non-negative, touches only `vel`,
      `len` and `dist`, and keeps the record linked to its predecessor. */
  lemma CorrectionOnlyLowers(p: Drivetrain, dt: real, before: Frame, f: Frame)
    requires Physical(p) && 0.0 <= f.vel
    ensures var c := Corrected(p, dt, before, f);
      && c.vel <= f.vel
      && 0.0 <= c.vel
      && c.t == f.t && c.r == f.r && c.forces == f.forces
      && (c.vel < f.vel ==> c.len == Trapezoid(before.vel, c.vel, dt)
                             && c.dist == before.dist + c.len)
      && (c.vel == f.vel ==> c == f)
      && (Linked(before, f, dt) ==> Linked(before, c, dt))
  {
    EngineNeverRaisesVelocity(p, f.vel);
    EngineKeepsVelocityNonneg(p, f.vel);
  }

  /** The trace with its newest record corrected (line 155). The bootstrap record alone is at
      rest and is never lowered (`EngineKeepsVelocityNonneg`), so it is left as it is. */
  function CorrectNewest(p: Drivetrain, dt: real, d: seq<Frame>): seq<Frame>
    requires WellFormed(p) && |d| > 0
  {
    if |d| == 1 then d
    else d[..|d| - 1] + [Corrected(p, dt, d[|d| - 2], d[|d| - 1])]
  }

  /** A trace a pass can run on: at least one record, and no record moving backwards. */
  ghost predicate Forward(d: seq<Frame>)
  {
    |d| > 0 && forall k | 0 <= k < |d| :: 0.0 <= d[k].vel
  }

  /** Correcting the newest record keeps every velocity non-negative. */
  lemma CorrectNewestForward(p: Drivetrain, dt: real, d: seq<Frame>)
    requires Physical(p) && Forward(d)
    ensures Forward(CorrectNewest(p, dt, d))
    ensures |CorrectNewest(p, dt, d)| == |d|
  {
    if |d| > 1 {
      CorrectionOnlyLowers(p, dt, d[|d| - 2], d[|d| - 1]);
    }
  }

  /** The simulation parameters the lap needs: a physical drivetrain and body, a positive time
      step short enough that one step of drag cannot reverse the car, and positive radii. */
  ghost predicate LapConfig(b: Body, p: Drivetrain, dt: real, radii: seq<(real, Extended)>,
                            sqrt: real -> real)
  {
    && Physical(p)
    && ValidBody(b)
    && 0.0 < dt
    && DragCoeff(b) * dt <= b.mass
    && IsSqrt(sqrt)
    && forall k | 0 <= k < |radii| :: radii[k].1.Finite? ==> 0.0 < radii[k].1.value
  }

  /** The lap simulation: the record list `d` of the main loop, without the empty placeholder
      record that the script keeps appended after the newest one. */
  class Lap {
    const body: Body
    const p: Drivetrain
    const dt: real
    const totaldist: real
    const radii: seq<(real, Extended)>
    const sqrt: real -> real
    var d: seq<Frame>

    ghost predicate Valid()
      reads this
    {
      && LapConfig(body, p, dt, radii, sqrt)
      && |d| > 0
      && d[0].t == 0.0 && d[0].vel == 0.0 && d[0].len == 1.0 && d[0].dist == 0.0
      && d[0].forces.None?
      && Forward(d)
      && Chained(d, dt)
    }

    /** One pass of the main loop (lines 152-193) on the records `t`, as a value: the engine is
      asked at the newest velocity, that record is corrected, and then the lap is finished,
      fails with IndexError past the last radius key, or gains the next record. */
    ghost function Pass(t: seq<Frame>): (Outcome, seq<Frame>)
      requires LapConfig(body, p, dt, radii, sqrt) && Forward(t)
    {
      CorrectNewestForward(p, dt, t);
      var c := CorrectNewest(p, dt, t);
      var prev := c[|c| - 1];
      if totaldist <= prev.dist then (Finished, c)
      else
        match RadiusAt(radii, prev.dist)
        case None => (Failed(IndexError), c)
        case Some(rad) =>
          RadiusAtIsFirstAbove(radii, prev.dist);
          var next := NextFrame(sqrt, body, p, dt, prev, EngineOf(p, t[|t| - 1].vel), rad);
          (if totaldist <= next.dist then Finished else Continue, c + [next])
    }

    /** A pass never leaves a record moving backwards. */
    lemma PassForward(t: seq<Frame>)
      requires LapConfig(body, p, dt, radii, sqrt) && Forward(t)
      ensures Forward(Pass(t).1)
    {
      CorrectNewestForward(p, dt, t);
      var c := CorrectNewest(p, dt, t);
      var prev := c[|c| - 1];
      if prev.dist < totaldist && RadiusAt(radii, prev.dist).Some? {
        RadiusAtIsFirstAbove(radii, prev.dist);
        EngineRpmInTable(p, t[|t| - 1].vel);
        NextVelocityBounds(sqrt, body, p, dt, prev, EngineOf(p, t[|t| - 1].vel),
                           RadiusAt(radii, prev.dist).value);
      }
    }

    /** Up to `n` passes from the records `t`: once a pass does not continue, the loop has
      stopped and later passes change nothing. */
    ghost function Passes(t: seq<Frame>, n: nat): (r: (Outcome, seq<Frame>))
      requires LapConfig(body, p, dt, radii, sqrt) && Forward(t)
      ensures Forward(r.1)
      decreases n
    {
      if n == 0 then (Continue, t)
      else
        var before := Passes(t, n - 1);
        if before.0 != Continue then before
        else
          PassForward(before.1);
          Pass(before.1)
    }

    /** Every record but the newest lies short of the lap length. */
    ghost predicate Short(t: seq<Frame>)
    {
      forall k | 0 <= k < |t| - 1 :: t[k].dist < totaldist
    }

    /** What `Run` promises of the outcome and records `r` of `n` passes from `base` records:
      the older records are short of the lap length, a finished lap's newest record reaches
      it, and a run still going has one record per pass, the newest still short of it. */
    ghost predicate Reached(r: (Outcome, seq<Frame>), base: nat, n: nat)
    {
      && Short(r.1)
      && |r.1| > 0
      && (r.0 == Finished ==> totaldist <= r.1[|r.1| - 1].dist)
      && (r.0 == Continue ==> |r.1| == base + n)
      && (r.0 == Continue && 0 < n ==> r.1[|r.1| - 1].dist < totaldist)
    }

    /** A pass keeps the older records short of the lap length; it finishes only once the
      newest record reaches the lap length, and it continues only with one more record that
      is still short of it. */
    lemma PassFacts(t: seq<Frame>)
      requires LapConfig(body, p, dt, radii, sqrt) && Forward(t) && Short(t)
      ensures Reached(Pass(t), |t|, 1)
    {
      CorrectNewestForward(p, dt, t);
      var c := CorrectNewest(p, dt, t);
      assert forall k | 0 <= k < |t| - 1 :: c[k] == t[k];
    }

    /** Any number of passes from records short of the lap length keeps `Reached`. */
    lemma {:induction false} PassesFacts(t: seq<Frame>, n: nat)
      requires LapConfig(body, p, dt, radii, sqrt) && Forward(t) && Short(t)
      ensures Reached(Passes(t, n), |t|, n)
    {
      if n > 0 {
        PassesFacts(t, n - 1);
        var before := Passes(t, n - 1);
        if before.0 == Continue {
          PassFacts(before.1);
        }
      }
    }

    /** Once the loop has stopped it stays stopped: further passes leave outcome and records
      as they were. */
    lemma {:induction false} PassesStopped(t: seq<Frame>, m: nat, n: nat)
      requires LapConfig(body, p, dt, radii, sqrt) && Forward(t)
      requires m <= n && Passes(t, m).0 != Continue
      ensures Passes(t, n) == Passes(t, m)
      decreases n - m
    {
      if m < n {
        PassesStopped(t, m, n - 1);
      }
    }

    /** The bootstrap record (lines 137-143); `r0` stands for `get_radius(0)`. */
    constructor (body: Body, p: Drivetrain, dt: real, totaldist: real,
                 radii: seq<(real, Extended)>, sqrt: real -> real, r0: Extended)
      requires LapConfig(body, p, dt, radii, sqrt)
      ensures Valid()
      ensures this.body == body && this.p == p && this.dt == dt && this.totaldist == totaldist
      ensures this.radii == radii && this.sqrt == sqrt
      ensures d == [Frame(0.0, 0.0, 1.0, 0.0, r0, None)]
    {
      this.body := body;
      this.p := p;
      this.dt := dt;
      this.totaldist := totaldist;
      this.radii := radii;
      this.sqrt := sqrt;
      d := [Frame(0.0, 0.0, 1.0, 0.0, r0, None)];
    }

    /** `correct_frame(k)`: lowers record `k` to the engine's velocity when that is lower, and
      recomputes its `len` and `dist` from record `k - 1`; no other record changes. */
    method CorrectFrame(k: nat)
      requires Valid() && k < |d|
      modifies this
      ensures |d| == |old(d)|
      ensures forall j | 0 <= j < |d| && j != k :: d[j] == old(d[j])
      ensures d[k].vel <= old(d[k].vel)
      ensures k == 0 ==> d == old(d)
      ensures k > 0 ==> d[k] == Corrected(p, dt, old(d[k - 1]), old(d[k]))
      ensures k == |d| - 1 ==> Valid() && d == CorrectNewest(p, dt, old(d))
    {
      var eng := IcEngine(p, d[k].vel);
      EngineNeverRaisesVelocity(p, d[k].vel);
      EngineKeepsVelocityNonneg(p, d[k].vel);
      if d[k].vel <= eng.vel {
        return;
      }
      if k == 0 {
        // Record -1 is the empty placeholder: reading its velocity would raise KeyError. The
        // bootstrap record is at rest, and the engine never lowers a velocity of zero.
        assert false;
      }
      var vel := eng.vel;
      var len := Trapezoid(d[k - 1].vel, vel, dt);
      d := d[k := d[k].(vel := vel, len := len, dist := d[k - 1].dist + len)];
    }

    /** One pass of the main loop (lines 152-193): the engine is asked at the newest record's
      velocity BEFORE that record is corrected; the loop ends if the corrected record has
      reached the lap length, otherwise the next record is appended, and the loop ends once
      that one reaches it. */
    method Step() returns (out: Outcome)
      requires Valid()
      modifies this
      ensures Valid()
      ensures var c := CorrectNewest(p, dt, old(d));
              var prev := c[|c| - 1];
        && (totaldist <= prev.dist ==> out == Finished && d == c)
        && (prev.dist < totaldist && RadiusAt(radii, prev.dist).None? ==>
              out == Failed(IndexError) && d == c)
        && (prev.dist < totaldist && RadiusAt(radii, prev.dist).Some? ==>
              && d == c + [NextFrame(sqrt, body, p, dt, prev, EngineOf(p, old(d)[|old(d)| - 1].vel),
                                     RadiusAt(radii, prev.dist).value)]
              && (out == Finished <==> totaldist <= d[|d| - 1].dist)
              && (out == Continue <==> d[|d| - 1].dist < totaldist))
      ensures (out, d) == Pass(old(d))
    {
      var n := |d|;
      var eng := IcEngine(p, d[n - 1].vel);
      CorrectFrame(n - 1);
      EngineRpmInTable(p, old(d)[n - 1].vel);
      out := Extend(eng);
    }

    /** Lines 156-193, once the newest record is corrected: the loop ends if that record has
      reached the lap length; otherwise the radius is looked up (IndexError past the last
      key) and the next record, built with the engine answer `eng`, is appended. */
    method Extend(eng: Engine) returns (out: Outcome)
      requires Valid() && eng.gear < |p.gearRatios| && 0.0 <= eng.torque
      modifies this
      ensures Valid()
      ensures var prev := old(d)[|old(d)| - 1];
        && (totaldist <= prev.dist ==> out == Finished && d == old(d))
        && (prev.dist < totaldist && RadiusAt(radii, prev.dist).None? ==>
              out == Failed(IndexError) && d == old(d))
        && (prev.dist < totaldist && RadiusAt(radii, prev.dist).Some? ==>
              && d == old(d) + [NextFrame(sqrt, body, p, dt, prev, eng,
                                          RadiusAt(radii, prev.dist).value)]
              && (out == Finished <==> totaldist <= d[|d| - 1].dist)
              && (out == Continue <==> d[|d| - 1].dist < totaldist))
    {
      var prev := d[|d| - 1];
      if totaldist <= prev.dist {
        return Finished;
      }
      var r := RadiusAt(radii, prev.dist);
      if r.None? {
        return Failed(IndexError);
      }
      RadiusAtIsFirstAbove(radii, prev.dist);
      NextVelocityBounds(sqrt, body, p, dt, prev, eng, r.value);
      var next := NextFrame(sqrt, body, p, dt, prev, eng, r.value);
      d := d + [next];
      if totaldist <= next.dist {
        return Finished;
      }
      return Continue;
    }

    /** The main loop, for at most `maxSteps` passes: the records are those of `Passes`, every
      record but the newest lies short of the lap length, and a finished lap's newest record
      reaches it. */
    method Run(maxSteps: nat) returns (out: Outcome)
      requires Valid() && |d| == 1
      modifies this
      ensures Valid()
      ensures forall k | 0 <= k < |d| - 1 :: d[k].dist < totaldist
      ensures out == Finished ==> totaldist <= d[|d| - 1].dist
      ensures out == Continue ==> |d| == maxSteps + 1
      ensures out == Continue && 0 < maxSteps ==> d[|d| - 1].dist < totaldist
      ensures (out, d) == Passes(old(d), maxSteps)
    {
      out := Continue;
      var steps := 0;
      while steps < maxSteps
        invariant Valid()
        invariant steps <= maxSteps
        invariant (out, d) == Passes(old(d), steps)
        invariant out == Continue
        decreases maxSteps - steps
      {
        out := Step();
        if out != Continue {
          PassesStopped(old(d), steps + 1, maxSteps);
          PassesFacts(old(d), maxSteps);
          return;
        }
        steps := steps + 1;
      }
      PassesFacts(old(d), maxSteps);
    }
  }
}
