/** pointmass_accel.py: the straight-line acceleration run. `engine_stuff` (gear choice with a
    velocity `v` that some paths leave unbound, and the torque lookup), the thirteen parallel
    columns of `data` that every pass of the main loop appends to, the in-place overwrite of
    the newest stored velocity, and `data_frame`. */
module Accel {
  import opened Common
  import opened Vehicle

  /** Gear `g` ends the gear loop: its rpm is below the upshift point (first branch), or exactly
      at it without exceeding the table (last branch). */
  predicate Stops(p: Drivetrain, vel: real, g: nat)
    requires WellFormed(p) && g < |p.gearRatios|
  {
    var rpm := GearRpm(p, vel, g);
    rpm < p.upshiftRpm || (rpm == p.upshiftRpm && rpm <= Last(p.torqueCurve).rpm)
  }

  /** The gear loop of `engine_stuff` from gear `g` on, with `v` as left by earlier gears: the
      gear, rpm and velocity it leaves behind. The branch that clamps to the table's top rpm
      sets `v` and carries on to the next gear; the branch for an rpm above the upshift point
      carries on without setting it. */
  function Scan(p: Drivetrain, vel: real, g: nat, v: Option<real>): (r: (nat, real, Option<real>))
    requires WellFormed(p) && g < |p.gearRatios|
    decreases |p.gearRatios| - g
    ensures g <= r.0 < |p.gearRatios|
    ensures forall j | g <= j < r.0 :: !Stops(p, vel, j)
    ensures Stops(p, vel, r.0) ==> r.1 == GearRpm(p, vel, r.0) && r.2 == Some(vel)
    ensures !Stops(p, vel, r.0) ==>
              && r.0 == |p.gearRatios| - 1
              && r.1 == Min(GearRpm(p, vel, r.0), Last(p.torqueCurve).rpm)
    ensures !Stops(p, vel, r.0) && Last(p.torqueCurve).rpm < GearRpm(p, vel, r.0) ==>
              r.2 == Some(WheelSpeed(p, Last(p.torqueCurve).rpm, r.0))
    ensures r.2.None? ==>
              v.None? && forall j | g <= j < |p.gearRatios| :: GearRpm(p, vel, j) <= Last(p.torqueCurve).rpm
  {
    var rpm := GearRpm(p, vel, g);
    var top := Last(p.torqueCurve).rpm;
    var lastGear := g == |p.gearRatios| - 1;
    if rpm < p.upshiftRpm then (g, rpm, Some(vel))
    else if rpm > top then
      var v' := Some(WheelSpeed(p, top, g));
      if lastGear then (g, top, v') else Scan(p, vel, g + 1, v')
    else if rpm > p.upshiftRpm then
      if lastGear then (g, rpm, v) else Scan(p, vel, g + 1, v)
    else
      WheelSpeedInvertsGearRpm(p, vel, g);
      (g, rpm, Some(WheelSpeed(p, rpm, g)))
  }

  /** What `engine_stuff` returns. */
  datatype AccelEngine = AccelEngine(wheelTorque: real, engineTorque: real, rpm: real,
                                     velocity: real, gear: nat)

  /** What `engine_stuff(vel)` returns, or NameError where the loop left `v` unbound. The rpm
      is not clamped to the bottom of the table here, only used for the lookup. */
  function AccelEngineOf(p: Drivetrain, vel: real): (r: Result<AccelEngine>)
    requires WellFormed(p)
    ensures r.Ok? ==> r.value.gear < |p.gearRatios|
    ensures r.Ok? ==> r.value.engineTorque == TableTorque(p.torqueCurve, r.value.rpm)
    ensures r.Ok? ==>
      r.value.wheelTorque == r.value.engineTorque * p.finalDrive * p.gearRatios[r.value.gear]
  {
    var (gear, rpm, v) := Scan(p, vel, 0, None);
    var torque := TableTorque(p.torqueCurve, rpm);
    if v.None? then Err(NameError)
    else Ok(AccelEngine(WheelTorque(p, torque, gear), torque, rpm, v.value, gear))
  }

  /** `torque * final_drive * gear_ratios[gear]`. */
  function WheelTorque(p: Drivetrain, torque: real, gear: nat): real
    requires WellFormed(p) && gear < |p.gearRatios|
  {
    torque * p.finalDrive * p.gearRatios[gear]
  }

  /** `engine_stuff`: the gear loop with its four branches, then the table lookup. */
  method EngineStuff(p: Drivetrain, vel: real) returns (r: Result<AccelEngine>)
    requires WellFormed(p)
    ensures r == AccelEngineOf(p, vel)
  {
    var n := |p.gearRatios|;
    var tc := p.torqueCurve;
    var gear: nat := 0;
    var rpm := 0.0;
    var v: Option<real> := None;
    var g := 0;
    while g < n
      invariant 0 <= g <= n
      invariant g < n ==> Scan(p, vel, g, v) == Scan(p, vel, 0, None)
      invariant g == n ==> (gear, rpm, v) == Scan(p, vel, 0, None)
      decreases n - g
    {
      gear := g;
      rpm := GearRpm(p, vel, g);
      if rpm < p.upshiftRpm {
        v := Some(vel);
        break;
      } else if rpm > Last(tc).rpm {
        rpm := Last(tc).rpm;
        v := Some(WheelSpeed(p, rpm, gear));
      } else if rpm > p.upshiftRpm {
        g := g + 1;
        continue;
      } else {
        v := Some(WheelSpeed(p, rpm, gear));
        break;
      }
      g := g + 1;
    }
    assert (gear, rpm, v) == Scan(p, vel, 0, None);
    var torque: real;
    if rpm <= First(tc).rpm {
      torque := First(tc).torque;
    } else if rpm >= Last(tc).rpm {
      torque := Last(tc).torque;
    } else {
      torque := InteriorTorque(tc, rpm);
    }
    if v.None? {
      return Err(NameError);
    }
    r := Ok(AccelEngine(WheelTorque(p, torque, gear), torque, rpm, v.value, gear));
  }

  /** When some gear ends the loop, the first such gear is chosen and the input velocity comes
      back unchanged. */
  lemma StoppingGearKeepsVelocity(p: Drivetrain, vel: real, g: nat)
    requires WellFormed(p) && g < |p.gearRatios| && Stops(p, vel, g)
    ensures var r := AccelEngineOf(p, vel);
      && r.Ok?
      && r.value.gear <= g
      && Stops(p, vel, r.value.gear)
      && (forall j | 0 <= j < r.value.gear :: !Stops(p, vel, j))
      && r.value.velocity == vel
      && r.value.rpm == GearRpm(p, vel, r.value.gear)
  {
  }

  /** With the upshift point at or above the table's top rpm the velocity is always bound, and
      it never exceeds the input. */
  lemma AccelVelocityNeverRaised(p: Drivetrain, vel: real)
    requires WellFormed(p) && Last(p.torqueCurve).rpm <= p.upshiftRpm
    ensures AccelEngineOf(p, vel).Ok?
    ensures AccelEngineOf(p, vel).value.velocity <= vel
  {
    ScanNeverRaises(p, vel, 0, None);
  }

  lemma {:induction false} ScanNeverRaises(p: Drivetrain, vel: real, g: nat, v: Option<real>)
    requires WellFormed(p) && g < |p.gearRatios| && Last(p.torqueCurve).rpm <= p.upshiftRpm
    requires v.Some? ==> v.value <= vel
    ensures Scan(p, vel, g, v).2.Some?
    ensures Scan(p, vel, g, v).2.value <= vel
    decreases |p.gearRatios| - g
  {
    var rpm := GearRpm(p, vel, g);
    var top := Last(p.torqueCurve).rpm;
    if p.upshiftRpm <= rpm && top < rpm {
      WheelSpeedInvertsGearRpm(p, vel, g);
      WheelSpeedMonotone(p, top, rpm, g);
      if g < |p.gearRatios| - 1 {
        ScanNeverRaises(p, vel, g + 1, Some(WheelSpeed(p, top, g)));
      }
    }
  }

  /** Whatever the upshift point, a successful lookup never reports a velocity above the input:
      every branch that binds it either keeps the input or clamps the rpm down to the table's
      top. */
  lemma AccelVelocityAtMostInput(p: Drivetrain, vel: real)
    requires WellFormed(p)
    ensures AccelEngineOf(p, vel).Ok? ==> AccelEngineOf(p, vel).value.velocity <= vel
  {
    ScanAtMostInput(p, vel, 0, None);
  }

  lemma {:induction false} ScanAtMostInput(p: Drivetrain, vel: real, g: nat, v: Option<real>)
    requires WellFormed(p) && g < |p.gearRatios|
    requires v.Some? ==> v.value <= vel
    ensures Scan(p, vel, g, v).2.Some? ==> Scan(p, vel, g, v).2.value <= vel
    decreases |p.gearRatios| - g
  {
    var rpm := GearRpm(p, vel, g);
    var top := Last(p.torqueCurve).rpm;
    if p.upshiftRpm <= rpm && top < rpm {
      WheelSpeedInvertsGearRpm(p, vel, g);
      WheelSpeedMonotone(p, top, rpm, g);
      if g < |p.gearRatios| - 1 {
        ScanAtMostInput(p, vel, g + 1, Some(WheelSpeed(p, top, g)));
      }
    } else if p.upshiftRpm < rpm && g < |p.gearRatios| - 1 {
      ScanAtMostInput(p, vel, g + 1, v);
    }
  }

  /** Gear `g` takes the `continue` branch: its rpm is above the upshift point but within the
      table, the only branch that neither sets `v` nor ends the loop. */
  predicate Skips(p: Drivetrain, vel: real, g: nat)
    requires WellFormed(p) && g < |p.gearRatios|
  {
    p.upshiftRpm < GearRpm(p, vel, g) <= Last(p.torqueCurve).rpm
  }

  /** When every gear from `g` on skips, the loop leaves `v` as it found it. */
  lemma {:induction false} ScanKeepsUnbound(p: Drivetrain, vel: real, g: nat, v: Option<real>)
    requires WellFormed(p) && g < |p.gearRatios|
    requires forall j | g <= j < |p.gearRatios| :: Skips(p, vel, j)
    ensures Scan(p, vel, g, v).2 == v
    decreases |p.gearRatios| - g
  {
    assert Skips(p, vel, g);
    if g < |p.gearRatios| - 1 {
      ScanKeepsUnbound(p, vel, g + 1, v);
    }
  }

  /** `engine_stuff` fails exactly when every gear takes the `continue` branch, and then with
      NameError: each of the other three branches binds `v`. */
  lemma UnboundExactly(p: Drivetrain, vel: real)
    requires WellFormed(p)
    ensures AccelEngineOf(p, vel).Err? <==>
              forall g | 0 <= g < |p.gearRatios| :: Skips(p, vel, g)
    ensures AccelEngineOf(p, vel).Err? ==> AccelEngineOf(p, vel).error == NameError
  {
    var r := Scan(p, vel, 0, None);
    if r.2.None? {
      assert !Stops(p, vel, r.0);
      forall g | 0 <= g < |p.gearRatios|
        ensures Skips(p, vel, g)
      {
        assert !Stops(p, vel, g);
      }
    }
    if forall g | 0 <= g < |p.gearRatios| :: Skips(p, vel, g) {
      ScanKeepsUnbound(p, vel, 0, None);
    }
  }

  /** A one-gear drivetrain whose upshift point lies below the table's top rpm. */
  const UnboundExample: Drivetrain :=
    Drivetrain(1.0, 1.0, 100.0, [1.0], [TorquePoint(50.0, 1.0), TorquePoint(1000.0, 1.0)])

  /** Without the upshift condition `v` can be left unbound: at 500 rpm the only gear is above
      the upshift point but inside the table, so no branch that sets `v` runs. */
  lemma VelocityCanBeUnbound()
    ensures WellFormed(UnboundExample)
    ensures AccelEngineOf(UnboundExample, 500.0 / RpmPerSpeed(UnboundExample, 0)) == Err(NameError)
  {
    var p := UnboundExample;
    RpmPositive(p, 0);
    var k := RpmPerSpeed(p, 0);
    assert GearRpm(p, 500.0 / k, 0) == 500.0;
  }

  /** One row of `data`, as `data_frame` returns it. */
  datatype Row = Row(time: real, normalForce: real, frictionForce: real, downforce: real,
                     dragForce: real, netForce: real, acceleration: real, velocity: real,
                     distance: real, gear: nat, engineSpeed: real, wheelTorque: real,
                     engineTorque: real)

  /** `DT`, `MU` and the vehicle and transmission globals. */
  datatype Params = Params(p: Drivetrain, body: Body, mu: real, dt: real)

  ghost predicate ValidParams(q: Params)
  {
    WellFormed(q.p) && ValidBody(q.body)
  }

  /** Line 121: pass `k` is stamped `k * DT`. */
  function Stamp(k: nat, dt: real): real
  {
    k as real * dt
  }

  /** The row pass `k` appends (lines 121 and 128-159), given the engine answer and the newest
      stored row `prev` with its velocity already overwritten (`None` on the first pass, where
      the `IndexError` handlers supply zeros). Velocity integrates the PREVIOUS row's
      acceleration; distance integrates the new velocity. */
  function NewRow(q: Params, e: AccelEngine, prev: Option<Row>, k: nat): Row
    requires ValidParams(q)
  {
    var downforce := if prev.Some? then LiftCoeff(q.body) * prev.value.velocity else 0.0;
    var drag := if prev.Some? then DragCoeff(q.body) * prev.value.velocity else 0.0;
    var engineForce := e.wheelTorque / q.p.tireRadius;
    var normal := q.body.mass * G + downforce;
    var friction := q.mu * normal;
    var net := Min(friction, engineForce) - drag;
    var acc := net / q.body.mass;
    var velocity :=
      if prev.Some? then prev.value.velocity + prev.value.acceleration * q.dt else acc * q.dt;
    var distance := if prev.Some? then prev.value.distance + velocity * q.dt else velocity * q.dt;
    Row(Stamp(k, q.dt), normal, friction, downforce, drag, net, acc, velocity, distance,
        e.gear, e.rpm, e.wheelTorque, e.engineTorque)
  }

  /** The net force is the smaller of grip and engine force less drag, so it never exceeds
      `MU * normal_force - drag_force`. */
  lemma NetForceCapped(q: Params, e: AccelEngine, prev: Option<Row>, k: nat)
    requires ValidParams(q)
    ensures var r := NewRow(q, e, prev, k);
      && r.frictionForce == q.mu * r.normalForce
      && r.netForce <= r.frictionForce - r.dragForce
      && r.netForce <= e.wheelTorque / q.p.tireRadius - r.dragForce
      && (r.netForce == r.frictionForce - r.dragForce
          || r.netForce == e.wheelTorque / q.p.tireRadius - r.dragForce)
  {
  }

  /** One pass of the main loop on the rows stored so far: ask the engine at the newest
      velocity (at 0 on the first pass), overwrite that velocity with the answer, and append
      the new row; NameError when the engine leaves its velocity unbound. */
  function Advance(q: Params, rows: seq<Row>): Result<seq<Row>>
    requires ValidParams(q)
  {
    if |rows| == 0 then
      var e := AccelEngineOf(q.p, 0.0);
      if e.Err? then Err(e.error) else Ok([NewRow(q, e.value, None, 0)])
    else
      var last := rows[|rows| - 1];
      var e := AccelEngineOf(q.p, last.velocity);
      if e.Err? then Err(e.error)
      else
        var fixed := last.(velocity := e.value.velocity);
        Ok(rows[..|rows| - 1] + [fixed, NewRow(q, e.value, Some(fixed), |rows|)])
  }

  /** The velocity the engine is asked at: the newest row's, or 0 before the first row. */
  function NewestVelocity(rows: seq<Row>): real
  {
    if |rows| == 0 then 0.0 else rows[|rows| - 1].velocity
  }

  /** The rows after the newest velocity is overwritten with the engine's answer. */
  function Refreshed(rows: seq<Row>, e: Result<AccelEngine>): seq<Row>
  {
    if |rows| == 0 || e.Err? then rows
    else rows[|rows| - 1 := rows[|rows| - 1].(velocity := e.value.velocity)]
  }

  /** A successful pass is the refresh followed by one appended row built on the refreshed
      newest row. */
  lemma AdvanceSplit(q: Params, rows: seq<Row>, e: AccelEngine)
    requires ValidParams(q) && AccelEngineOf(q.p, NewestVelocity(rows)) == Ok(e)
    ensures var fixed := Refreshed(rows, Ok(e));
      Advance(q, rows) ==
        Ok(fixed + [NewRow(q, e, if |rows| == 0 then None else Some(fixed[|rows| - 1]), |rows|)])
  {
    if |rows| > 0 {
      var n := |rows|;
      var last := rows[n - 1];
      var fix := last.(velocity := e.velocity);
      assert AccelEngineOf(q.p, last.velocity) == Ok(e);
      assert Refreshed(rows, Ok(e)) == rows[..n - 1] + [fix];
      assert Advance(q, rows) == Ok(rows[..n - 1] + [fix, NewRow(q, e, Some(fix), n)]);
      assert rows[..n - 1] + [fix] + [NewRow(q, e, Some(fix), n)]
          == rows[..n - 1] + [fix, NewRow(q, e, Some(fix), n)];
    } else {
      assert AccelEngineOf(q.p, 0.0) == Ok(e);
      assert rows + [NewRow(q, e, None, 0)] == [NewRow(q, e, None, 0)];
    }
  }

  /** A pass appends exactly one row stamped `k * DT`, keeps every older row, and changes the
      previously newest row in its velocity only, which it never raises when the upshift point
      is at or above the table's top rpm. */
  lemma AdvanceOnlyLowersNewest(q: Params, rows: seq<Row>)
    requires ValidParams(q) && Last(q.p.torqueCurve).rpm <= q.p.upshiftRpm
    ensures Advance(q, rows).Ok?
    ensures var r := Advance(q, rows).value;
      && |r| == |rows| + 1
      && r[|rows|].time == Stamp(|rows|, q.dt)
      && (forall k | 0 <= k < |rows| - 1 :: r[k] == rows[k])
      && (|rows| > 0 ==>
            && r[|rows| - 1] == rows[|rows| - 1].(velocity := r[|rows| - 1].velocity)
            && r[|rows| - 1].velocity <= rows[|rows| - 1].velocity)
  {
    AccelVelocityNeverRaised(q.p, 0.0);
    if |rows| > 0 {
      AccelVelocityNeverRaised(q.p, rows[|rows| - 1].velocity);
    }
  }

  /** Whatever the upshift point, a pass that succeeds never raises the previously newest
      velocity. */
  lemma AdvanceNeverRaisesNewest(q: Params, rows: seq<Row>)
    requires ValidParams(q)
    ensures Advance(q, rows).Ok? && |rows| > 0 ==>
      Advance(q, rows).value[|rows| - 1].velocity <= rows[|rows| - 1].velocity
  {
    if |rows| > 0 {
      AccelVelocityAtMostInput(q.p, rows[|rows| - 1].velocity);
    }
  }

  /** `finish_mode` with its limit. */
  datatype FinishMode = Distance(finishDistance: real) | Time(finishTime: real)

  /** The loop's exit test on a freshly appended row (lines 161-162). */
  predicate Past(mode: FinishMode, r: Row)
  {
    match mode
    case Distance(limit) => r.distance > limit
    case Time(limit) => r.time > limit
  }

  /** One pass of the main loop on the rows so far (lines 121-163), as a value: `Advance`, then
      the finish test on the appended row; an error leaves the rows as they were. */
  function Pass(q: Params, mode: FinishMode, rows: seq<Row>): (r: (Outcome, seq<Row>))
    requires ValidParams(q)
    ensures |r.1| == if r.0.Failed? then |rows| else |rows| + 1
  {
    match Advance(q, rows)
    case Err(e) => (Failed(e), rows)
    case Ok(r) => (if Past(mode, r[|r| - 1]) then Finished else Continue, r)
  }

  /** Up to `n` passes from the rows `rows`, stopping at the first pass that does not
      continue. */
  function Passes(q: Params, mode: FinishMode, rows: seq<Row>, n: nat): (Outcome, seq<Row>)
    requires ValidParams(q)
    decreases n
  {
    if n == 0 then (Continue, rows)
    else
      var (out, next) := Pass(q, mode, rows);
      if out != Continue then (out, next) else Passes(q, mode, next, n - 1)
  }

  /** A successful pass appends one row and leaves the finish test of every older row as it
      was: the only older value it changes is a velocity. */
  lemma AdvanceKeepsPast(q: Params, mode: FinishMode, rows: seq<Row>)
    requires ValidParams(q)
    ensures Advance(q, rows).Ok? ==>
      && |Advance(q, rows).value| == |rows| + 1
      && forall k | 0 <= k < |rows| :: Past(mode, Advance(q, rows).value[k]) == Past(mode, rows[k])
  {
    var e := AccelEngineOf(q.p, NewestVelocity(rows));
    if e.Ok? {
      AdvanceSplit(q, rows, e.value);
    }
  }

  /** What `AccelRun.Run` promises of an outcome and its rows `r`: no row but the newest is past
      the finish, a finished run's newest row is, and a run still going has `len` rows, none of
      them past the finish. */
  predicate Reached(mode: FinishMode, r: (Outcome, seq<Row>), len: nat)
  {
    && (forall k | 0 <= k < |r.1| - 1 :: !Past(mode, r.1[k]))
    && (r.0 == Finished ==> 0 < |r.1| && Past(mode, r.1[|r.1| - 1]))
    && (r.0 == Continue ==> |r.1| == len && forall k | 0 <= k < |r.1| :: !Past(mode, r.1[k]))
  }

  /** Passes from rows none of which is past the finish reach `Reached`, one row per pass. */
  lemma {:induction false} PassesFacts(q: Params, mode: FinishMode, rows: seq<Row>, n: nat)
    requires ValidParams(q) && forall k | 0 <= k < |rows| :: !Past(mode, rows[k])
    ensures Reached(mode, Passes(q, mode, rows, n), |rows| + n)
    decreases n
  {
    if n > 0 {
      AdvanceKeepsPast(q, mode, rows);
      var (out, next) := Pass(q, mode, rows);
      if out == Continue {
        PassesFacts(q, mode, next, n - 1);
      }
    }
  }

  /** `data`: thirteen parallel lists, one per quantity. */
  datatype Columns = Columns(time: seq<real>, normalForce: seq<real>, frictionForce: seq<real>,
                             downforce: seq<real>, dragForce: seq<real>, netForce: seq<real>,
                             acceleration: seq<real>, velocity: seq<real>, distance: seq<real>,
                             gear: seq<nat>, engineSpeed: seq<real>, wheelTorque: seq<real>,
                             engineTorque: seq<real>)

  /** Every column holds `n` entries. */
  predicate Aligned(c: Columns, n: nat)
  {
    && |c.time| == n && |c.normalForce| == n && |c.frictionForce| == n && |c.downforce| == n
    && |c.dragForce| == n && |c.netForce| == n && |c.acceleration| == n && |c.velocity| == n
    && |c.distance| == n && |c.gear| == n && |c.engineSpeed| == n && |c.wheelTorque| == n
    && |c.engineTorque| == n
  }

  /** Row `k` read across the columns. */
  function RowAt(c: Columns, n: nat, k: nat): Row
    requires Aligned(c, n) && k < n
  {
    Row(c.time[k], c.normalForce[k], c.frictionForce[k], c.downforce[k], c.dragForce[k],
        c.netForce[k], c.acceleration[k], c.velocity[k], c.distance[k], c.gear[k],
        c.engineSpeed[k], c.wheelTorque[k], c.engineTorque[k])
  }

  /** The columns read as rows. */
  function RowsOf(c: Columns, n: nat): (rows: seq<Row>)
    requires Aligned(c, n)
    ensures |rows| == n
    ensures forall k | 0 <= k < n :: rows[k] == RowAt(c, n, k)
  {
    seq(n, k requires 0 <= k < n => RowAt(c, n, k))
  }

  /** The columns with one row's values appended, in the order of lines 147-159. */
  function Push(c: Columns, r: Row): Columns
  {
    Columns(c.time + [r.time], c.normalForce + [r.normalForce],
            c.frictionForce + [r.frictionForce], c.downforce + [r.downforce],
            c.dragForce + [r.dragForce], c.netForce + [r.netForce],
            c.acceleration + [r.acceleration], c.velocity + [r.velocity],
            c.distance + [r.distance], c.gear + [r.gear], c.engineSpeed + [r.engineSpeed],
            c.wheelTorque + [r.wheelTorque], c.engineTorque + [r.engineTorque])
  }

  /** Appending to every column keeps them aligned and appends exactly that row. */
  lemma PushAppendsRow(c: Columns, n: nat, r: Row)
    requires Aligned(c, n)
    ensures Aligned(Push(c, r), n + 1)
    ensures RowsOf(Push(c, r), n + 1) == RowsOf(c, n) + [r]
  {
    var c' := Push(c, r);
    assert Aligned(c', n + 1);
    var lhs := RowsOf(c', n + 1);
    var rhs := RowsOf(c, n) + [r];
    forall k | 0 <= k < n + 1
      ensures lhs[k] == rhs[k]
    {
      if k < n {
        assert RowAt(c', n + 1, k) == RowAt(c, n, k);
      }
    }
  }

  /** Overwriting the newest velocity changes that row's velocity and nothing else. */
  lemma SetVelocityChangesOneRow(c: Columns, n: nat, v: real)
    requires Aligned(c, n) && n > 0
    ensures Aligned(c.(velocity := c.velocity[n - 1 := v]), n)
    ensures RowsOf(c.(velocity := c.velocity[n - 1 := v]), n)
         == RowsOf(c, n)[n - 1 := RowsOf(c, n)[n - 1].(velocity := v)]
  {
    var c' := c.(velocity := c.velocity[n - 1 := v]);
    var lhs := RowsOf(c', n);
    var rhs := RowsOf(c, n)[n - 1 := RowsOf(c, n)[n - 1].(velocity := v)];
    forall k | 0 <= k < n
      ensures lhs[k] == rhs[k]
    {
      if k < n - 1 {
        assert RowAt(c', n, k) == RowAt(c, n, k);
      }
    }
  }

  /** The run's state: the columns of `data` and the pass counter `i`. */
  class AccelRun {
    const q: Params
    const mode: FinishMode
    var i: nat
    var data: Columns

    /** The columns stay aligned with one entry per pass, and row `k` is stamped `k * DT`. */
    ghost predicate Valid()
      reads this
    {
      && ValidParams(q)
      && Aligned(data, i)
      && forall k | 0 <= k < i :: data.time[k] == Stamp(k, q.dt)
    }

    ghost function Rows(): (rows: seq<Row>)
      requires Valid()
      reads this
      ensures |rows| == i
    {
      RowsOf(data, i)
    }

    constructor (q: Params, mode: FinishMode)
      requires ValidParams(q)
      ensures Valid() && this.q == q && this.mode == mode && i == 0
    {
      this.q := q;
      this.mode := mode;
      i := 0;
      data := Columns([], [], [], [], [], [], [], [], [], [], [], [], []);
    }

    /** `data_frame(index)`: row `index` across all columns, with Python's negative indexing;
      IndexError outside `-len <= index < len`. */
    function DataFrame(index: int): (r: Result<Row>)
      requires Valid()
      reads this
      ensures r.Ok? <==> -(i as int) <= index < i
      ensures r.Ok? ==> r.value == Rows()[if index < 0 then index + i else index]
    {
      if index < -(i as int) || i <= index then Err(IndexError)
      else
        var k := if index < 0 then index + i else index;
        Ok(Row(data.time[k], data.normalForce[k], data.frictionForce[k], data.downforce[k],
               data.dragForce[k], data.netForce[k], data.acceleration[k], data.velocity[k],
               data.distance[k], data.gear[k], data.engineSpeed[k], data.wheelTorque[k],
               data.engineTorque[k]))
    }

    /** Line 125: the newest stored velocity is overwritten in place. */
    method OverwriteNewestVelocity(v: real)
      requires Valid() && i > 0
      modifies this
      ensures Valid() && i == old(i)
      ensures Rows() == old(Rows())[i - 1 := old(Rows())[i - 1].(velocity := v)]
    {
      SetVelocityChangesOneRow(data, i, v);
      data := data.(velocity := data.velocity[i - 1 := v]);
    }

    /** Lines 147-159: one value appended to each of the thirteen columns. */
    method AppendRow(row: Row)
      requires Valid() && row.time == Stamp(i, q.dt)
      modifies this
      ensures Valid() && i == old(i) + 1
      ensures Rows() == old(Rows()) + [row]
    {
      PushAppendsRow(data, i, row);
      data := data.(time := data.time + [row.time]);
      data := data.(normalForce := data.normalForce + [row.normalForce]);
      data := data.(frictionForce := data.frictionForce + [row.frictionForce]);
      data := data.(downforce := data.downforce + [row.downforce]);
      data := data.(dragForce := data.dragForce + [row.dragForce]);
      data := data.(netForce := data.netForce + [row.netForce]);
      data := data.(acceleration := data.acceleration + [row.acceleration]);
      data := data.(velocity := data.velocity + [row.velocity]);
      data := data.(distance := data.distance + [row.distance]);
      data := data.(gear := data.gear + [row.gear]);
      data := data.(engineSpeed := data.engineSpeed + [row.engineSpeed]);
      data := data.(wheelTorque := data.wheelTorque + [row.wheelTorque]);
      data := data.(engineTorque := data.engineTorque + [row.engineTorque]);
      i := i + 1;
    }

    /** Lines 121-127: the engine is asked at the newest stored velocity (at 0 before the first
      row, where indexing raises IndexError) and that velocity is overwritten with the answer. */
    method Query() returns (eng: Result<AccelEngine>)
      requires Valid()
      modifies this
      ensures Valid() && i == old(i)
      ensures eng == AccelEngineOf(q.p, NewestVelocity(old(Rows())))
      ensures Rows() == Refreshed(old(Rows()), eng)
    {
      if i == 0 {
        eng := EngineStuff(q.p, 0.0);
      } else {
        eng := EngineStuff(q.p, data.velocity[i - 1]);
        if eng.Ok? {
          OverwriteNewestVelocity(eng.value.velocity);
        }
      }
    }

    /** Lines 128-159: the new row is built on the newest stored row (zeros through the
      IndexError handlers when there is none) and appended. */
    method AppendNext(e: AccelEngine) returns (row: Row)
      requires Valid()
      modifies this
      ensures Valid()
      ensures row == NewRow(q, e, if old(i) == 0 then None else Some(old(Rows())[old(i) - 1]), old(i))
      ensures Rows() == old(Rows()) + [row]
    {
      var newest := DataFrame(-1);
      var prev := if newest.Ok? then Some(newest.value) else None;
      row := NewRow(q, e, prev, i);
      AppendRow(row);
    }

    /** One pass of the main loop (lines 121-163): query and overwrite, then append the new row
      and test it against the finish. */
    method Step() returns (out: Outcome)
      requires Valid()
      modifies this
      ensures Valid()
      ensures Advance(q, old(Rows())).Err? ==>
                out == Failed(Advance(q, old(Rows())).error) && Rows() == old(Rows())
      ensures Advance(q, old(Rows())).Ok? ==>
                && Rows() == Advance(q, old(Rows())).value
                && (out == Finished <==> Past(mode, Rows()[i - 1]))
                && (out == Continue <==> !Past(mode, Rows()[i - 1]))
      ensures (out, Rows()) == Pass(q, mode, old(Rows()))
    {
      ghost var before := Rows();
      var eng := Query();
      if eng.Err? {
        return Failed(eng.error);
      }
      AdvanceSplit(q, before, eng.value);
      var row := AppendNext(eng.value);
      if Past(mode, row) {
        return Finished;
      }
      return Continue;
    }

    /** The main loop, for at most `maxSteps` passes from empty columns: the rows are those of
      `Passes`; it stops at the first row past the finish, and no earlier row is past it. */
    method Run(maxSteps: nat) returns (out: Outcome)
      requires Valid() && i == 0
      modifies this
      ensures Valid()
      ensures forall k | 0 <= k < i - 1 :: !Past(mode, Rows()[k])
      ensures out == Finished ==> i > 0 && Past(mode, Rows()[i - 1])
      ensures out == Continue ==> i == maxSteps
      ensures (out, Rows()) == Passes(q, mode, [], maxSteps)
    {
      out := Continue;
      while i < maxSteps
        invariant Valid()
        invariant i <= maxSteps
        invariant Passes(q, mode, [], maxSteps) == Passes(q, mode, Rows(), maxSteps - i)
        invariant out == Continue
        decreases maxSteps - i
      {
        out := Step();
        if out != Continue {
          PassesFacts(q, mode, [], maxSteps);
          return;
        }
      }
      PassesFacts(q, mode, [], maxSteps);
    }
  }
}
