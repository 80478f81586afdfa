# RFR lap simulator — a Dafny model of its decision logic

The RFR lap simulator is a set of Python scripts for a Formula SAE car. It covers two simulations and three track tools:

- **pointmass_circuit.py** is the lap simulator. It marches a point mass round a track in fixed time steps. Each step asks the engine (`ic_engine`) for its torque and velocity limit. It then walks a chain of force clamps: drag, downforce, the lateral grip limit, the friction ellipse, and the corner speed. Finally it appends a record to the trace `d`. Before each step, the newest record is corrected retroactively (`correct_frame`) when the engine cannot reach its velocity.
- **pointmass_accel.py** is the straight-line acceleration run. It stores thirteen parallel columns in `data`. Each pass asks `engine_stuff` at the newest velocity, overwrites that velocity in place with the engine's answer, and appends one value to every column. The run stops once the distance (or time) passes the finish.
- **dxf_to_track.py** chains the LINE and ARC entities of a drawing into one ordered track and writes it as CSV rows. It starts from the first LINE. Each pass then greedily picks the orientation whose start lies nearest to the track's current end.
- **dxf_to_tck.py** does the same chaining. It then maps the sections to straights and turns and cuts each element into steps of about `delta`. A turn advances the heading modulo 2π at every step. An optional closing segment follows. The step lengths are accumulated into the parameter and the total length that the spline fit uses.
- **track_gen.py** (`gen_track`) reads the CSV rows back and cuts each element into steps of about 5 units. It closes the loop with a straight run.

The model has one module per source file, plus two shared modules:

| file | module | what it holds |
|---|---|---|
| common.dfy | Common | Option/Result, the Python exceptions as errors, Python's `round` (ties to even) and `%` (floored) on exact reals, points, `dist` through a square-root oracle, trigonometric oracles, sums |
| vehicle.dfy | Vehicle | drivetrain and body globals, gear rpm and wheel speed, the torque-table lookup and its two scans, the constants of both simulators |
| circuit.dfy | Circuit | `ic_engine`, the force chain, the radius lookup, `correct_frame`, and the class `Lap` holding the trace `d` |
| accel.dfy | Accel | `engine_stuff`, the row a pass appends, and the class `AccelRun` holding the thirteen columns |
| dxf.dfy | Dxf | entities, `endpoints`, the greedy chaining loop, angle normalisation, CSV rows |
| tck.dfy | Tck | the track list, the discretisation loops, the closing segment, `cumsum` and the total length |
| trackgen.dfy | TrackGen | the row parser and `gen_track` |

Some things are modelled as follows:

- Loops that mutate state are `method`s with loop invariants. Each is proved equal to a specification function, and the properties are proved about that function.
  - `IcEngine` and `EngineStuff` are proved against `EngineOf` and `AccelEngineOf`.
  - `ScanNearest` and `BuildSections` are proved against `Kept` and `Chain`.
  - `ParseRows` is proved against `Parsed`.
  - `Discretize` is proved against `AllSteps`.
- The trace `d` is a `seq` field of the class `Lap`, and the columns of `data` are `seq` fields of the class `AccelRun`. Their methods declare what they modify and state the whole new state. One pass of each main loop is also a specification function on values (`Circuit.Lap.Pass`, `Accel.Pass`), and `Run` is proved to leave exactly the state of the repeated passes (`Passes`).
- The scripts' `while True` loops are `Run(maxSteps)`: each runs the step method at most `maxSteps` times.
- A Python exception becomes a `Result` error:
  - IndexError: an empty list comprehension, a row with too few fields, or no LINE.
  - ZeroDivisionError: a zero division count or radius.
  - NameError: the unbound `v` of `engine_stuff`.
  - TypeError: `endpoints` returning `None` for an entity of another kind.
  - ValueError: `float` of a word.
  - KeyError: the empty placeholder record.

Behaviours of the scripts that differ from what the simulators are meant to compute, modelled as the scripts have them:

- **Torque lookup.** Inside the table the lookup reads the straight line through the FIRST and LAST entries, not a piecewise-linear interpolation between the bracketing pair. The `e1` scan breaks at the first entry below the rpm, which is entry 0. The `e2` scan never breaks, so it ends at the last entry above the rpm, which is the table's last entry (`Vehicle.InteriorTorque`). On the acceleration run's own table this misses the tabulated torque at 3000 rpm (`Vehicle.LookupMissesInteriorEntry`).
- **Time step.** The lap simulator steps by a fixed `dt` in time, not by equal distance steps with a solved `dt` (`Circuit.TimesAreSteps`).
- **Drag and downforce.** Both are linear in velocity.
- **Engine query and correction.** The engine is queried at the previous record's velocity before `correct_frame` lowers it.
- **No final flush.** The record that ends the loop when it is appended is never corrected.
- **Straights and missing radii.** A straight's radius is infinite, not capped. A distance beyond the radius table raises IndexError.
- **`engine_stuff`.** Its rpm is clamped only at the top of the table. When the upshift point lies below the table's top rpm, its velocity `v` can be left unbound (`Accel.VelocityCanBeUnbound`).
- **Closing segment of dxf_to_tck.py.** It appends points without step lengths. Once the gap spans at least 1.5 steps, the lists are no longer the same length (`Tck.ClosingBreaksLockstep`).
- **Closing run of track_gen.py.** It follows the heading that the last element left, not the direction to the first point. A gap of at most 2.5 (2.5 included, since the tie rounds to 0) raises ZeroDivisionError (`TrackGen.ClosingFailsExactlyOnSmallGaps`).

## Model

| member | source | states |
|---|---|---|
| Common.Round | dxf_to_tck.py:98 | Python's `round`: within one half of its argument, and even on an exact tie |
| Common.FloorMod | dxf_to_tck.py:123 | Python's `%` for a positive modulus: the result lies in [0, m) and differs from the argument by a whole multiple of m |
| Common.DistIsAMetricBase | dxf_to_track.py:7-9 | `dist` is non-negative, symmetric, and zero exactly for equal points |
| Vehicle.WheelSpeedInvertsGearRpm | pointmass_accel.py:35-45 | converting a velocity to rpm in a gear and back gives the velocity again |
| Vehicle.WheelSpeedMonotone | pointmass_accel.py:35-45 | the rpm-to-wheel-speed conversion preserves strict order and equality |
| Vehicle.FirstEntryBelow | pointmass_circuit.py:72-75 | the breaking scan finds the first entry whose rpm is below the query, with every earlier entry at or above it, or none |
| Vehicle.LastEntryAbove | pointmass_circuit.py:76-78 | the non-breaking scan ends on the last entry whose rpm is above the query, with every later entry at or below it, or none |
| Vehicle.InteriorTorque | pointmass_circuit.py:71-79 | strictly inside the table the scans settle on the first and last entries, so the torque is the chord through them, between the two end torques |
| Vehicle.TableTorqueBetweenEnds | pointmass_circuit.py:65-79 | the lookup never extrapolates a slope: at every rpm the torque lies between the first and last tabulated torques |
| Vehicle.LookupMissesInteriorEntry | pointmass_accel.py:47-59 | on the acceleration run's table the lookup at 3000 rpm differs from the tabulated 30.26 Nm |
| Circuit.GearScan | pointmass_circuit.py:55-64 | the gear loop settles on the lowest gear whose rpm is below the upshift point, and its rpm; when none is, the last gear with its rpm clamped to the table's top |
| Circuit.IcEngine | pointmass_circuit.py:53-84 | the loop with its fall-through, the clamp and the lookup return exactly `EngineOf` |
| Circuit.EngineRpmInTable | pointmass_circuit.py:65-70 | the returned rpm lies between the first and last tabulated rpm, and the torque lies between the end torques |
| Circuit.EngineNeverRaisesVelocity | pointmass_circuit.py:83 | the returned velocity never exceeds the input; it is lower exactly when the gear would pass the table's top rpm, and then equals that rpm's wheel speed |
| Circuit.EngineKeepsVelocityNonneg | pointmass_circuit.py:53-84 | a non-negative velocity stays non-negative, and zero stays zero |
| Circuit.FrictionEllipse | pointmass_circuit.py:169-176 | the lateral force is at most the tyre limit and m·v²/r, the radicand is non-negative, and the two forces lie on the friction ellipse |
| Circuit.GripEllipse | pointmass_circuit.py:165-176 | on the tyre side alone, the normal load is positive, the lateral force is at most the tyre limit and m·v²/r, and the longitudinal limit completes the friction ellipse |
| Circuit.TractionLimits | pointmass_circuit.py:176-178 | the contact-patch force is the smaller of the friction limit and the engine force, and non-negative when the torque is |
| Circuit.NextFrame | pointmass_circuit.py:152-186 | the appended record is linked to its predecessor: time plus `dt`, trapezoidal length, distance plus length |
| Circuit.NextVelocityBounds | pointmass_circuit.py:180-184 | the new velocity is at most the corner speed and the integrated velocity, and non-negative when the engine pulls and one step of drag cannot reverse the car |
| Circuit.FirstKeyAbove | pointmass_circuit.py:167 | the scan finds the first radius entry whose key exceeds the distance, or none |
| Circuit.RadiusAtIsFirstAbove | pointmass_circuit.py:167 | the radius is that of the first entry whose key exceeds the distance, and absent (IndexError) exactly when no key does |
| Circuit.TimesAreSteps | pointmass_circuit.py:152 | along a linked trace starting at time 0, record k is stamped k·dt |
| Circuit.DistanceNondecreasing | pointmass_circuit.py:185-186 | with non-negative velocities the distance never decreases along a linked trace |
| Circuit.CorrectionOnlyLowers | pointmass_circuit.py:87-94 | the correction never raises the velocity, keeps it non-negative, and changes only `vel`, `len` and `dist`, recomputing the last two from the predecessor; linkage is kept |
| Circuit.Lap.constructor | pointmass_circuit.py:137-143 | the trace starts as the bootstrap record at rest at time and distance 0 |
| Circuit.Lap.CorrectFrame | pointmass_circuit.py:87-94 | `correct_frame(k)` rewrites record k as `Corrected` and no other record, never raising its velocity |
| Circuit.Lap.Step | pointmass_circuit.py:152-193 | one pass: the newest record is corrected; the pass finishes if it reached the lap length, fails with IndexError without a radius, and otherwise appends `NextFrame` built from the engine asked BEFORE the correction, finishing exactly when the new record reaches the lap length; the outcome and new trace are exactly `Pass` of the old trace |
| Circuit.Lap.Extend | pointmass_circuit.py:156-193 | after the correction: finished when the newest record reached the lap length, IndexError without a radius, otherwise exactly `NextFrame` appended, finishing exactly when it reaches the lap length |
| Circuit.Lap.Run | pointmass_circuit.py:147-193 | the outcome and trace are exactly `Passes` of the bootstrap record: pass after pass, each what `Step` does, stopping at the first that does not continue; every record but the newest lies short of the lap length, a finished run's newest record reaches it, and an unfinished run has one record per pass |
| Circuit.Lap.PassFacts | pointmass_circuit.py:152-193 | one pass keeps the older records short of the lap length, finishes only with the newest record at or past it, and continues only with exactly one more record still short of it |
| Circuit.Lap.PassesFacts | pointmass_circuit.py:147-193 | any number of passes from records short of the lap length keeps those three facts, with one record per pass while the run goes on |
| Circuit.Lap.PassesStopped | pointmass_circuit.py:157-158 | once a pass breaks out of the loop, further passes change neither outcome nor trace |
| Circuit.Lap.PassForward | pointmass_circuit.py:155-186 | a pass never leaves a record with a negative velocity |
| Circuit.CorrectNewestForward | pointmass_circuit.py:87-94 | correcting the newest record keeps every velocity non-negative and the record count |
| Accel.Scan | pointmass_accel.py:33-46 | the gear loop stops at the first gear below (or exactly at) the upshift point, with the input velocity; the top-rpm branch sets `v` to the clamped wheel speed; `v` stays unbound only when no branch setting it runs |
| Accel.AccelEngineOf | pointmass_accel.py:31-64 | on success the gear is one of the drivetrain's, the engine torque is the table's at the returned rpm, and the wheel torque is that torque through final drive and gear ratio |
| Accel.UnboundExactly | pointmass_accel.py:33-46 | `engine_stuff` fails exactly when every gear's rpm lies above the upshift point and within the table (the `continue` branch, the only one that leaves `v` unbound), and then with NameError |
| Accel.EngineStuff | pointmass_accel.py:31-64 | the four-branch loop and the lookup return exactly `AccelEngineOf` |
| Accel.StoppingGearKeepsVelocity | pointmass_accel.py:33-38 | when some gear is below the upshift point, the first such gear is chosen and the input velocity is returned unchanged |
| Accel.AccelVelocityNeverRaised | pointmass_accel.py:35-46 | with the upshift point at or above the table's top rpm, `v` is always bound and never exceeds the input |
| Accel.VelocityCanBeUnbound | pointmass_accel.py:42-43 | without that condition a one-gear drivetrain leaves `v` unbound (NameError) |
| Accel.NetForceCapped | pointmass_accel.py:134-138 | the net force is the smaller of grip and engine force less drag, so at most MU · normal force − drag |
| Accel.AdvanceOnlyLowersNewest | pointmass_accel.py:121-159 | a pass appends one row stamped k·DT, keeps all older rows, and changes the previously newest row in its velocity only, never raising it |
| Accel.AccelVelocityAtMostInput | pointmass_accel.py:35-46 | for any upshift point, a lookup that succeeds reports a velocity no greater than the input |
| Accel.AdvanceNeverRaisesNewest | pointmass_accel.py:121-125 | for any upshift point, a pass that succeeds never raises the previously newest row's velocity |
| Accel.PushAppendsRow | pointmass_accel.py:147-159 | appending one value to each column keeps the thirteen columns aligned and appends exactly that row |
| Accel.SetVelocityChangesOneRow | pointmass_accel.py:125 | overwriting the last stored velocity changes that row's velocity and nothing else |
| Accel.AccelRun.constructor | pointmass_accel.py:104-119 | the run starts with thirteen empty columns |
| Accel.AccelRun.DataFrame | pointmass_accel.py:8-22 | `data_frame(index)` is row `index` with Python's negative indexing, and IndexError exactly outside `-len <= index < len` |
| Accel.AccelRun.OverwriteNewestVelocity | pointmass_accel.py:125 | the rows change in the newest row's velocity only |
| Accel.AccelRun.AppendRow | pointmass_accel.py:147-159 | the rows gain exactly the new row, the columns stay aligned and row k stays stamped k·DT |
| Accel.AccelRun.Query | pointmass_accel.py:123-127 | the engine is asked at the newest velocity (at 0 before the first row) and that velocity is overwritten with the answer |
| Accel.AccelRun.AppendNext | pointmass_accel.py:128-159 | the appended row is `NewRow` built on the newest stored row (none before the first) and stamped with the pass number |
| Accel.AccelRun.Step | pointmass_accel.py:121-163 | one pass is `Advance`, with the NameError leaving the rows as they were; it finishes exactly when the new row is past the finish; the outcome and new rows are exactly `Pass` of the old rows |
| Accel.AccelRun.Run | pointmass_accel.py:119-163 | the outcome and rows are exactly `Passes` from no rows: pass after pass, each what `Step` does, stopping at the first that does not continue; the loop stops at the first row past the finish, no earlier row is past it, and an unfinished run has one row per pass |
| Accel.AdvanceKeepsPast | pointmass_accel.py:121-163 | a successful pass appends one row and leaves every older row's finish test as it was, since it only rewrites a velocity |
| Accel.PassesFacts | pointmass_accel.py:119-163 | passes from rows none of which is past the finish reach `Reached`: no row but the newest is past it, a finished run's newest row is, and a run still going has one row per pass |
| Dxf.Endpoints | dxf_to_track.py:12-32 | a LINE offers its drawn orientation tagged 0; an ARC offers start-to-end tagged −1 and the reverse tagged +1; any other entity gives `None` |
| Dxf.CandsMembers | dxf_to_track.py:45-46 | every scanned candidate is an orientation of a remaining entity, and there is one whenever entities remain |
| Dxf.NearestIsFirstMinimum | dxf_to_track.py:45-51 | the kept candidate's start is nearest to the track's end, and strictly nearer than every earlier candidate, so ties go to the earliest |
| Dxf.KeptSnoc | dxf_to_track.py:48-51 | a scanned candidate replaces the kept one exactly when it is strictly closer |
| Dxf.NormalizeAngle | dxf_to_track.py:55-59 | a raw sweep in (−360, 360) ends in [−180, 180]; one in [−180, 180] is unchanged; at most one full turn is added or taken away |
| Dxf.SectionOf | dxf_to_track.py:52-60 | the section keeps the chosen orientation's endpoints, is a line section exactly for a LINE, and keeps an arc's radius; an arc's angle differs from the oriented sweep by 0 or one full turn, equals it inside [−180, 180], and lies in [−180, 180] for any sweep of less than a full turn |
| Dxf.RemoveAt | dxf_to_track.py:61 | removing the chosen entity leaves one entity fewer, and the others as a multiset |
| Dxf.FirstLine | dxf_to_track.py:37 | the index of the first LINE, or none when there is no LINE |
| Dxf.ChainFromCounts | dxf_to_track.py:41-61 | each pass appends one section and removes one entity, so the loop ends with one section more per remaining entity, keeping those built; TypeError exactly when some other entity remains |
| Dxf.ChainCounts | dxf_to_track.py:37-61 | IndexError exactly without a LINE, TypeError exactly when there is a LINE and some other entity, otherwise one section per entity starting with the first LINE as drawn |
| Dxf.ScanNearest | dxf_to_track.py:42-51 | the nested scan with `td`, `tf`, `tq` returns the strictly nearest candidate, or TypeError on an entity of another kind |
| Dxf.BuildSections | dxf_to_track.py:37-61 | the chaining loop returns exactly `Chain` |
| Dxf.Fixed6 | dxf_to_track.py:67-69 | `%f` writes a whole number of millionths, at most half a millionth from the number |
| Dxf.WriteRows | dxf_to_track.py:64-69 | one row per section, in order: `straight` with the endpoint distance, or `turn` with radius and angle |
| Tck.BuildTracklist | dxf_to_tck.py:81-89 | one element per section, in order: a LINE becomes a straight of its endpoint distance, an ARC a turn with its radius and normalised angle |
| Tck.StepLensSum | dxf_to_tck.py:97-121 | a straight's steps sum to its length (none for a negative count), a turn's to radius · abs(radians(angle)) |
| Tck.AllStepsSum | dxf_to_tck.py:95-126 | the steps of a whole track list sum to the length its elements cover |
| Tck.TurnStep | dxf_to_tck.py:123 | one heading update keeps the heading a whole number of turns from the start plus the steps taken |
| Tck.StraightPoints | dxf_to_tck.py:99-105 | `n` equal step lengths and one point per step are appended, with the lists in lockstep |
| Tck.ArcStart | dxf_to_tck.py:111-119 | the angle to the centre is `atan(-1/tan(angle))`, or the right angle `atan(inf)` when the tangent is zero and the script catches ZeroDivisionError; the sign is +1 exactly when the sign of `sin(cangle)·cos(angle)` agrees with the turn's direction, and −1 otherwise |
| Tck.TurnPoints | dxf_to_tck.py:111-126 | `n` steps of abs(radius · dangle) and one point each are appended in lockstep; the heading ends in [0, 2π) and has turned by n · dangle up to whole turns |
| Tck.StraightSection | dxf_to_tck.py:97-105 | a straight appends exactly its step lengths, or ZeroDivisionError on a zero count |
| Tck.TurnSection | dxf_to_tck.py:107-126 | a turn appends exactly its step lengths with the heading in [0, 2π) and turned by the sweep up to whole turns, or ZeroDivisionError on a zero radius or count |
| Tck.Discretize | dxf_to_tck.py:91-126 | the lists start at the origin and length 0 and grow in lockstep; the step lengths are those of every element in order; ZeroDivisionError exactly when some element fails |
| Tck.Close | dxf_to_tck.py:128-140 | the closing segment adds one point fewer than its count and no step lengths; ZeroDivisionError exactly on a zero delta |
| Tck.ClosingBreaksLockstep | dxf_to_tck.py:128-143 | a gap of at least 1.5 steps leaves more points than step lengths |
| Tck.CumSumIsPrefixSums | dxf_to_tck.py:143 | each running total is the sum of the prefix it ends, and the last is the sum of all |
| Tck.TotalIsTrackLength | dxf_to_tck.py:142-155 | the last accumulated value, the one appended to the spline, is the length the track elements cover |
| Tck.DxfToTck | dxf_to_tck.py:54-155 | chaining errors propagate; otherwise ZeroDivisionError exactly when some element fails; on success the coordinate lists agree in length, there is one parameter per point without closing, and the total is the last parameter and the track length |
| TrackGen.ParseRows | track_gen.py:9-18 | the reading loop returns exactly `Parsed`: straights and turns in row order, other rows skipped, and the first bad row's IndexError or ValueError |
| TrackGen.ParsedStopsAt | track_gen.py:9-18 | the first row that fails decides the outcome of the whole table |
| TrackGen.RowsRoundTrip | track_gen.py:11-18 | the rows dxf_to_track.py writes parse back to the same kinds of element in the same order as dxf_to_tck.py's track list, each number after `%f` |
| TrackGen.RoundedIsClose | dxf_to_track.py:67-69 | rounding keeps the element's kind and moves each number by at most half a millionth |
| TrackGen.GenStraight | track_gen.py:24-31 | a straight appends round(length / 5) points, as many as its steps, or ZeroDivisionError on a zero count |
| TrackGen.GenTurn | track_gen.py:32-50 | a turn appends abs(round(radians(angle) / (5 / radius))) points; the heading ends in [0, 2π) and has turned by radians(angle) up to whole turns; ZeroDivisionError on a zero radius or count |
| TrackGen.ArcPoints | track_gen.py:36-50 | `n` points are appended round the circle, and the heading, reduced modulo 2π after every step, has turned by n · dangle |
| TrackGen.GenClose | track_gen.py:52-60 | the closing run appends round(gap / 5) points, none for a negative count, and raises ZeroDivisionError exactly when that count is 0 |
| TrackGen.ClosingFailsExactlyOnSmallGaps | track_gen.py:52-55 | the closing count is 0 exactly when the gap is at most 2.5, and it is never negative |
| TrackGen.GenTrack | track_gen.py:7-63 | parsing errors propagate and any step error is ZeroDivisionError; on success x and y have equal length, start at the origin, and hold 1 + all element steps + the closing count |

## Left out

- `get_radius` (pointmass_circuit.py:32-50) and `get_point`: the radius table is an input sequence, and the record's bootstrap radius is a constructor parameter. The spline positions `x`, `y` of each record are not modelled.
- The spline fit and evaluation (`splprep`/`splev`, dxf_to_tck.py:152-162) and testspline.py. These are foreign library calls; the model stops at the points, parameters and total that are handed to them.
- Trigonometry and square roots are oracle parameters (`Trig`, `sqrt`). Arc endpoints are given with each entity. Nothing about point coordinates is verified, only counts, step lengths, headings and order. A property that needs the square root to be one assumes `IsSqrt`.
- Floating point: every quantity is an exact real. `round` and `%f` are exact round-half-even on reals, and IEEE rounding of the arithmetic is not modelled.
- File and user I/O: ezdxf reading, argparse, the `.dxf` name check, `np.save`/`np.load`, opening and writing the CSV file, matplotlib plots, the progress bar, and the report prints and transposes. A CSV cell is a word or a number, so number formatting and `float` parsing beyond that are not modelled.
- Circuit.Lap.Run, Accel.AccelRun.Run: the scripts' `while True` loops run without a bound; the model runs at most `maxSteps` passes, and what it promises is `Passes` with that bound.
- Circuit.LapConfig: the lap simulator is verified for a time step short enough that one step of drag cannot reverse the car (`0.5 · rho · A · Cd · dt` at most the mass), which the script's defaults meet. A longer step is outside what Circuit.Lap.Step promises. It also asks that every finite curvature radius in the track file be positive (an infinite one is a straight): the file is loaded unchecked (pointmass_circuit.py:105), and the corner speed `sqrt(F_lat_tire_max / m · r)` and the lateral demand `m · v² / r` (lines 170-171) only have a meaning for r > 0. At r = 0 the script's numpy division gives an infinite demand and a zero corner speed, so the car can never advance, and a negative r gives `nan`; neither is modelled, and a track holding such a radius is outside what Circuit.Lap promises.
- Accel.AdvanceOnlyLowersNewest, Accel.AccelVelocityNeverRaised: that every pass succeeds is only proved when the upshift point is at or above the table's top rpm. Otherwise `v` can be unbound (Accel.VelocityCanBeUnbound), as the script itself allows; the velocity bound itself holds for every successful lookup and pass (Accel.AccelVelocityAtMostInput, Accel.AdvanceNeverRaisesNewest).
- Circuit.Lap.CorrectFrame: `correct_frame(0)` would read the empty placeholder record and raise KeyError. That path is unreachable, because the bootstrap record is at rest and is never lowered.
