/** The discretisation half of dxf_to_tck.py: the chained sections become a track list of
    straights and turns, each element is cut into steps of about `delta` (a point and a step
    length per step), an optional closing segment joins the last point to the first, and the
    step lengths are accumulated into the spline parameter whose last value is the track length.
    The spline fit itself is not part of this model; points are placed with trigonometric
    oracles whose values nothing here depends on. */
module Tck {
  import opened Common
  import opened Dxf

  /** Lines 81-89: a LINE section becomes a straight as long as its endpoints are apart, an ARC
      a turn with its radius and normalised sweep. */
  function TrackOf(sqrt: real -> real, s: Section): TrackSec
  {
    match s
    case LineSec(a, b) => Straight(Dist(sqrt, a, b))
    case ArcSec(_, _, radius, angle) => Turn(radius, angle)
  }

  /** Lines 81-89: the `tracklist` loop, one element per section in the same order. */
  method BuildTracklist(sqrt: real -> real, sections: seq<Section>) returns (tracklist: seq<TrackSec>)
    ensures |tracklist| == |sections|
    ensures forall k | 0 <= k < |sections| :: tracklist[k] == TrackOf(sqrt, sections[k])
  {
    tracklist := [];
    for k := 0 to |sections|
      invariant |tracklist| == k
      invariant forall j | 0 <= j < k :: tracklist[j] == TrackOf(sqrt, sections[j])
    {
      match sections[k]
      case LineSec(a, b) =>
        tracklist := tracklist + [Straight(Dist(sqrt, a, b))];
      case ArcSec(_, _, radius, angle) =>
        tracklist := tracklist + [Turn(radius, angle)];
    }
  }

  /** The step lengths a track element contributes (lines 98-101 and 108-121), or the
      ZeroDivisionError raised on the way: a zero `delta`, a zero radius, or a division count
      of zero. A straight with a negative count adds no steps. */
  function StepLens(s: TrackSec, delta: real): Result<seq<real>>
  {
    if delta == 0.0 then Err(ZeroDivisionError)
    else match s
      case Straight(length) =>
        var n := StraightDivs(length, delta);
        if n == 0 then Err(ZeroDivisionError)
        else Ok(Repeat(length / n as real, if n < 0 then 0 else n))
      case Turn(radius, angle) =>
        if radius == 0.0 then Err(ZeroDivisionError)
        else
          var n := TurnDivs(radius, angle, delta);
          if n == 0 then Err(ZeroDivisionError)
          else Ok(Repeat(ArcStep(radius, StepAngle(angle, n)), n))
  }

  /** Line 98: `round(length / delta)`. */
  function StraightDivs(length: real, delta: real): int
    requires delta != 0.0
  {
    Round(length / delta)
  }

  /** Lines 108-109: `abs(round(radians(angle) / (delta / radius)))`. */
  function TurnDivs(radius: real, angle: real, delta: real): nat
    requires delta != 0.0 && radius != 0.0
  {
    AbsInt(Round(Radians(angle) / (delta / radius)))
  }

  /** Line 121: the arc length of one step. */
  function ArcStep(radius: real, dangle: real): real
  {
    Abs(radius * dangle)
  }

  /** Line 110: the sweep of one step. */
  function StepAngle(angle: real, n: nat): real
    requires n > 0
  {
    Radians(angle) / n as real
  }

  /** The length a track element's steps cover: a straight's own length (nothing when its count
      is negative), a turn's arc length. */
  function Covered(s: TrackSec, delta: real): real
    requires delta != 0.0
  {
    match s
    case Straight(length) => if Round(length / delta) > 0 then length else 0.0
    case Turn(radius, angle) => Abs(radius * Radians(angle))
  }

  /** A straight's steps sum to its length, a turn's to radius times the absolute sweep. */
  lemma StepLensSum(s: TrackSec, delta: real)
    requires StepLens(s, delta).Ok?
    ensures delta != 0.0 && Sum(StepLens(s, delta).value) == Covered(s, delta)
  {
    match s
    case Straight(length) =>
      StraightStepsSum(length, StraightDivs(length, delta));
    case Turn(radius, angle) =>
      TurnStepsSum(radius, angle, TurnDivs(radius, angle, delta));
  }

  lemma TurnStepsSum(radius: real, angle: real, n: nat)
    requires n > 0
    ensures Sum(Repeat(ArcStep(radius, StepAngle(angle, n)), n)) == Abs(radius * Radians(angle))
  {
    var x := ArcStep(radius, StepAngle(angle, n));
    SumRepeat(x, n);
    CountTimesShare(radius, Radians(angle), n);
    assert x == Abs(radius * (Radians(angle) / n as real));
  }

  lemma StraightStepsSum(length: real, n: int)
    requires n != 0
    ensures Sum(Repeat(length / n as real, if n < 0 then 0 else n)) == if n > 0 then length else 0.0
  {
    SumRepeat(length / n as real, if n < 0 then 0 else n);
  }

  /** `n` equal shares of a sweep, each taken as an absolute arc length, add up to the whole. */
  lemma CountTimesShare(r: real, a: real, n: nat)
    requires n > 0
    ensures n as real * Abs(r * (a / n as real)) == Abs(r * a)
  {
    var k := n as real;
    assert r * (a / k) == (r * a) / k;
    assert k * ((r * a) / k) == r * a;
    if r * a < 0.0 {
      assert (r * a) / k < 0.0;
    } else {
      assert 0.0 <= (r * a) / k;
    }
  }

  /** The step lengths of a whole track list, or the first error. */
  function AllSteps(t: seq<TrackSec>, delta: real): Result<seq<real>>
  {
    if |t| == 0 then Ok([])
    else
      var pre := AllSteps(t[..|t| - 1], delta);
      var last := StepLens(t[|t| - 1], delta);
      if pre.Err? then pre
      else if last.Err? then last
      else Ok(pre.value + last.value)
  }

  /** The length the steps of a whole track list cover. */
  function TrackLength(t: seq<TrackSec>, delta: real): real
    requires delta != 0.0
  {
    if |t| == 0 then 0.0 else TrackLength(t[..|t| - 1], delta) + Covered(t[|t| - 1], delta)
  }

  /** The step lengths of a track list sum to the length its elements cover. */
  lemma {:induction false} AllStepsSum(t: seq<TrackSec>, delta: real)
    requires delta != 0.0 && AllSteps(t, delta).Ok?
    ensures Sum(AllSteps(t, delta).value) == TrackLength(t, delta)
  {
    if |t| > 0 {
      var n := |t| - 1;
      AllStepsSum(t[..n], delta);
      StepLensSum(t[n], delta);
      SumAppend(AllSteps(t[..n], delta).value, StepLens(t[n], delta).value);
    }
  }

  /** The heading differs from another by a whole number of full turns. */
  predicate WholeTurns(x: real)
  {
    (x / (2.0 * Pi)).Floor as real == x / (2.0 * Pi)
  }

  lemma TurnsAreWhole(x: real, z: int)
    requires x == z as real * (2.0 * Pi)
    ensures WholeTurns(x)
  {
    assert x / (2.0 * Pi) == z as real;
  }

  /** One more step of `dangle`, reduced modulo a full turn, keeps the heading a whole number
      of turns away from the start plus the steps taken. */
  lemma TurnStep(start: real, i: nat, dangle: real, prev: real, next: real, turns: int)
    requires start + i as real * dangle - prev == turns as real * (2.0 * Pi)
    requires next == FloorMod(prev + dangle, 2.0 * Pi)
    ensures start + (i + 1) as real * dangle - next
            == (turns + ((prev + dangle) / (2.0 * Pi)).Floor) as real * (2.0 * Pi)
  {
    var q := ((prev + dangle) / (2.0 * Pi)).Floor;
    assert prev + dangle - next == q as real * (2.0 * Pi);
    assert (i + 1) as real * dangle == i as real * dangle + dangle;
  }

  /** Lines 100-105: `n` steps of `dlen` along the heading (none when `n` is not positive). */
  method StraightPoints(trig: Trig, points: seq<Point>, lens: seq<real>, angle: real, dlen: real, n: int)
    returns (points': seq<Point>, lens': seq<real>)
    requires |points| == |lens| > 0
    ensures lens' == lens + Repeat(dlen, if n < 0 then 0 else n)
    ensures |points'| == |lens'|
    ensures points'[..|points|] == points
  {
    points', lens' := points, lens;
    var i := 0;
    while i < n
      invariant 0 <= i && (n >= 0 ==> i <= n) && (n < 0 ==> i == 0)
      invariant lens' == lens + Repeat(dlen, i)
      invariant |points'| == |lens'| && points'[..|points|] == points
    {
      lens' := lens' + [dlen];
      var p1 := points'[|points'| - 1];
      points' := points' + [Ahead(trig, p1, angle, dlen)];
      RepeatSnoc(dlen, i);
      i := i + 1;
    }
  }

  /** Lines 111-119: the angle towards the circle's centre (the right angle when the heading's
      tangent is zero and the script catches the ZeroDivisionError), the orientation sign, and
      the centre of the circle the turn follows. */
  method ArcStart(trig: Trig, p1: Point, angle: real, radius: real, dangle: real)
    returns (cangle: real, signCorr: real, cx: real, cy: real)
    ensures trig.tan(angle) == 0.0 ==> cangle == Pi / 2.0
    ensures trig.tan(angle) != 0.0 ==> cangle == trig.atan(-1.0 / trig.tan(angle))
    ensures signCorr == 1.0 || signCorr == -1.0
    ensures signCorr == 1.0 <==> ((trig.sin(cangle) * trig.cos(angle) >= 0.0) <==> (dangle >= 0.0))
  {
    if trig.tan(angle) == 0.0 {
      cangle := Pi / 2.0;
    } else {
      cangle := trig.atan(-1.0 / trig.tan(angle));
    }
    signCorr := (if trig.sin(cangle) * trig.cos(angle) >= 0.0 then 1.0 else -1.0)
                * (if dangle >= 0.0 then 1.0 else -1.0);
    cx := p1.x + signCorr * trig.cos(cangle) * radius;
    cy := p1.y + signCorr * trig.sin(cangle) * radius;
  }

  /** Lines 111-126: `n` steps of `dangle` round a circle of the given radius, starting at the
      newest point. Each step adds one step length and one point; the heading, reduced modulo
      a full turn after every step, ends in [0, 2 pi) and has turned by `n * dangle` up to whole
      turns. */
  method TurnPoints(trig: Trig, points: seq<Point>, lens: seq<real>, angle: real, radius: real,
                    dangle: real, n: nat)
    returns (points': seq<Point>, lens': seq<real>, angle': real)
    requires |points| == |lens| > 0
    ensures lens' == lens + Repeat(ArcStep(radius, dangle), n)
    ensures |points'| == |lens'|
    ensures points'[..|points|] == points
    ensures n > 0 ==> 0.0 <= angle' < 2.0 * Pi
    ensures WholeTurns(angle + n as real * dangle - angle')
  {
    var cangle, signCorr, cx, cy := ArcStart(trig, points[|points| - 1], angle, radius, dangle);
    points', lens', angle' := points, lens, angle;
    ghost var turns := 0;
    for i := 0 to n
      invariant lens' == lens + Repeat(ArcStep(radius, dangle), i)
      invariant |points'| == |lens'| && points'[..|points|] == points
      invariant i > 0 ==> 0.0 <= angle' < 2.0 * Pi
      invariant angle + i as real * dangle - angle' == turns as real * (2.0 * Pi)
    {
      lens' := lens' + [ArcStep(radius, dangle)];
      cangle := cangle + dangle;
      var next := FloorMod(angle' + dangle, 2.0 * Pi);
      TurnStep(angle, i, dangle, angle', next, turns);
      turns := turns + ((angle' + dangle) / (2.0 * Pi)).Floor;
      angle' := next;
      points' := points' + [OnArc(trig, cx, cy, signCorr, cangle, radius)];
      RepeatSnoc(ArcStep(radius, dangle), i);
    }
    TurnsAreWhole(angle + n as real * dangle - angle', turns);
  }

  /** Lines 98-105: a straight cut into `round(length / delta)` equal steps. */
  method StraightSection(trig: Trig, points: seq<Point>, lens: seq<real>, angle: real, length: real,
                         delta: real)
    returns (r: Result<(seq<Point>, seq<real>)>)
    requires |points| == |lens| > 0 && delta != 0.0
    ensures r.Ok? <==> StepLens(Straight(length), delta).Ok?
    ensures r.Ok? ==> && r.value.1 == lens + StepLens(Straight(length), delta).value
                      && |r.value.0| == |r.value.1|
                      && r.value.0[..|points|] == points
  {
    var numdiv := StraightDivs(length, delta);
    if numdiv == 0 {
      return Err(ZeroDivisionError);
    }
    var dlen := length / numdiv as real;
    var points', lens' := StraightPoints(trig, points, lens, angle, dlen, numdiv);
    return Ok((points', lens'));
  }

  /** Lines 108-126: a turn cut into `abs(round(radians(angle) / (delta / radius)))` equal
      steps; afterwards the heading lies in [0, 2 pi) and has turned by the sweep, up to whole
      turns. */
  method TurnSection(trig: Trig, points: seq<Point>, lens: seq<real>, angle: real, radius: real,
                     sweep: real, delta: real)
    returns (r: Result<(seq<Point>, seq<real>)>, angle': real)
    requires |points| == |lens| > 0 && delta != 0.0
    ensures r.Ok? <==> StepLens(Turn(radius, sweep), delta).Ok?
    ensures r.Ok? ==> && r.value.1 == lens + StepLens(Turn(radius, sweep), delta).value
                      && |r.value.0| == |r.value.1|
                      && r.value.0[..|points|] == points
                      && 0.0 <= angle' < 2.0 * Pi
                      && WholeTurns(angle + Radians(sweep) - angle')
  {
    angle' := angle;
    if radius == 0.0 {
      return Err(ZeroDivisionError), angle';
    }
    var numdiv := TurnDivs(radius, sweep, delta);
    if numdiv == 0 {
      return Err(ZeroDivisionError), angle';
    }
    var dangle := StepAngle(sweep, numdiv);
    var points', lens';
    points', lens', angle' := TurnPoints(trig, points, lens, angle, radius, dangle, numdiv);
    assert numdiv as real * dangle == Radians(sweep);
    assert StepLens(Turn(radius, sweep), delta) == Ok(Repeat(ArcStep(radius, dangle), numdiv));
    return Ok((points', lens')), angle';
  }

  /** Lines 91-126: the generation loop. The lists start at the origin and length 0, grow in
      lockstep, and the step lengths are exactly those of every element in order. */
  method Discretize(trig: Trig, tracklist: seq<TrackSec>, delta: real, angle0: real)
    returns (r: Result<(seq<Point>, seq<real>)>)
    ensures r.Ok? <==> AllSteps(tracklist, delta).Ok?
    ensures r.Err? ==> r.error == ZeroDivisionError
    ensures r.Ok? ==> && r.value.1 == [0.0] + AllSteps(tracklist, delta).value
                      && |r.value.0| == |r.value.1|
                      && r.value.0[0] == Point(0.0, 0.0)
  {
    var points := [Point(0.0, 0.0)];
    var lens := [0.0];
    var angle := angle0;
    for k := 0 to |tracklist|
      invariant AllSteps(tracklist[..k], delta).Ok?
      invariant lens == [0.0] + AllSteps(tracklist[..k], delta).value
      invariant |points| == |lens| && points[0] == Point(0.0, 0.0)
    {
      if delta == 0.0 {
        AllStepsErrs(tracklist, delta, k);
        return Err(ZeroDivisionError);
      }
      var sec := tracklist[k];
      var step: Result<(seq<Point>, seq<real>)>;
      match sec {
        case Straight(length) =>
          step := StraightSection(trig, points, lens, angle, length, delta);
        case Turn(radius, sweep) =>
          step, angle := TurnSection(trig, points, lens, angle, radius, sweep, delta);
      }
      if step.Err? {
        AllStepsErrs(tracklist, delta, k);
        return Err(ZeroDivisionError);
      }
      ghost var pre := AllSteps(tracklist[..k], delta).value;
      AllStepsSnoc(tracklist, delta, k);
      assert step.value.1 == [0.0] + (pre + StepLens(sec, delta).value);
      assert step.value.0[0] == step.value.0[..|points|][0];
      points, lens := step.value.0, step.value.1;
    }
    assert tracklist[..|tracklist|] == tracklist;
    return Ok((points, lens));
  }

  /** The step lengths of one more element come after those of the elements before it. */
  lemma AllStepsSnoc(t: seq<TrackSec>, delta: real, k: nat)
    requires k < |t| && AllSteps(t[..k], delta).Ok? && StepLens(t[k], delta).Ok?
    ensures AllSteps(t[..k + 1], delta) == Ok(AllSteps(t[..k], delta).value + StepLens(t[k], delta).value)
  {
    assert t[..k + 1][..k] == t[..k];
  }

  /** Once an element fails, so does the whole track list. */
  lemma AllStepsErrs(t: seq<TrackSec>, delta: real, k: nat)
    requires k < |t| && StepLens(t[k], delta).Err?
    ensures AllSteps(t, delta).Err?
    decreases |t|
  {
    if k < |t| - 1 {
      assert t[..|t| - 1][k] == t[k];
      AllStepsErrs(t[..|t| - 1], delta, k);
    }
  }

  /** Lines 128-140: the closing segment from the newest point back towards the first one. It
      adds `numdiv - 1` points and no step lengths. */
  method Close(sqrt: real -> real, trig: Trig, points: seq<Point>, delta: real) returns (r: Result<seq<Point>>)
    requires |points| > 0
    ensures r.Err? <==> delta == 0.0
    ensures r.Ok? ==> && |r.value| == |points| + ClosingExtra(sqrt, points, delta)
                      && r.value[..|points|] == points
  {
    var last := points[|points| - 1];
    var d := Dist(sqrt, last, points[0]);
    if delta == 0.0 {
      return Err(ZeroDivisionError);
    }
    var numdiv := Round(d / delta);
    var out := points;
    if numdiv != 0 {
      var dlen := d / numdiv as real;
      var angle := trig.atan2(points[0].y - last.y, points[0].x - last.x);
      var i := 0;
      while i < numdiv - 1
        invariant 0 <= i && (numdiv >= 1 ==> i <= numdiv - 1) && (numdiv < 1 ==> i == 0)
        invariant |out| == |points| + i && out[..|points|] == points
      {
        var p1 := out[|out| - 1];
        out := out + [Ahead(trig, p1, angle, dlen)];
        i := i + 1;
      }
    }
    return Ok(out);
  }

  /** How many points the closing segment adds: one fewer than its division count. */
  function ClosingExtra(sqrt: real -> real, points: seq<Point>, delta: real): nat
    requires |points| > 0 && delta != 0.0
  {
    var n := Round(Dist(sqrt, points[|points| - 1], points[0]) / delta);
    if n < 2 then 0 else n - 1
  }

  /** The closing segment leaves `points` longer than `lens` whenever the gap spans at least
      one and a half steps of `delta` (the count then rounds to two or more): the lockstep of
      the generation loop no longer holds. */
  lemma ClosingBreaksLockstep(sqrt: real -> real, points: seq<Point>, lens: seq<real>, delta: real)
    requires |points| == |lens| > 0 && 0.0 < delta
    requires 1.5 * delta <= Dist(sqrt, points[|points| - 1], points[0])
    ensures |points| + ClosingExtra(sqrt, points, delta) > |lens|
  {
    var d := Dist(sqrt, points[|points| - 1], points[0]);
    assert 1.5 <= d / delta by {
      DivLe(1.5 * delta, d, delta);
    }
  }

  /** `np.cumsum`: the running totals. */
  function CumSum(s: seq<real>): (c: seq<real>)
    ensures |c| == |s|
  {
    if |s| == 0 then [] else CumSum(s[..|s| - 1]) + [Sum(s)]
  }

  /** Each running total is the sum of the prefix it ends, so the last is the sum of all. */
  lemma {:induction false} CumSumIsPrefixSums(s: seq<real>)
    ensures forall k | 0 <= k < |s| :: CumSum(s)[k] == Sum(s[..k + 1])
    ensures |s| > 0 ==> CumSum(s)[|s| - 1] == Sum(s)
  {
    if |s| > 0 {
      var n := |s| - 1;
      CumSumIsPrefixSums(s[..n]);
      assert s[..n + 1] == s;
      forall k | 0 <= k < n
        ensures CumSum(s)[k] == Sum(s[..k + 1])
      {
        assert s[..n][..k + 1] == s[..k + 1];
      }
    }
  }

  /** The track list of some sections, element by element. */
  function Tracklist(sqrt: real -> real, sections: seq<Section>): (t: seq<TrackSec>)
    ensures |t| == |sections|
  {
    seq(|sections|, k requires 0 <= k < |sections| => TrackOf(sqrt, sections[k]))
  }

  /** The last accumulated step length, the value appended to the spline, is the length the
      track elements cover. */
  lemma TotalIsTrackLength(t: seq<TrackSec>, delta: real, lens: seq<real>)
    requires delta != 0.0 && AllSteps(t, delta).Ok? && lens == [0.0] + AllSteps(t, delta).value
    ensures CumSum(lens)[|lens| - 1] == TrackLength(t, delta)
  {
    CumSumIsPrefixSums(lens);
    AllStepsSum(t, delta);
    SumAppend([0.0], AllSteps(t, delta).value);
    assert Sum([0.0]) == 0.0 by {
      assert [0.0][..0] == [];
    }
  }

  /** What the script fits the spline to and saves: the coordinates, the accumulated step
      lengths and the total appended to the spline description (lines 142-155). */
  datatype Output = Output(xs: seq<real>, ys: seq<real>, u: seq<real>, total: real)

  /** The whole script after reading the drawing: chain, map, discretise, optionally close,
      accumulate. The total is the length the track elements cover, and without the closing
      segment there is one parameter value per point. */
  method DxfToTck(sqrt: real -> real, trig: Trig, entities: seq<Entity>, delta: real, angle0: real,
                  closed: bool)
    returns (r: Result<Output>)
    ensures Chain(sqrt, entities).Err? ==> r == Err(Chain(sqrt, entities).error)
    ensures Chain(sqrt, entities).Ok? ==>
              (r.Err? <==> AllSteps(Tracklist(sqrt, Chain(sqrt, entities).value), delta).Err?)
    ensures r.Err? && Chain(sqrt, entities).Ok? ==> r.error == ZeroDivisionError
    ensures r.Ok? ==>
      && Chain(sqrt, entities).Ok?
      && delta != 0.0
      && |r.value.xs| == |r.value.ys| >= |r.value.u| > 0
      && (!closed ==> |r.value.xs| == |r.value.u|)
      && r.value.total == r.value.u[|r.value.u| - 1]
      && r.value.total == TrackLength(Tracklist(sqrt, Chain(sqrt, entities).value), delta)
  {
    var sections := BuildSections(sqrt, entities);
    if sections.Err? {
      return Err(sections.error);
    }
    var tracklist := BuildTracklist(sqrt, sections.value);
    var gen := Discretize(trig, tracklist, delta, angle0);
    assert tracklist == Tracklist(sqrt, sections.value);
    if gen.Err? {
      return Err(gen.error);
    }
    var (points, lens) := gen.value;
    ChainCounts(sqrt, entities);
    assert delta != 0.0 by {
      if delta == 0.0 {
        AllStepsErrs(tracklist, delta, 0);
      }
    }
    if closed {
      var c := Close(sqrt, trig, points, delta);
      if c.Err? {
        // the closing segment fails only on a zero delta, which the generation loop already refused
        assert false;
      }
      points := c.value;
    }
    var xs := seq(|points|, k requires 0 <= k < |points| => points[k].x);
    var ys := seq(|points|, k requires 0 <= k < |points| => points[k].y);
    var u := CumSum(lens);
    TotalIsTrackLength(tracklist, delta, lens);
    assert tracklist == Tracklist(sqrt, sections.value);
    return Ok(Output(xs, ys, u, u[|u| - 1]));
  }
}
