/** track_gen.py's `gen_track`: read straight and turn rows from a table, cut each element into
    steps of about 5 units, place a point per step, and close the loop with a straight run
    back towards the origin. The points are placed with trigonometric oracles; what is verified
    is the parsing, the counting and the heading. */
module TrackGen {
  import opened Common
  import opened Dxf
  import opened Tck

  /** `dd`: the target step length. */
  const DD: real := 5.0

  /** Lines 12-18: the element one row describes, `None` for a row of another kind, or the
      error raised on the way: IndexError for a missing cell, ValueError for a cell `float`
      refuses. */
  function ParseRow(row: CsvRow): Result<Option<TrackSec>>
  {
    var c := row.cells;
    if |c| == 0 then Err(IndexError)
    else if c[0] == Word("straight") then
      if |c| < 2 then Err(IndexError)
      else if c[1].Word? then Err(ValueError)
      else Ok(Some(Straight(c[1].value)))
    else if c[0] == Word("turn") then
      if |c| < 2 then Err(IndexError)
      else if c[1].Word? then Err(ValueError)
      else if |c| < 3 then Err(IndexError)
      else if c[2].Word? then Err(ValueError)
      else Ok(Some(Turn(c[1].value, c[2].value)))
    else Ok(None)
  }

  /** The track list of a whole table, or the error of its first bad row. */
  function Parsed(rows: seq<CsvRow>): Result<seq<TrackSec>>
  {
    if |rows| == 0 then Ok([])
    else
      var pre := Parsed(rows[..|rows| - 1]);
      var last := ParseRow(rows[|rows| - 1]);
      if pre.Err? then pre
      else if last.Err? then Err(last.error)
      else if last.value.None? then pre
      else Ok(pre.value + [last.value.value])
  }

  /** Lines 9-18: the reading loop. */
  method ParseRows(rows: seq<CsvRow>) returns (r: Result<seq<TrackSec>>)
    ensures r == Parsed(rows)
  {
    var tracklist := [];
    for k := 0 to |rows|
      invariant Parsed(rows[..k]) == Ok(tracklist)
    {
      assert rows[..k + 1][..k] == rows[..k];
      if ParseRow(rows[k]).Err? {
        ParsedStopsAt(rows, k);
      }
      var c := rows[k].cells;
      if |c| == 0 {
        return Err(IndexError);
      }
      if c[0] == Word("straight") {
        if |c| < 2 {
          return Err(IndexError);
        }
        if c[1].Word? {
          return Err(ValueError);
        }
        tracklist := tracklist + [Straight(c[1].value)];
      } else if c[0] == Word("turn") {
        if |c| < 2 {
          return Err(IndexError);
        }
        if c[1].Word? {
          return Err(ValueError);
        }
        if |c| < 3 {
          return Err(IndexError);
        }
        if c[2].Word? {
          return Err(ValueError);
        }
        tracklist := tracklist + [Turn(c[1].value, c[2].value)];
      }
    }
    assert rows[..|rows|] == rows;
    return Ok(tracklist);
  }

  /** The first bad row decides the outcome of the whole table. */
  lemma ParsedStopsAt(rows: seq<CsvRow>, k: nat)
    requires k < |rows| && Parsed(rows[..k]).Ok? && ParseRow(rows[k]).Err?
    ensures Parsed(rows) == Err(ParseRow(rows[k]).error)
  {
    assert rows[..k + 1][..k] == rows[..k];
    ParsedKeepsError(rows, k + 1);
  }

  lemma {:induction false} ParsedKeepsError(rows: seq<CsvRow>, m: nat)
    requires m <= |rows| && Parsed(rows[..m]).Err?
    ensures Parsed(rows) == Parsed(rows[..m])
    decreases |rows| - m
  {
    if m < |rows| {
      assert rows[..m + 1][..m] == rows[..m];
      ParsedKeepsError(rows, m + 1);
    } else {
      assert rows[..m] == rows;
    }
  }

  /** An element as it reads back after `%f` wrote its numbers. */
  function Rounded(t: TrackSec): TrackSec
  {
    match t
    case Straight(length) => Straight(Fixed6(length))
    case Turn(radius, angle) => Turn(Fixed6(radius), Fixed6(angle))
  }

  /** The rows dxf_to_track.py writes read back as the same kinds of element in the same order
      as dxf_to_tck.py's track list, each number within half a millionth of the original. */
  lemma {:induction false} RowsRoundTrip(sqrt: real -> real, sections: seq<Section>, rows: seq<CsvRow>)
    requires |rows| == |sections|
    requires forall k | 0 <= k < |sections| :: rows[k] == SectionRow(sqrt, sections[k])
    ensures Parsed(rows).Ok?
    ensures |Parsed(rows).value| == |sections|
    ensures forall k | 0 <= k < |sections| ::
              Parsed(rows).value[k] == Rounded(TrackOf(sqrt, sections[k]))
  {
    if |rows| > 0 {
      var n := |rows| - 1;
      RowsRoundTrip(sqrt, sections[..n], rows[..n]);
      var pre := Parsed(rows[..n]).value;
      assert ParseRow(rows[n]) == Ok(Some(Rounded(TrackOf(sqrt, sections[n]))));
      assert Parsed(rows).value == pre + [Rounded(TrackOf(sqrt, sections[n]))];
    }
  }

  /** Rounding to six decimals moves each number by at most half a millionth. */
  lemma RoundedIsClose(t: TrackSec)
    ensures Rounded(t).Straight? <==> t.Straight?
    ensures t.Straight? ==> Abs(Rounded(t).length - t.length) <= 0.0000005
    ensures t.Turn? ==> && Abs(Rounded(t).radius - t.radius) <= 0.0000005
                        && Abs(Rounded(t).angle - t.angle) <= 0.0000005
  {
  }

  /** Lines 25-31: a straight cut into `round(length / 5)` steps along the heading. */
  method GenStraight(trig: Trig, points: seq<Point>, angle: real, length: real) returns (r: Result<seq<Point>>)
    requires |points| > 0
    ensures r.Ok? <==> StepLens(Straight(length), DD).Ok?
    ensures r.Ok? ==> && |r.value| == |points| + |StepLens(Straight(length), DD).value|
                      && r.value[..|points|] == points
  {
    var numdiv := Round(length / DD);
    if numdiv == 0 {
      return Err(ZeroDivisionError);
    }
    var dlen := length / numdiv as real;
    var out := points;
    var i := 0;
    while i < numdiv
      invariant 0 <= i && (numdiv >= 0 ==> i <= numdiv) && (numdiv < 0 ==> i == 0)
      invariant |out| == |points| + i && out[..|points|] == points
    {
      var p1 := out[|out| - 1];
      out := out + [Ahead(trig, p1, angle, dlen)];
      i := i + 1;
    }
    assert StraightDivs(length, DD) == numdiv;
    return Ok(out);
  }

  /** Lines 33-50: a turn cut into `abs(round(radians(angle) / (5 / radius)))` steps round its
      circle; afterwards the heading lies in [0, 2 pi) and has turned by the sweep, up to whole
      turns. */
  method GenTurn(trig: Trig, points: seq<Point>, angle: real, radius: real, sweep: real)
    returns (r: Result<seq<Point>>, angle': real)
    requires |points| > 0
    ensures r.Ok? <==> StepLens(Turn(radius, sweep), DD).Ok?
    ensures r.Ok? ==> && |r.value| == |points| + |StepLens(Turn(radius, sweep), DD).value|
                      && r.value[..|points|] == points
                      && 0.0 <= angle' < 2.0 * Pi
                      && WholeTurns(angle + Radians(sweep) - angle')
  {
    angle' := angle;
    if radius == 0.0 {
      return Err(ZeroDivisionError), angle';
    }
    var numdiv := TurnDivs(radius, sweep, DD);
    if numdiv == 0 {
      return Err(ZeroDivisionError), angle';
    }
    var dangle := StepAngle(sweep, numdiv);
    var out;
    out, angle' := ArcPoints(trig, points, angle, radius, dangle, numdiv);
    assert numdiv as real * dangle == Radians(sweep);
    return Ok(out), angle';
  }

  /** Lines 36-50: `n` points round the turn's circle, each placed before the heading advances
      by `dangle` and is reduced modulo a full turn. */
  method ArcPoints(trig: Trig, points: seq<Point>, angle: real, radius: real, dangle: real, n: nat)
    returns (out: seq<Point>, angle': real)
    requires |points| > 0
    ensures |out| == |points| + n && out[..|points|] == points
    ensures n > 0 ==> 0.0 <= angle' < 2.0 * Pi
    ensures WholeTurns(angle + n as real * dangle - angle')
  {
    var cangle, signCorr, cx, cy := ArcStart(trig, points[|points| - 1], angle, radius, dangle);
    out, angle' := points, angle;
    ghost var turns := 0;
    for i := 0 to n
      invariant |out| == |points| + i && out[..|points|] == points
      invariant i > 0 ==> 0.0 <= angle' < 2.0 * Pi
      invariant angle + i as real * dangle - angle' == turns as real * (2.0 * Pi)
    {
      out := out + [OnArc(trig, cx, cy, signCorr, cangle, radius)];
      cangle := cangle + dangle;
      var next := FloorMod(angle' + dangle, 2.0 * Pi);
      TurnStep(angle, i, dangle, angle', next, turns);
      turns := turns + ((angle' + dangle) / (2.0 * Pi)).Floor;
      angle' := next;
    }
    TurnsAreWhole(angle + n as real * dangle - angle', turns);
  }

  /** How many points the closing run adds: `round(dist / 5)`, none when that is negative. */
  function ClosingDivs(sqrt: real -> real, last: Point, first: Point): int
  {
    Round(Dist(sqrt, last, first) / DD)
  }

  /** Lines 52-60: the closing run of the gap between the newest point and the first, taken
      along the heading the last element left; ZeroDivisionError when its division count is
      zero. */
  method GenClose(sqrt: real -> real, trig: Trig, points: seq<Point>, angle: real) returns (r: Result<seq<Point>>)
    requires |points| > 0
    ensures r.Err? <==> ClosingDivs(sqrt, points[|points| - 1], points[0]) == 0
    ensures r.Ok? ==> var n := ClosingDivs(sqrt, points[|points| - 1], points[0]);
                      && |r.value| == |points| + Nonneg(n)
                      && r.value[..|points|] == points
  {
    var last := points[|points| - 1];
    var d := Dist(sqrt, last, points[0]);
    var numdiv := Round(d / DD);
    if numdiv == 0 {
      return Err(ZeroDivisionError);
    }
    var dlen := d / numdiv as real;
    var out := points;
    var i := 0;
    while i < numdiv
      invariant 0 <= i && (numdiv >= 0 ==> i <= numdiv) && (numdiv < 0 ==> i == 0)
      invariant |out| == |points| + i && out[..|points|] == points
    {
      var p1 := out[|out| - 1];
      out := out + [Ahead(trig, p1, angle, dlen)];
      i := i + 1;
    }
    return Ok(out);
  }

  /** At most 2.5 units of gap (ties rounding to even, so 2.5 itself included) give a closing
      count of zero and so the ZeroDivisionError; any larger gap gives at least one step. */
  lemma ClosingFailsExactlyOnSmallGaps(sqrt: real -> real, last: Point, first: Point)
    requires IsSqrt(sqrt)
    ensures ClosingDivs(sqrt, last, first) == 0 <==> Dist(sqrt, last, first) <= 2.5
    ensures ClosingDivs(sqrt, last, first) >= 0
  {
    DistIsAMetricBase(sqrt, last, first);
  }

  /** Lines 7-63: `gen_track` after the table is read. Points start at the origin; each element
      adds one point per step of it, the closing run `round(gap / 5)` more, and both coordinate
      lists have that length. */
  method GenTrack(sqrt: real -> real, trig: Trig, rows: seq<CsvRow>) returns (r: Result<(seq<real>, seq<real>)>)
    ensures Parsed(rows).Err? ==> r == Err(Parsed(rows).error)
    ensures Parsed(rows).Ok? && AllSteps(Parsed(rows).value, DD).Err? ==> r == Err(ZeroDivisionError)
    ensures r.Err? && Parsed(rows).Ok? ==> r.error == ZeroDivisionError
    ensures r.Ok? ==>
      && Parsed(rows).Ok? && AllSteps(Parsed(rows).value, DD).Ok?
      && var n := |AllSteps(Parsed(rows).value, DD).value|;
         var (x, y) := r.value;
         && |x| == |y| && n < |x|
         && x[0] == 0.0 && y[0] == 0.0
         && ClosingDivs(sqrt, Point(x[n], y[n]), Point(0.0, 0.0)) != 0
         && |x| == 1 + n + Nonneg(ClosingDivs(sqrt, Point(x[n], y[n]), Point(0.0, 0.0)))
  {
    var parsed := ParseRows(rows);
    if parsed.Err? {
      return Err(parsed.error);
    }
    var tracklist := parsed.value;
    var points := [Point(0.0, 0.0)];
    var angle := 0.0 * Pi;
    for k := 0 to |tracklist|
      invariant AllSteps(tracklist[..k], DD).Ok?
      invariant |points| == 1 + |AllSteps(tracklist[..k], DD).value|
      invariant points[0] == Point(0.0, 0.0)
    {
      var sec := tracklist[k];
      var step: Result<seq<Point>>;
      match sec {
        case Straight(length) =>
          step := GenStraight(trig, points, angle, length);
        case Turn(radius, sweep) =>
          step, angle := GenTurn(trig, points, angle, radius, sweep);
      }
      if step.Err? {
        AllStepsErrs(tracklist, DD, k);
        return Err(ZeroDivisionError);
      }
      AllStepsSnoc(tracklist, DD, k);
      assert step.value[0] == step.value[..|points|][0];
      points := step.value;
    }
    assert tracklist[..|tracklist|] == tracklist;
    ghost var before := points;
    var closed := GenClose(sqrt, trig, points, angle);
    if closed.Err? {
      return Err(ZeroDivisionError);
    }
    points := closed.value;
    var x := seq(|points|, k requires 0 <= k < |points| => points[k].x);
    var y := seq(|points|, k requires 0 <= k < |points| => points[k].y);
    ghost var n := |before| - 1;
    assert points[n] == before[n] && points[0] == before[0];
    assert Point(x[n], y[n]) == before[|before| - 1];
    return Ok((x, y));
  }

  /** A count as `range` uses it: a negative one runs no step. */
  function Nonneg(n: int): (m: nat)
    ensures n >= 0 ==> m == n
    ensures n < 0 ==> m == 0
  {
    if n < 0 then 0 else n
  }
}
