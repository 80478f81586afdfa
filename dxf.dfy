/** Chaining the LINE and ARC entities of a drawing into one ordered track (the loop shared by
    dxf_to_track.py and dxf_to_tck.py) and writing the chained sections as CSV rows.
    Arc endpoints come from trigonometry in the scripts; here every entity carries its endpoints
    already, so only the choice, order and counting logic is modelled. */
module Dxf {
  import opened Common

  /** A drawing entity: a LINE from `start` to `end`; an ARC of some radius between two angles
      in degrees, whose boundary points at the start and end angle are `first` and `last`; or
      any other kind of entity. */
  datatype Entity =
    | Line(start: Point, end: Point)
    | Arc(radius: real, startAngle: real, endAngle: real, first: Point, last: Point)
    | Other

  /** One way to traverse an entity, from `start` to `end`. The tag is 0 for a line, -1 for an
      arc taken from its start angle to its end angle, +1 for an arc taken backwards. */
  datatype Candidate = Candidate(start: Point, end: Point, tag: int)

  /** A chained section: the orientation chosen, and for an arc its radius and signed sweep. */
  datatype Section =
    | LineSec(start: Point, end: Point)
    | ArcSec(start: Point, end: Point, radius: real, angle: real)

  /** `endpoints`: a line offers its drawn orientation only, an arc both orientations; any other
      entity gives `None`, which the scan then fails to iterate. */
  function Endpoints(e: Entity): (r: Option<seq<Candidate>>)
    ensures r.None? <==> e.Other?
    ensures e.Line? ==> r.value == [Candidate(e.start, e.end, 0)]
    ensures e.Arc? ==> && |r.value| == 2
                       && r.value[0] == Candidate(e.first, e.last, -1)
                       && r.value[1] == Candidate(r.value[0].end, r.value[0].start, 1)
  {
    match e
    case Line(s, t) => Some([Candidate(s, t, 0)])
    case Arc(_, _, _, p, q) => Some([Candidate(p, q, -1), Candidate(q, p, 1)])
    case Other => None
  }

  /** The candidates an entity contributes to the scan (none for an entity the scan fails on). */
  function Offers(e: Entity): seq<Candidate>
  {
    if e.Other? then [] else Endpoints(e).value
  }

  predicate HasOther(ms: seq<Entity>)
  {
    exists k | 0 <= k < |ms| :: ms[k].Other?
  }

  /** A candidate together with the position of its entity in the remaining list. */
  datatype Choice = Choice(entity: nat, cand: Candidate)

  function Tag(k: nat, cs: seq<Candidate>): (r: seq<Choice>)
    ensures |r| == |cs|
    ensures forall j | 0 <= j < |cs| :: r[j] == Choice(k, cs[j])
  {
    seq(|cs|, j requires 0 <= j < |cs| => Choice(k, cs[j]))
  }

  /** Every candidate of the remaining entities, in the order the nested scan visits them. */
  function Cands(ms: seq<Entity>): seq<Choice>
  {
    if |ms| == 0 then [] else Cands(ms[..|ms| - 1]) + Tag(|ms| - 1, Offers(ms[|ms| - 1]))
  }

  /** Each candidate names a remaining entity and is one of that entity's orientations; there
      is at least one when some entity remains and all are lines or arcs. */
  lemma {:induction false} CandsMembers(ms: seq<Entity>)
    ensures forall c | c in Cands(ms) :: c.entity < |ms| && c.cand in Offers(ms[c.entity])
    ensures |ms| > 0 && !HasOther(ms) ==> |Cands(ms)| > 0
  {
    if |ms| > 0 {
      var n := |ms| - 1;
      CandsMembers(ms[..n]);
      assert forall c | c in Cands(ms[..n]) :: ms[..n][c.entity] == ms[c.entity];
      assert !ms[n].Other? ==> |Offers(ms[n])| > 0;
    }
  }

  /** The candidates of one more entity come after those of the ones before it. */
  lemma CandsSnoc(ms: seq<Entity>, k: nat)
    requires k < |ms|
    ensures Cands(ms[..k + 1]) == Cands(ms[..k]) + Tag(k, Offers(ms[k]))
  {
    assert ms[..k + 1][..k] == ms[..k];
  }

  /** The distance from a candidate's start to the point the track has reached. */
  function Gap(sqrt: real -> real, c: Choice, to: Point): real
  {
    Dist(sqrt, c.cand.start, to)
  }

  /** The candidate the scan keeps: a later one replaces the kept one only when strictly closer. */
  function NearestIndex(sqrt: real -> real, cs: seq<Choice>, to: Point): (j: nat)
    requires |cs| > 0
    ensures j < |cs|
    decreases |cs|
  {
    if |cs| == 1 then 0
    else
      var n := |cs| - 1;
      var b := NearestIndex(sqrt, cs[..n], to);
      if Gap(sqrt, cs[n], to) < Gap(sqrt, cs[b], to) then n else b
  }

  /** The kept candidate is a nearest one, and strictly nearer than every earlier one: ties go
      to the first candidate scanned. */
  lemma {:induction false} NearestIsFirstMinimum(sqrt: real -> real, cs: seq<Choice>, to: Point)
    requires |cs| > 0
    ensures var j := NearestIndex(sqrt, cs, to);
      && (forall l | 0 <= l < |cs| :: Gap(sqrt, cs[j], to) <= Gap(sqrt, cs[l], to))
      && (forall l | 0 <= l < j :: Gap(sqrt, cs[j], to) < Gap(sqrt, cs[l], to))
    decreases |cs|
  {
    if |cs| > 1 {
      var n := |cs| - 1;
      NearestIsFirstMinimum(sqrt, cs[..n], to);
      assert forall l | 0 <= l < n :: cs[..n][l] == cs[l];
    }
  }

  /** The kept candidate of the scanned prefix, if any. */
  function Kept(sqrt: real -> real, seen: seq<Choice>, to: Point): Option<Choice>
  {
    if |seen| == 0 then None else Some(seen[NearestIndex(sqrt, seen, to)])
  }

  /** Scanning one more candidate keeps the old choice unless the new one is strictly closer. */
  lemma KeptSnoc(sqrt: real -> real, seen: seq<Choice>, c: Choice, to: Point)
    ensures Kept(sqrt, seen + [c], to) ==
      var k := Kept(sqrt, seen, to);
      if k.None? || Gap(sqrt, c, to) < Gap(sqrt, k.value, to) then Some(c) else k
  {
    if |seen| > 0 {
      assert (seen + [c])[..|seen|] == seen;
    }
  }

  /** Lines 55-59 of dxf_to_track.py: one correction by a full turn each way. */
  function NormalizeAngle(a: real): (r: real)
    ensures -360.0 < a < 360.0 ==> -180.0 <= r <= 180.0
    ensures -180.0 <= a <= 180.0 ==> r == a
    ensures r == a || r == a + 360.0 || r == a - 360.0
  {
    var b := if a < -180.0 then a + 360.0 else a;
    if b > 180.0 then b - 360.0 else b
  }

  /** The section a chosen candidate of an entity becomes. */
  function SectionOf(e: Entity, c: Candidate): (s: Section)
    requires !e.Other?
    ensures s.start == c.start && s.end == c.end
    ensures s.LineSec? <==> e.Line?
    ensures s.ArcSec? ==> s.radius == e.radius
    ensures s.ArcSec? && -360.0 < Sweep(e, c.tag) < 360.0 ==> -180.0 <= s.angle <= 180.0
    ensures s.ArcSec? && -180.0 <= Sweep(e, c.tag) <= 180.0 ==> s.angle == Sweep(e, c.tag)
    ensures s.ArcSec? ==> s.angle - Sweep(e, c.tag) in {-360.0, 0.0, 360.0}
  {
    if e.Line? then LineSec(c.start, c.end)
    else ArcSec(c.start, c.end, e.radius, NormalizeAngle(Sweep(e, c.tag)))
  }

  /** Line 55 of dxf_to_track.py: the orientation tag times start angle minus end angle. */
  function Sweep(e: Entity, tag: int): real
    requires e.Arc?
  {
    tag as real * (e.startAngle - e.endAngle)
  }

  function RemoveAt(ms: seq<Entity>, k: nat): (r: seq<Entity>)
    requires k < |ms|
    ensures |r| == |ms| - 1
    ensures multiset(r) + multiset{ms[k]} == multiset(ms)
  {
    assert ms == ms[..k] + [ms[k]] + ms[k + 1..];
    ms[..k] + ms[k + 1..]
  }

  /** The chaining loop from some remaining entities and sections built so far. */
  function ChainFrom(sqrt: real -> real, ms: seq<Entity>, sections: seq<Section>): Result<seq<Section>>
    requires |sections| > 0
    decreases |ms|
  {
    if |ms| == 0 then Ok(sections)
    else if HasOther(ms) then Err(TypeError)
    else
      CandsMembers(ms);
      var cs := Cands(ms);
      var ch := cs[NearestIndex(sqrt, cs, sections[|sections| - 1].end)];
      ChainFrom(sqrt, RemoveAt(ms, ch.entity), sections + [SectionOf(ms[ch.entity], ch.cand)])
  }

  function FirstLine(ms: seq<Entity>): (r: Option<nat>)
    ensures r.None? <==> forall k | 0 <= k < |ms| :: !ms[k].Line?
    ensures r.Some? ==> r.value < |ms| && ms[r.value].Line?
                        && forall k | 0 <= k < r.value :: !ms[k].Line?
  {
    if |ms| == 0 then None
    else if ms[0].Line? then Some(0)
    else
      var r := FirstLine(ms[1..]);
      assert forall k | 1 <= k < |ms| :: ms[k] == ms[1..][k - 1];
      if r.None? then None else Some(r.value + 1)
  }

  /** The whole chaining: start from the first LINE, then repeatedly take the nearest start. */
  function Chain(sqrt: real -> real, entities: seq<Entity>): Result<seq<Section>>
  {
    match FirstLine(entities)
    case None => Err(IndexError)
    case Some(k) =>
      var e := entities[k];
      ChainFrom(sqrt, RemoveAt(entities, k), [LineSec(e.start, e.end)])
  }

  lemma RemoveKeepsKinds(ms: seq<Entity>, k: nat)
    requires k < |ms| && !HasOther(ms)
    ensures !HasOther(RemoveAt(ms, k))
  {
    var rest := RemoveAt(ms, k);
    forall j | 0 <= j < |rest|
      ensures !rest[j].Other?
    {
      assert rest[j] in multiset(rest);
      assert rest[j] in multiset(ms);
    }
  }

  /** Each pass removes one entity and appends one section, so a finished chain has one
      section per remaining entity after those it started with; it fails exactly when some
      remaining entity is neither a line nor an arc. */
  lemma {:induction false} ChainFromCounts(sqrt: real -> real, ms: seq<Entity>, sections: seq<Section>)
    requires |sections| > 0
    ensures ChainFrom(sqrt, ms, sections).Err? <==> HasOther(ms)
    ensures ChainFrom(sqrt, ms, sections).Err? ==> ChainFrom(sqrt, ms, sections).error == TypeError
    ensures ChainFrom(sqrt, ms, sections).Ok? ==>
              && |ChainFrom(sqrt, ms, sections).value| == |sections| + |ms|
              && ChainFrom(sqrt, ms, sections).value[..|sections|] == sections
    decreases |ms|
  {
    if |ms| > 0 && !HasOther(ms) {
      CandsMembers(ms);
      var cs := Cands(ms);
      var ch := cs[NearestIndex(sqrt, cs, sections[|sections| - 1].end)];
      assert ch in cs;
      var rest := RemoveAt(ms, ch.entity);
      RemoveKeepsKinds(ms, ch.entity);
      var next := sections + [SectionOf(ms[ch.entity], ch.cand)];
      assert ChainFrom(sqrt, ms, sections) == ChainFrom(sqrt, rest, next);
      ChainFromCounts(sqrt, rest, next);
      assert next[..|sections|] == sections;
    }
  }

  /** Lines 37-61 of dxf_to_track.py: IndexError without any LINE, TypeError when some other
      entity is present, and otherwise one section per entity, the first being the first LINE
      in its drawn orientation. */
  lemma ChainCounts(sqrt: real -> real, entities: seq<Entity>)
    ensures Chain(sqrt, entities) == Err(IndexError) <==> forall k | 0 <= k < |entities| :: !entities[k].Line?
    ensures Chain(sqrt, entities) == Err(TypeError) <==>
              (exists k | 0 <= k < |entities| :: entities[k].Line?) && HasOther(entities)
    ensures Chain(sqrt, entities).Ok? ==>
              && |Chain(sqrt, entities).value| == |entities|
              && var k := FirstLine(entities).value;
                 Chain(sqrt, entities).value[0] == LineSec(entities[k].start, entities[k].end)
  {
    var f := FirstLine(entities);
    if f.Some? {
      var k := f.value;
      var e := entities[k];
      var rest := RemoveAt(entities, k);
      ChainFromCounts(sqrt, rest, [LineSec(e.start, e.end)]);
      if HasOther(entities) {
        var o :| 0 <= o < |entities| && entities[o].Other?;
        assert entities[o] in multiset(rest) by {
          assert entities[o] in multiset(entities);
          assert entities[o] != entities[k];
        }
        var o' :| 0 <= o' < |rest| && rest[o'] == entities[o];
        assert HasOther(rest);
      } else {
        forall j | 0 <= j < |rest|
          ensures !rest[j].Other?
        {
          assert rest[j] in multiset(rest);
          assert rest[j] in multiset(entities);
        }
      }
    }
  }

  /** Lines 42-51 of dxf_to_track.py: the nested scan over every candidate of every remaining
      entity, keeping the strictly nearest start. */
  method ScanNearest(sqrt: real -> real, ms: seq<Entity>, to: Point) returns (r: Result<Choice>)
    requires |ms| > 0
    ensures HasOther(ms) ==> r == Err(TypeError)
    ensures !HasOther(ms) ==> r.Ok? && Some(r.value) == Kept(sqrt, Cands(ms), to)
  {
    var td: Extended := Inf;
    var tf: Option<nat> := None;
    var tq: Option<Candidate> := None;
    ghost var seen: seq<Choice> := [];
    var k := 0;
    while k < |ms|
      invariant 0 <= k <= |ms|
      invariant seen == Cands(ms[..k])
      invariant !HasOther(ms[..k])
      invariant Holds(sqrt, td, tf, tq, Kept(sqrt, seen, to), to)
    {
      var offers := Endpoints(ms[k]);
      if offers.None? {
        return Err(TypeError);
      }
      var j := 0;
      while j < |offers.value|
        invariant 0 <= j <= |offers.value|
        invariant seen == Cands(ms[..k]) + Tag(k, offers.value[..j])
        invariant Holds(sqrt, td, tf, tq, Kept(sqrt, seen, to), to)
      {
        var q := offers.value[j];
        var d := Dist(sqrt, q.start, to);
        KeptSnoc(sqrt, seen, Choice(k, q), to);
        if td.Inf? || d < td.value {
          td := Finite(d);
          tf := Some(k);
          tq := Some(q);
        }
        assert offers.value[..j + 1] == offers.value[..j] + [q];
        TagSnoc(k, offers.value[..j], q);
        seen := seen + [Choice(k, q)];
        j := j + 1;
      }
      assert offers.value[..j] == Offers(ms[k]);
      CandsSnoc(ms, k);
      NoOtherSnoc(ms, k);
      k := k + 1;
    }
    assert ms[..k] == ms;
    CandsMembers(ms);
    return Ok(Choice(tf.value, tq.value));
  }

  /** The scan's variables `td`, `tf` and `tq` describe the kept candidate. */
  ghost predicate Holds(sqrt: real -> real, td: Extended, tf: Option<nat>, tq: Option<Candidate>,
                        kept: Option<Choice>, to: Point)
  {
    if kept.None? then td.Inf? && tf.None? && tq.None?
    else td == Finite(Gap(sqrt, kept.value, to)) && tf == Some(kept.value.entity) && tq == Some(kept.value.cand)
  }

  lemma TagSnoc(k: nat, cs: seq<Candidate>, c: Candidate)
    ensures Tag(k, cs + [c]) == Tag(k, cs) + [Choice(k, c)]
  {
  }

  lemma NoOtherSnoc(ms: seq<Entity>, k: nat)
    requires k < |ms| && !HasOther(ms[..k]) && !ms[k].Other?
    ensures !HasOther(ms[..k + 1])
  {
    var t := ms[..k + 1];
    forall l | 0 <= l < |t|
      ensures !t[l].Other?
    {
      if l < k {
        assert t[l] == ms[..k][l];
      }
    }
  }

  /** One pass of the chaining loop, unfolded. */
  lemma ChainFromStep(sqrt: real -> real, ms: seq<Entity>, sections: seq<Section>, ch: Choice)
    requires |ms| > 0 && |sections| > 0 && !HasOther(ms)
    requires Some(ch) == Kept(sqrt, Cands(ms), sections[|sections| - 1].end)
    ensures ch.entity < |ms| && !ms[ch.entity].Other?
    ensures ChainFrom(sqrt, ms, sections) ==
              ChainFrom(sqrt, RemoveAt(ms, ch.entity), sections + [SectionOf(ms[ch.entity], ch.cand)])
  {
    CandsMembers(ms);
    assert ch in Cands(ms);
  }

  /** Lines 37-61 of dxf_to_track.py (and 55-79 of dxf_to_tck.py): the chaining loop, which
      removes the chosen entity from the remaining list and appends its section. */
  method BuildSections(sqrt: real -> real, entities: seq<Entity>) returns (r: Result<seq<Section>>)
    ensures r == Chain(sqrt, entities)
  {
    var first := FirstLine(entities);
    if first.None? {
      return Err(IndexError);
    }
    var e := entities[first.value];
    var modelspace := RemoveAt(entities, first.value);
    var sections := [LineSec(e.start, e.end)];
    while |modelspace| > 0
      invariant |sections| > 0
      invariant ChainFrom(sqrt, modelspace, sections) == Chain(sqrt, entities)
      decreases |modelspace|
    {
      var found := ScanNearest(sqrt, modelspace, sections[|sections| - 1].end);
      if found.Err? {
        return Err(found.error);
      }
      CandsMembers(modelspace);
      var tf := modelspace[found.value.entity];
      var tq := found.value.cand;
      var next: Section;
      if tf.Line? {
        next := LineSec(tq.start, tq.end);
      } else {
        var ang := NormalizeAngle(Sweep(tf, tq.tag));
        next := ArcSec(tq.start, tq.end, tf.radius, ang);
      }
      assert next == SectionOf(tf, tq);
      ChainFromStep(sqrt, modelspace, sections, found.value);
      sections := sections + [next];
      modelspace := RemoveAt(modelspace, found.value.entity);
    }
    return Ok(sections);
  }

  /** A table cell: a word, or a number as `float` reads back what `%f` wrote. */
  datatype Cell = Word(text: string) | Number(value: real)

  datatype CsvRow = CsvRow(cells: seq<Cell>)

  /** `%f`: six digits after the point, the nearer one on a tie going to the even digit. */
  function Fixed6(x: real): (r: real)
    ensures x - 0.0000005 <= r <= x + 0.0000005
    ensures (r * 1000000.0).Floor as real == r * 1000000.0
  {
    var n := Round(x * 1000000.0);
    n as real / 1000000.0
  }

  /** Lines 66-69 of dxf_to_track.py: the row written for one section. */
  function SectionRow(sqrt: real -> real, s: Section): CsvRow
  {
    match s
    case LineSec(a, b) => CsvRow([Word("straight"), Number(Fixed6(Dist(sqrt, a, b)))])
    case ArcSec(_, _, radius, angle) => CsvRow([Word("turn"), Number(Fixed6(radius)), Number(Fixed6(angle))])
  }

  /** Lines 64-69 of dxf_to_track.py: one row per section, in order. */
  method WriteRows(sqrt: real -> real, sections: seq<Section>) returns (rows: seq<CsvRow>)
    ensures |rows| == |sections|
    ensures forall k | 0 <= k < |sections| :: rows[k] == SectionRow(sqrt, sections[k])
  {
    rows := [];
    for k := 0 to |sections|
      invariant |rows| == k
      invariant forall j | 0 <= j < k :: rows[j] == SectionRow(sqrt, sections[j])
    {
      rows := rows + [SectionRow(sqrt, sections[k])];
    }
  }
}
