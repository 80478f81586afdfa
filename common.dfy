/** Shared vocabulary of the lap-time scripts: optional values, the "may be infinite" reals the
    scripts get from `math.inf`, Python's `round` and `%` on exact reals, points and the
    Euclidean distance, the oracles that stand in for `math`'s transcendental functions, and
    the straight/turn track sections that both track generators consume. */
module Common {

  datatype Option<T> = None | Some(value: T)

  /** Failures the scripts raise (they are Python exceptions there). */
  datatype Error =
    | IndexError        // indexing an empty list, or a row with too few fields
    | ZeroDivisionError // a division count or a radius of zero
    | NameError         // a local variable that a loop left unbound
    | TypeError         // iterating over the `None` that `endpoints` returns for other entities
    | KeyError          // reading a field of a record that was never filled in
    | ValueError        // `float` of a table cell that is not a number

  datatype Result<T> = Ok(value: T) | Err(error: Error)

  /** How one pass of a simulation loop ends: go on, the finish condition holds, or the
      script stops with an exception. */
  datatype Outcome = Continue | Finished | Failed(error: Error)

  /** A non-negative quantity that may be `inf` (a radius of a straight, a corner speed). */
  datatype Extended = Finite(value: real) | Inf

  /** Python's `min(a, b)` where `a` may be `inf` and `b` is finite. */
  function MinExt(a: Extended, b: real): (m: real)
    ensures m <= b
    ensures a.Finite? ==> m <= a.value
    ensures m == b || (a.Finite? && m == a.value)
  {
    if a.Finite? && a.value < b then a.value else b
  }

  /** Python's `min(a, b)` on two floats: `b` only when it is strictly smaller. */
  function Min(a: real, b: real): (m: real)
    ensures m <= a && m <= b
    ensures m == a || m == b
  {
    if b < a then b else a
  }

  function Abs(x: real): (a: real)
    ensures 0.0 <= a && (a == x || a == -x)
  {
    if x < 0.0 then -x else x
  }

  function AbsInt(n: int): (a: nat)
    ensures a == n || a == -n
  {
    if n < 0 then -n else n
  }

  /** The double closest to pi, as `math.pi` gives it. */
  const Pi: real := 3.141592653589793

  /** Gravity and air density, the same constants in both simulators. */
  const G: real := 9.8
  const Rho: real := 1.2041

  /** `math.radians`. */
  function Radians(deg: real): real
  {
    deg * (Pi / 180.0)
  }

  /** Python's `round(x)` on a float: the nearest integer, ties to the even one. */
  function Round(x: real): (n: int)
    ensures x - 0.5 <= n as real <= x + 0.5
    ensures (n as real - x == 0.5 || x - n as real == 0.5) ==> n % 2 == 0
  {
    var f := x.Floor;
    var frac := x - f as real;
    if frac < 0.5 then f
    else if frac > 0.5 then f + 1
    else if f % 2 == 0 then f
    else f + 1
  }

  /** Python's `x % m` for a positive float modulus: the floored remainder. */
  function FloorMod(x: real, m: real): (r: real)
    requires 0.0 < m
    ensures 0.0 <= r < m
    ensures ((x - r) / m).Floor as real == (x - r) / m
  {
    var q := (x / m).Floor;
    FloorBounds(x, m, q);
    x - q as real * m
  }

  lemma FloorBounds(x: real, m: real, q: int)
    requires 0.0 < m && q == (x / m).Floor
    ensures 0.0 <= x - q as real * m < m
    ensures ((x - (x - q as real * m)) / m).Floor as real == (x - (x - q as real * m)) / m
  {
    ScaleBounds(x, m, q as real);
    assert x - (x - q as real * m) == q as real * m;
    assert q as real * m / m == q as real;
  }

  lemma ScaleBounds(x: real, m: real, qr: real)
    requires 0.0 < m && qr <= x / m < qr + 1.0
    ensures 0.0 <= x - qr * m < m
  {
    ScaleLower(x, m, qr);
    ScaleUpper(x, m, qr);
  }

  lemma ScaleLower(x: real, m: real, qr: real)
    requires 0.0 < m && qr <= x / m
    ensures 0.0 <= x - qr * m
  {
    var t := x / m;
    assert t * m == x;
    MulNonneg(t - qr, m);
    Distrib(t, qr, m);
  }

  lemma ScaleUpper(x: real, m: real, qr: real)
    requires 0.0 < m && x / m < qr + 1.0
    ensures x - qr * m < m
  {
    var t := x / m;
    assert t * m == x;
    MulPos(qr + 1.0 - t, m);
    Distrib(qr + 1.0, t, m);
    assert (qr + 1.0) * m == qr * m + m;
  }

  lemma Distrib(a: real, b: real, m: real)
    ensures (a - b) * m == a * m - b * m
  {
  }

  datatype Point = Point(x: real, y: real)

  /** Product of two floats. Squares go through it (`Sq`) so that the solver sees a product of
      two terms, not a power, which its arithmetic handles poorly. */
  function Mul(a: real, b: real): real
  {
    a * b
  }

  /** Python's `x**2`. */
  function Sq(x: real): real
  {
    Mul(x, x)
  }

  lemma SqNonneg(x: real)
    ensures 0.0 <= Sq(x)
    ensures Sq(x) == 0.0 <==> x == 0.0
    ensures Sq(-x) == Sq(x)
  {
    if x < 0.0 {
      MulNegNeg(x, x);
    } else if 0.0 < x {
      MulPos(x, x);
    }
  }

  function SqDist(p: Point, q: Point): real
  {
    Sq(p.x - q.x) + Sq(p.y - q.y)
  }

  /** `sqrt` stands for the float square root (`** .5`, `np.sqrt`); the models take it as a
      parameter, and `IsSqrt` says what it is when a property needs it. */
  ghost predicate IsSqrt(sqrt: real -> real)
  {
    forall x: real {:trigger Root(sqrt, x)} :: 0.0 <= x ==> 0.0 <= Root(sqrt, x) && Sq(Root(sqrt, x)) == x
  }

  /** `sqrt` at `x`; `IsSqrt` is stated over it so that its facts are drawn on only where a
      proof asks for them through `SqrtAt`. */
  ghost function Root(sqrt: real -> real, x: real): real
  {
    sqrt(x)
  }

  lemma SqrtAt(sqrt: real -> real, x: real)
    requires IsSqrt(sqrt) && 0.0 <= x
    ensures 0.0 <= sqrt(x) && Sq(sqrt(x)) == x
    ensures 0.0 <= Root(sqrt, x) && Sq(Root(sqrt, x)) == x
  {
    assert Root(sqrt, x) == sqrt(x);
  }

  /** The scripts' `dist`: Euclidean distance `((x1 - x2)**2 + (y1 - y2)**2)**0.5`. */
  function Dist(sqrt: real -> real, p: Point, q: Point): real
  {
    sqrt(SqDist(p, q))
  }

  lemma DistIsAMetricBase(sqrt: real -> real, p: Point, q: Point)
    requires IsSqrt(sqrt)
    ensures 0.0 <= Dist(sqrt, p, q)
    ensures Dist(sqrt, p, q) == Dist(sqrt, q, p)
    ensures Dist(sqrt, p, q) == 0.0 <==> p == q
  {
    var a, b := p.x - q.x, p.y - q.y;
    var s := SqDist(p, q);
    SqNonneg(a);
    SqNonneg(b);
    assert q.x - p.x == -a && q.y - p.y == -b;
    assert s == SqDist(q, p);
    SqrtAt(sqrt, s);
    if sqrt(s) == 0.0 {
      assert p == q;
    }
    if p == q {
      SqNonneg(sqrt(s));
    }
  }

  /** Multiplying by a non-negative factor keeps order. */
  lemma MulLe(a: real, b: real, c: real)
    requires a <= b && 0.0 <= c
    ensures a * c <= b * c
  {
    MulNonneg(b - a, c);
    Distrib(b, a, c);
  }

  /** Dividing by a positive divisor keeps order. */
  lemma DivLe(a: real, b: real, c: real)
    requires a <= b && 0.0 < c
    ensures a / c <= b / c
  {
    assert b / c - a / c == (b - a) / c;
    assert 0.0 <= (b - a) / c;
  }

  lemma MulNonneg(a: real, b: real)
    requires 0.0 <= a && 0.0 <= b
    ensures 0.0 <= a * b
  {
  }

  lemma MulNegNeg(a: real, b: real)
    requires a < 0.0 && b < 0.0
    ensures 0.0 < Mul(a, b)
  {
  }

  lemma MulPos(a: real, b: real)
    requires 0.0 < a && 0.0 < b
    ensures 0.0 < a * b && 0.0 < Mul(a, b)
  {
  }

  /** Stand-ins for the `math` functions the track generators use for coordinates. Nothing
      about their values is assumed: only counts, lengths and headings are verified. */
  datatype Trig = Trig(sin: real -> real, cos: real -> real, tan: real -> real,
                       atan: real -> real, atan2: (real, real) -> real)

  /** A point `dlen` ahead of `p` along `heading`: `(p.x + cos(heading) * dlen, p.y +
      sin(heading) * dlen)`. */
  function Ahead(trig: Trig, p: Point, heading: real, dlen: real): Point
  {
    Point(p.x + trig.cos(heading) * dlen, p.y + trig.sin(heading) * dlen)
  }

  /** The point of a circle about `(cx, cy)` that the generators place for the angle `cangle`:
      `(cx - s * cos(cangle) * radius, cy - s * sin(cangle) * radius)` with orientation sign `s`. */
  function OnArc(trig: Trig, cx: real, cy: real, s: real, cangle: real, radius: real): Point
  {
    Point(cx - s * trig.cos(cangle) * radius, cy - s * trig.sin(cangle) * radius)
  }

  /** A track element as the generators read it: a straight of some length or a turn of some
      radius through some angle in degrees. */
  datatype TrackSec = Straight(length: real) | Turn(radius: real, angle: real)

  /** Sum of a sequence, peeling the last element (the order in which the scripts append). */
  function Sum(s: seq<real>): real
  {
    if |s| == 0 then 0.0 else Sum(s[..|s| - 1]) + s[|s| - 1]
  }

  lemma {:induction false} SumAppend(s: seq<real>, t: seq<real>)
    ensures Sum(s + t) == Sum(s) + Sum(t)
    decreases |t|
  {
    if |t| == 0 {
      assert s + t == s;
    } else {
      assert (s + t)[..|s + t| - 1] == s + t[..|t| - 1];
      SumAppend(s, t[..|t| - 1]);
    }
  }

  /** `n` copies of `x`, the step lengths a division loop appends. */
  function Repeat(x: real, n: nat): (s: seq<real>)
    ensures |s| == n
  {
    seq(n, _ => x)
  }

  lemma RepeatSnoc(x: real, n: nat)
    ensures Repeat(x, n + 1) == Repeat(x, n) + [x]
  {
  }

  lemma {:induction false} SumRepeat(x: real, n: nat)
    ensures Sum(Repeat(x, n)) == n as real * x
  {
    if n > 0 {
      assert Repeat(x, n)[..n - 1] == Repeat(x, n - 1);
      SumRepeat(x, n - 1);
    }
  }
}
