/**
 * Geometry of one measurement in Thickness2.py: the evenly spaced x samples
 * between the two clicked points (np.linspace), the line y = a*x + b through
 * them, and the squared Euclidean distance between two boundary points.
 * Coordinates are exact reals; floating-point rounding is not modelled.
 */
module Geometry {

  datatype Point = Point(x: real, y: real)

  /** Squared Euclidean distance between two points; Thickness2.py reports its square root. */
  function SqDist(p: Point, q: Point): (d: real)
    ensures d >= 0.0
    ensures p == q ==> d == 0.0
  {
    SquareNonNegative(q.x - p.x);
    SquareNonNegative(q.y - p.y);
    (q.x - p.x) * (q.x - p.x) + (q.y - p.y) * (q.y - p.y)
  }

  lemma SquareNonNegative(u: real)
    ensures u * u >= 0.0
  {
    if u < 0.0 {
      assert u * u == (-u) * (-u);
    }
  }

  /**
   * np.linspace(start, stop, num) with its default endpoint=True: num values,
   * the first `start`, the last `stop`, consecutive values one step apart.
   */
  function Linspace(start: real, stop: real, num: nat): (r: seq<real>)
    ensures |r| == num
    ensures num >= 1 ==> r[0] == start
    ensures num >= 2 ==> r[num - 1] == stop
    ensures num >= 2 ==> forall i :: 0 <= i < num - 1 ==>
      r[i + 1] - r[i] == (stop - start) / (num - 1) as real
  {
    if num <= 1 then seq(num, i => start)
    else
      var step := (stop - start) / (num - 1) as real;
      var r := seq(num, i requires 0 <= i < num => start + (i as real) * step);
      assert r[num - 1] == stop by {
        assert ((num - 1) as real) * step == stop - start;
      }
      r
  }

  /** Samples i <= j of Linspace lie (j - i) steps apart. */
  lemma LinspaceGap(start: real, stop: real, num: nat, i: nat, j: nat)
    requires i <= j < num
    ensures num >= 2 ==>
      Linspace(start, stop, num)[j] - Linspace(start, stop, num)[i]
        == ((j - i) as real) * ((stop - start) / (num - 1) as real)
    ensures num < 2 ==> Linspace(start, stop, num)[j] == Linspace(start, stop, num)[i]
  {
    var r := Linspace(start, stop, num);
    if num >= 2 {
      var step := (stop - start) / (num - 1) as real;
      assert r[j] == start + (j as real) * step;
      assert r[i] == start + (i as real) * step;
      assert (j as real) * step - (i as real) * step == ((j - i) as real) * step;
    }
  }

  /** The slope of the line through p0 and p1, with Thickness2.py's `eps` added to the denominator. */
  function Slope(p0: Point, p1: Point, eps: real): (a: real)
    requires p0.x - p1.x + eps != 0.0
    ensures a * (p0.x - p1.x + eps) == p0.y - p1.y
  {
    (p0.y - p1.y) / (p0.x - p1.x + eps)
  }

  /** The intercept chosen so that the line with slope `a` runs exactly through p0. */
  function Intercept(p0: Point, a: real): (b: real)
    ensures a * p0.x + b == p0.y
  {
    p0.y - a * p0.x
  }

  /** The y value of every x sample on the line y = a*x + b. */
  function SampleYs(xs: seq<real>, a: real, b: real): (ys: seq<real>)
    ensures |ys| == |xs|
  {
    seq(|xs|, i requires 0 <= i < |xs| => a * xs[i] + b)
  }

  /**
   * Because of `eps` the line misses p1 by (y0 - y1) * eps / (x0 - x1 + eps):
   * the bias that the epsilon in the slope denominator introduces.
   */
  lemma EndpointBias(p0: Point, p1: Point, eps: real)
    requires p0.x - p1.x + eps != 0.0
    ensures var a := Slope(p0, p1, eps);
      a * p1.x + Intercept(p0, a) - p1.y == (p0.y - p1.y) * eps / (p0.x - p1.x + eps)
  {
    var a := Slope(p0, p1, eps);
    var dx, dy, den := p0.x - p1.x, p0.y - p1.y, p0.x - p1.x + eps;
    assert a * den == dy;
    calc {
      a * p1.x + Intercept(p0, a) - p1.y;
      a * p1.x + p0.y - a * p0.x - p1.y;
      dy - a * dx;
      { assert dx == den - eps; }
      dy - a * den + a * eps;
      a * eps;
      { assert a == dy / den; }
      dy * eps / den;
    }
  }

  /** Without `eps`, and for a non-vertical segment, the line runs through both clicked points. */
  lemma ExactLineWithoutEps(p0: Point, p1: Point)
    requires p0.x != p1.x
    ensures var a := Slope(p0, p1, 0.0);
      a * p0.x + Intercept(p0, a) == p0.y && a * p1.x + Intercept(p0, a) == p1.y
  {
    EndpointBias(p0, p1, 0.0);
  }

  /** Two samples on the line y = a*x + b are (xj - xi)^2 * (1 + a^2) apart, squared. */
  lemma SampleSqDist(xs: seq<real>, a: real, b: real, i: nat, j: nat)
    requires i < |xs| && j < |xs|
    ensures var ys := SampleYs(xs, a, b);
      SqDist(Point(xs[i], ys[i]), Point(xs[j], ys[j]))
        == (xs[j] - xs[i]) * (xs[j] - xs[i]) * (1.0 + a * a)
  {
    var ys := SampleYs(xs, a, b);
    var dx := xs[j] - xs[i];
    assert ys[j] - ys[i] == a * dx;
    assert (a * dx) * (a * dx) == dx * dx * (a * a);
  }

  /**
   * Samples i < j of the sampled line lie (j - i) x-steps of (x1 - x0) / (steps - 1)
   * apart along a line of slope a: their squared distance is dx^2 * (1 + a^2).
   */
  lemma LineSampleSqDist(x0: real, x1: real, steps: nat, a: real, b: real, i: nat, j: nat)
    requires i < j < steps
    ensures var xs := Linspace(x0, x1, steps);
      var ys := SampleYs(xs, a, b);
      var dx := ((j - i) as real) * ((x1 - x0) / (steps - 1) as real);
      SqDist(Point(xs[i], ys[i]), Point(xs[j], ys[j])) == dx * dx * (1.0 + a * a)
  {
    var xs := Linspace(x0, x1, steps);
    var dx := ((j - i) as real) * ((x1 - x0) / (steps - 1) as real);
    var gap := xs[j] - xs[i];
    assert gap == dx by {
      LinspaceGap(x0, x1, steps, i, j);
    }
    SampleSqDist(xs, a, b, i, j);
  }
}
