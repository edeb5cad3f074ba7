/**
 * The measurement performed by mouse_clicked: the two-click protocol on the
 * ClickSaver, the sampling of the line between the clicked points, the
 * classification loop, the boundary scan and the pairing loop.
 *
 * Matplotlib's event is reduced to `accepted` (left button, no toolbar mode,
 * inside the axes) and the click position (xdata, ydata). Printed lengths
 * are returned as Thickness values; a Python exception is the outcome Raised.
 */
module Measurement {
  import opened Wrappers
  import opened Geometry
  import opened Pixels
  import opened BoundaryScan
  import opened Clicks

  /**
   * One printed thickness: the squared pixel distance between two paired
   * boundary points and the conversion factor to micrometres.
   */
  datatype Thickness = Thickness(squaredPixels: real, conversion: real) {
    /** `pixels` is the printed pixel length (np.sqrt of the square) and `physical` the converted length. */
    ghost predicate Reports(pixels: real, physical: real) {
      0.0 <= pixels && pixels * pixels == squaredPixels && physical == conversion * pixels
    }
  }

  /**
   * A thickness determines what is printed for it: at most one non-negative
   * pixel length squares to it, and the physical length is that length times
   * the conversion factor.
   */
  lemma ReportsUnique(t: Thickness, pixels: real, physical: real, pixels': real, physical': real)
    requires t.Reports(pixels, physical) && t.Reports(pixels', physical')
    ensures pixels == pixels' && physical == physical'
  {
    if pixels < pixels' {
      SquareStrictlyMonotone(pixels, pixels');
    } else if pixels' < pixels {
      SquareStrictlyMonotone(pixels', pixels);
    }
  }

  lemma SquareStrictlyMonotone(u: real, v: real)
    requires 0.0 <= u < v
    ensures u * u < v * v
  {
    ProductPositive(v - u, u + v);
    assert v * v - u * u == (v - u) * (u + v);
  }

  lemma ProductPositive(x: real, y: real)
    requires x > 0.0 && y > 0.0
    ensures x * y > 0.0
  {
  }

  /** Python exceptions that abort a measurement. */
  datatype Error =
    | NonFiniteSample          // the slope denominator is 0: math.floor of an inf/nan sample
    | PixelOutOfRange          // img[floor(y)][floor(x)] raises IndexError
    | BoundaryIndexOutOfRange  // line_points[ind + 1] raises IndexError

  /** What a completed measurement prints. */
  datatype Report =
    | NoBlackArea
    | OneArea(thickness: Thickness)
    | SeveralAreas(thicknesses: seq<Thickness>)

  /** The effect of one click. */
  datatype Outcome =
    | Ignored
    | FirstPointStored
    | Reported(report: Report)
    | Raised(error: Error, printed: seq<Thickness>)

  /** The phase after a measurement, together with what it printed. */
  datatype MeasureResult = MeasureResult(outcome: Outcome, checkColor: bool)

  /**
   * The x samples np.linspace(x0, x1, steps) and the y samples a*x + b of the
   * line with slope (y0 - y1) / (x0 - x1 + eps) through p0.
   */
  function Samples(p0: Point, p1: Point, steps: nat, eps: real): (line: (seq<real>, seq<real>))
    requires steps == 0 || p0.x - p1.x + eps != 0.0
    ensures |line.0| == steps && |line.1| == steps
    ensures steps >= 1 ==> line.0[0] == p0.x && line.1[0] == p0.y
    ensures steps >= 2 ==> line.0[steps - 1] == p1.x
  {
    var xs := Linspace(p0.x, p1.x, steps);
    // with no samples the slope is never used
    var a := if p0.x - p1.x + eps == 0.0 then 0.0 else Slope(p0, p1, eps);
    (xs, SampleYs(xs, a, Intercept(p0, a)))
  }

  /** The sample points at the given indices. */
  function PointsAt(indices: seq<nat>, xs: seq<real>, ys: seq<real>): (pts: seq<Point>)
    requires |xs| == |ys|
    requires forall k :: 0 <= k < |indices| ==> indices[k] < |xs|
    ensures |pts| == |indices|
  {
    seq(|indices|, k requires 0 <= k < |indices| => Point(xs[indices[k]], ys[indices[k]]))
  }

  /** The thickness of each consecutive pair of points 0-1, 2-3, ...; an unpaired last point is not one. */
  function Pairs(pts: seq<Point>, conversion: real): (r: seq<Thickness>)
    ensures |r| == |pts| / 2
    ensures forall k :: 0 <= k < |pts| / 2 ==>
      r[k].squaredPixels == SqDist(pts[2 * k], pts[2 * k + 1]) && r[k].conversion == conversion
  {
    seq(|pts| / 2, k requires 0 <= k < |pts| / 2 => Thickness(SqDist(pts[2 * k], pts[2 * k + 1]), conversion))
  }

  /** What the three-way branch on len(line_points) prints, or the IndexError it raises. */
  function ReportOf(pts: seq<Point>, conversion: real): (o: Outcome)
    ensures o.Raised? <==> |pts| % 2 == 1
    ensures o == Reported(NoBlackArea) <==> pts == []
    ensures o.Raised? ==> o.error == BoundaryIndexOutOfRange && |o.printed| == |pts| / 2
    ensures o.Reported? && o.report.SeveralAreas? ==> |o.report.thicknesses| == |pts| / 2 >= 2
  {
    if |pts| == 2 then Reported(OneArea(Thickness(SqDist(pts[0], pts[1]), conversion)))
    else if |pts| == 0 then Reported(NoBlackArea)
    else if |pts| % 2 == 0 then Reported(SeveralAreas(Pairs(pts, conversion)))
    else Raised(BoundaryIndexOutOfRange, Pairs(pts, conversion))
  }

  /** The whole measurement on the clicked points p0 and p1, starting in scan phase c0. */
  function Measure(p0: Point, p1: Point, img: Image, steps: nat, conversion: real,
                   maxVal: real, eps: real, c0: bool): (m: MeasureResult)
    requires WellFormed(img)
    ensures m.outcome.Reported? || m.outcome.Raised?
    ensures m.outcome.Raised? && m.outcome.error != BoundaryIndexOutOfRange ==> m.checkColor == c0
  {
    if steps > 0 && p0.x - p1.x + eps == 0.0 then MeasureResult(Raised(NonFiniteSample, []), c0)
    else
      var (xs, ys) := Samples(p0, p1, steps, eps);
      match Classification(img, xs, ys, maxVal)
      case None => MeasureResult(Raised(PixelOutOfRange, []), c0)
      case Some(black) =>
        var s := Scan(black, c0);
        MeasureResult(ReportOf(PointsAt(s.recorded, xs, ys), conversion), s.checkColor)
  }

  /** The classification loop: fills `black` sample by sample; ok is false where Python raises IndexError. */
  method ClassifySamples(img: Image, xs: seq<real>, ys: seq<real>, maxVal: real)
    returns (black: array<bool>, ok: bool)
    requires WellFormed(img) && |xs| == |ys|
    ensures fresh(black) && black.Length == |xs|
    ensures ok <==> Classification(img, xs, ys, maxVal).Some?
    ensures ok ==> black[..] == Classification(img, xs, ys, maxVal).value
  {
    black := new bool[|xs|](_ => false);
    for i := 0 to |xs|
      invariant forall k :: 0 <= k < i ==>
        PixelAt(img, xs[k], ys[k]).Some? && black[k] == IsBlack(PixelAt(img, xs[k], ys[k]).value, maxVal)
    {
      var pix := PixelAt(img, xs[i], ys[i]);
      if pix.None? {
        ok := false;
        return;
      }
      black[i] := IsBlack(pix.value, maxVal);
    }
    ok := true;
  }

  /**
   * The boundary scan: appends a sample's point when its classification
   * equals cs.checkColor, and then flips cs.checkColor.
   */
  method ScanBoundaries(cs: ClickSaver, black: array<bool>, xs: seq<real>, ys: seq<real>)
    returns (linePoints: seq<Point>)
    requires black.Length == |xs| == |ys|
    modifies cs
    ensures cs.checkColor == Scan(black[..], old(cs.checkColor)).checkColor
    ensures linePoints == PointsAt(Scan(black[..], old(cs.checkColor)).recorded, xs, ys)
    ensures cs.clicked == old(cs.clicked) && cs.points == old(cs.points)
  {
    ghost var c0 := cs.checkColor;
    linePoints := [];
    for i := 0 to black.Length
      invariant cs.clicked == old(cs.clicked) && cs.points == old(cs.points)
      invariant cs.checkColor == Scan(black[..i], c0).checkColor
      invariant linePoints == PointsAt(Scan(black[..i], c0).recorded, xs, ys)
    {
      assert black[..i + 1][..i] == black[..i];
      if black[i] {
        if cs.checkColor {
          linePoints := linePoints + [Point(xs[i], ys[i])];
          cs.UpdateColor();
        }
      } else {
        if !cs.checkColor {
          linePoints := linePoints + [Point(xs[i], ys[i])];
          cs.UpdateColor();
        }
      }
    }
    assert black[..black.Length] == black[..];
  }

  /**
   * The three-way branch on len(line_points) with its pairing loop, which
   * measures points ind and ind + 1 for ind = 0, 2, 4, ... and raises
   * IndexError at an unpaired last point.
   */
  method ReportLengths(linePoints: seq<Point>, conversion: real) returns (outcome: Outcome)
    ensures outcome == ReportOf(linePoints, conversion)
  {
    if |linePoints| == 2 {
      var length := SqDist(linePoints[0], linePoints[1]);
      outcome := Reported(OneArea(Thickness(length, conversion)));
    } else if |linePoints| == 0 {
      outcome := Reported(NoBlackArea);
    } else {
      var lengths: seq<Thickness> := [];
      var ind := 0;
      while ind < |linePoints|
        invariant ind % 2 == 0 && ind <= |linePoints|
        invariant |lengths| == ind / 2
        invariant forall k :: 0 <= k < ind / 2 ==>
          lengths[k] == Thickness(SqDist(linePoints[2 * k], linePoints[2 * k + 1]), conversion)
      {
        if ind + 1 >= |linePoints| {
          outcome := Raised(BoundaryIndexOutOfRange, lengths);
          assert lengths == Pairs(linePoints, conversion);
          return;
        }
        var length := SqDist(linePoints[ind], linePoints[ind + 1]);
        lengths := lengths + [Thickness(length, conversion)];
        ind := ind + 2;
      }
      assert lengths == Pairs(linePoints, conversion);
      outcome := Reported(SeveralAreas(lengths));
    }
  }

  /**
   * mouse_clicked. A first click stores row 0 of the buffer and flips
   * `clicked`; a second click stores row 1, flips `clicked` back, measures,
   * and flushes the buffer unless the measurement raised.
   */
  method MouseClicked(cs: ClickSaver, accepted: bool, xdata: real, ydata: real, img: Image,
                      steps: nat, conversion: real, maxVal: real, eps: real)
    returns (outcome: Outcome)
    requires cs.Valid() && WellFormed(img)
    modifies cs, cs.points
    ensures cs.Valid()
    ensures !accepted ==>
      outcome == Ignored && cs.clicked == old(cs.clicked) && cs.checkColor == old(cs.checkColor)
      && cs.points == old(cs.points) && unchanged(cs.points)
    ensures accepted && old(cs.clicked) ==>
      outcome == FirstPointStored && !cs.clicked && cs.checkColor == old(cs.checkColor)
      && cs.points == old(cs.points)
      && cs.points[0, 0] == xdata && cs.points[0, 1] == ydata
      && cs.points[1, 0] == old(cs.points[1, 0]) && cs.points[1, 1] == old(cs.points[1, 1])
    ensures accepted && !old(cs.clicked) ==>
      var m := Measure(Point(old(cs.points[0, 0]), old(cs.points[0, 1])), Point(xdata, ydata),
                       img, steps, conversion, maxVal, eps, old(cs.checkColor));
      cs.clicked && outcome == m.outcome && cs.checkColor == m.checkColor
      && (outcome.Reported? ==> fresh(cs.points) && cs.Zeroed())
      && (outcome.Raised? ==>
            cs.points == old(cs.points)
            && cs.points[0, 0] == old(cs.points[0, 0]) && cs.points[0, 1] == old(cs.points[0, 1])
            && cs.points[1, 0] == xdata && cs.points[1, 1] == ydata)
  {
    if cs.clicked {
      if accepted {
        cs.points[0, 0] := xdata;
        cs.points[0, 1] := ydata;
        cs.Update();
        outcome := FirstPointStored;
      } else {
        outcome := Ignored;
      }
    } else if accepted {
      cs.points[1, 0] := xdata;
      cs.points[1, 1] := ydata;
      cs.Update();
      var p0 := Point(cs.points[0, 0], cs.points[0, 1]);
      var p1 := Point(cs.points[1, 0], cs.points[1, 1]);
      if steps > 0 && p0.x - p1.x + eps == 0.0 {
        outcome := Raised(NonFiniteSample, []);
        return;
      }
      var (xs, ys) := Samples(p0, p1, steps, eps);
      var black, ok := ClassifySamples(img, xs, ys, maxVal);
      if !ok {
        outcome := Raised(PixelOutOfRange, []);
        return;
      }
      var linePoints := ScanBoundaries(cs, black, xs, ys);
      outcome := ReportLengths(linePoints, conversion);
      if outcome.Reported? {
        cs.Flush();
      }
    } else {
      outcome := Ignored;
    }
  }

  /**
   * One two-click cycle from the awaiting-first-click phase: the first click
   * measures nothing, the second measures the segment between the two
   * clicks and leaves `clicked` as it was before the first.
   */
  method ClickTwice(cs: ClickSaver, first: Point, second: Point, img: Image,
                    steps: nat, conversion: real, maxVal: real, eps: real)
    returns (firstOutcome: Outcome, secondOutcome: Outcome)
    requires cs.Valid() && cs.clicked && WellFormed(img)
    modifies cs, cs.points
    ensures cs.Valid() && cs.clicked && firstOutcome == FirstPointStored
    ensures var m := Measure(first, second, img, steps, conversion, maxVal, eps, old(cs.checkColor));
      secondOutcome == m.outcome && cs.checkColor == m.checkColor
    ensures secondOutcome.Reported? ==> cs.Zeroed()
  {
    firstOutcome := MouseClicked(cs, true, first.x, first.y, img, steps, conversion, maxVal, eps);
    secondOutcome := MouseClicked(cs, true, second.x, second.y, img, steps, conversion, maxVal, eps);
  }

  /** A line none of whose samples is dark, measured from phase true, reports no black area and keeps the phase. */
  lemma MeasureNoDarkSample(p0: Point, p1: Point, img: Image, steps: nat, conversion: real,
                            maxVal: real, eps: real, black: seq<bool>)
    requires WellFormed(img) && (steps == 0 || p0.x - p1.x + eps != 0.0)
    requires Classification(img, Samples(p0, p1, steps, eps).0, Samples(p0, p1, steps, eps).1, maxVal)
      == Some(black)
    requires forall i :: 0 <= i < |black| ==> !black[i]
    ensures Measure(p0, p1, img, steps, conversion, maxVal, eps, true)
      == MeasureResult(Reported(NoBlackArea), true)
  {
    ScanAllLight(black);
  }

  /**
   * Measured from phase true, the pairing loop raises exactly when a dark run
   * reaches the second clicked point, and only then is the phase left false.
   */
  lemma MeasureRaisesIffOpenRun(p0: Point, p1: Point, img: Image, steps: nat, conversion: real,
                                maxVal: real, eps: real, black: seq<bool>)
    requires WellFormed(img) && (steps == 0 || p0.x - p1.x + eps != 0.0)
    requires Classification(img, Samples(p0, p1, steps, eps).0, Samples(p0, p1, steps, eps).1, maxVal)
      == Some(black)
    ensures var m := Measure(p0, p1, img, steps, conversion, maxVal, eps, true);
      (m.outcome.Raised? <==> black != [] && black[|black| - 1])
      && (m.checkColor <==> black == [] || !black[|black| - 1])
  {
    ScanOddIffOpenRun(black);
    ScanFinalPhase(black, true);
  }

  /**
   * The phase is not reset between measurements: after a dark run reached the
   * end of the previous line (phase false), a line with no dark sample at all
   * records its first sample as a boundary and raises with nothing printed.
   */
  lemma MeasureAfterOpenRun(p0: Point, p1: Point, img: Image, steps: nat, conversion: real,
                            maxVal: real, eps: real, black: seq<bool>)
    requires WellFormed(img) && (steps == 0 || p0.x - p1.x + eps != 0.0)
    requires Classification(img, Samples(p0, p1, steps, eps).0, Samples(p0, p1, steps, eps).1, maxVal)
      == Some(black)
    requires black != [] && forall i :: 0 <= i < |black| ==> !black[i]
    ensures Measure(p0, p1, img, steps, conversion, maxVal, eps, false)
      == MeasureResult(Raised(BoundaryIndexOutOfRange, []), true)
  {
    ScanLightFromOpenRun(black);
  }

  /**
   * A single dark run on samples [lo, hi] that ends before the last sample,
   * measured from phase true, reports one thickness, the squared distance
   * from sample lo to sample hi + 1, and leaves the phase true.
   * (Geometry.LineSampleSqDist gives that distance in terms of the clicks.)
   */
  lemma MeasureSingleRun(p0: Point, p1: Point, img: Image, steps: nat, conversion: real,
                         maxVal: real, eps: real, lo: nat, hi: nat)
    requires WellFormed(img) && (steps == 0 || p0.x - p1.x + eps != 0.0)
    requires lo <= hi && hi + 1 < steps
    requires Classification(img, Samples(p0, p1, steps, eps).0, Samples(p0, p1, steps, eps).1, maxVal)
      == Some(SingleRun(steps, lo, hi))
    ensures var (xs, ys) := Samples(p0, p1, steps, eps);
      Measure(p0, p1, img, steps, conversion, maxVal, eps, true)
        == MeasureResult(Reported(OneArea(Thickness(
             SqDist(Point(xs[lo], ys[lo]), Point(xs[hi + 1], ys[hi + 1])), conversion))), true)
  {
    SingleRunRecords(steps, lo, hi);
    ScanParity(SingleRun(steps, lo, hi), true);
  }
}
