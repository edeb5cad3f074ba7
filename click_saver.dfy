/**
 * ClickSaver: the state shared by successive mouse clicks. `clicked` is true
 * while the next click is a first click, `checkColor` is the phase of the
 * boundary scan (true while looking for the start of a dark run), and
 * `points` holds the two clicked points, one (x, y) per row.
 */
module Clicks {

  class ClickSaver {
    var clicked: bool
    var checkColor: bool
    var points: array2<real>

    /** The points buffer is 2 x 2. */
    ghost predicate Valid()
      reads this
    {
      points.Length0 == 2 && points.Length1 == 2
    }

    /** Every entry of the points buffer is 0. */
    ghost predicate Zeroed()
      reads this, points
      requires Valid()
    {
      forall i, j :: 0 <= i < 2 && 0 <= j < 2 ==> points[i, j] == 0.0
    }

    /** Both toggles start true and the buffer starts zeroed. */
    constructor ()
      ensures Valid() && fresh(points) && Zeroed()
      ensures clicked && checkColor
    {
      clicked := true;
      checkColor := true;
      points := new real[2, 2]((i, j) => 0.0);
    }

    /** Negates `clicked`; nothing else changes. */
    method Update()
      modifies this
      ensures clicked == !old(clicked)
      ensures checkColor == old(checkColor) && points == old(points)
    {
      if clicked {
        clicked := false;
      } else {
        clicked := true;
      }
    }

    /** Negates `checkColor`; nothing else changes. */
    method UpdateColor()
      modifies this
      ensures checkColor == !old(checkColor)
      ensures clicked == old(clicked) && points == old(points)
    {
      if checkColor {
        checkColor := false;
      } else {
        checkColor := true;
      }
    }

    /** Replaces the buffer by a new zeroed one; both toggles, `checkColor` included, are kept. */
    method Flush()
      modifies this
      ensures Valid() && fresh(points) && Zeroed()
      ensures clicked == old(clicked) && checkColor == old(checkColor)
    {
      points := new real[2, 2]((i, j) => 0.0);
    }
  }

  /** Update is its own inverse: two calls restore the click phase. */
  method UpdateTwiceRestores(cs: ClickSaver)
    modifies cs
    ensures cs.clicked == old(cs.clicked) && cs.checkColor == old(cs.checkColor)
    ensures cs.points == old(cs.points)
  {
    cs.Update();
    cs.Update();
  }

  /** UpdateColor is its own inverse: two calls restore the scan phase. */
  method UpdateColorTwiceRestores(cs: ClickSaver)
    modifies cs
    ensures cs.clicked == old(cs.clicked) && cs.checkColor == old(cs.checkColor)
    ensures cs.points == old(cs.points)
  {
    cs.UpdateColor();
    cs.UpdateColor();
  }
}
