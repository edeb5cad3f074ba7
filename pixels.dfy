/**
 * Pixels and images as Thickness2.py sees them: an image is a grid of rows
 * of pixels, a pixel a tuple of channel intensities, and a pixel is looked
 * up as img[floor(y)][floor(x)] with Python's indexing rules.
 */
module Pixels {
  import opened Wrappers

  /** Channel intensities; Thickness2.py reads the first three (red, green, blue). */
  type Pixel = seq<real>

  /** Rows of pixels, addressed img[row][column] = img[y][x]. */
  type Image = seq<seq<Pixel>>

  /** Every pixel has at least the three colour channels the darkness test reads. */
  predicate WellFormed(img: Image)
  {
    forall row, col :: 0 <= row < |img| && 0 <= col < |img[row]| ==> |img[row][col]| >= 3
  }

  /**
   * Python's sequence indexing: an index in [-n, n) selects an element,
   * a negative one counting from the end; anything else raises IndexError.
   */
  function PyIndex(n: nat, i: int): (r: Option<nat>)
    ensures r.Some? <==> -(n as int) <= i < n
    ensures r.Some? ==> r.value < n && (r.value == i || r.value == i + n)
  {
    if 0 <= i < n then Some(i)
    else if -(n as int) <= i < 0 then Some(i + n)
    else None
  }

  /** img[floor(y)][floor(x)]; None where Python raises IndexError. */
  function PixelAt(img: Image, x: real, y: real): (r: Option<Pixel>)
    requires WellFormed(img)
    ensures r.Some? ==> |r.value| >= 3
    ensures 0.0 <= y && y.Floor < |img| && 0.0 <= x && x.Floor < |img[y.Floor]| ==>
      r == Some(img[y.Floor][x.Floor])
    ensures y.Floor >= |img| || y.Floor < -|img| ==> r == None
  {
    match PyIndex(|img|, y.Floor)
    case None => None
    case Some(row) =>
      match PyIndex(|img[row]|, x.Floor)
      case None => None
      case Some(col) => Some(img[row][col])
  }

  /** is_black: dark when each of the three colour channels is strictly below the threshold. */
  function IsBlack(pix: Pixel, maxVal: real): (r: bool)
    requires |pix| >= 3
    ensures r <==> forall k :: 0 <= k < 3 ==> pix[k] < maxVal
  {
    if pix[0] < maxVal && pix[1] < maxVal && pix[2] < maxVal then true else false
  }

  /** Channels beyond the third (an alpha channel, say) never change the verdict. */
  lemma IsBlackIgnoresExtraChannels(pix: Pixel, extra: seq<real>, maxVal: real)
    requires |pix| == 3
    ensures IsBlack(pix + extra, maxVal) == IsBlack(pix, maxVal)
  {
    assert (pix + extra)[..3] == pix;
  }

  /** Raising the threshold never turns a dark pixel into a light one. */
  lemma IsBlackMonotone(pix: Pixel, lower: real, upper: real)
    requires |pix| >= 3 && lower <= upper
    ensures IsBlack(pix, lower) ==> IsBlack(pix, upper)
  {
  }

  /**
   * The classification of every sample (xs[i], ys[i]) as the loop in Thickness2.py
   * fills `black`; None when some sample lies outside the image.
   */
  function Classification(img: Image, xs: seq<real>, ys: seq<real>, maxVal: real): (r: Option<seq<bool>>)
    requires WellFormed(img) && |xs| == |ys|
    ensures r.Some? <==> forall i :: 0 <= i < |xs| ==> PixelAt(img, xs[i], ys[i]).Some?
    ensures r.Some? ==> |r.value| == |xs|
    ensures r.Some? ==> forall i :: 0 <= i < |xs| ==>
      (r.value[i] <==> forall k :: 0 <= k < 3 ==> PixelAt(img, xs[i], ys[i]).value[k] < maxVal)
  {
    if forall i :: 0 <= i < |xs| ==> PixelAt(img, xs[i], ys[i]).Some? then
      Some(seq(|xs|, i requires 0 <= i < |xs| => IsBlack(PixelAt(img, xs[i], ys[i]).value, maxVal)))
    else
      None
  }
}
