/**
 * The 8-bit RGB raster that every adjustment reads and writes, and the
 * real-number arithmetic the NumPy-based adjustments perform on it.
 */
module Images {

  /** One RGB triple; a channel of a decoded image lies in [0, 255]. */
  datatype Pixel = Pixel(r: int, g: int, b: int)

  predicate IsChannel(c: int) {
    0 <= c <= 255
  }

  predicate ValidPixel(p: Pixel) {
    IsChannel(p.r) && IsChannel(p.g) && IsChannel(p.b)
  }

  /** A width x height raster, stored row by row. */
  datatype Image = Image(width: nat, height: nat, pixels: seq<Pixel>)

  /** What an RGB image opened and converted by the imaging library looks like. */
  predicate Valid(img: Image) {
    && |img.pixels| == img.width * img.height
    && forall i :: 0 <= i < |img.pixels| ==> ValidPixel(img.pixels[i])
  }

  predicate SameShape(a: Image, b: Image) {
    a.width == b.width && a.height == b.height
  }

  /** `np.clip(x, lo, hi)` on one value. */
  function Clip(x: real, lo: real, hi: real): (y: real)
    requires lo <= hi
    ensures lo <= y <= hi
    ensures lo <= x <= hi ==> y == x
    ensures x <= lo ==> y == lo
    ensures hi <= x ==> y == hi
  {
    if x < lo then lo else if x > hi then hi else x
  }

  /**
   * `np.clip(x, 0, 255)` followed by `astype(np.uint8)`: saturate to the
   * channel range, then drop the fraction.
   */
  function Quantize(x: real): (c: int)
    ensures IsChannel(c)
    ensures 0.0 <= x <= 255.0 ==> c as real <= x < c as real + 1.0
    ensures x <= 0.0 ==> c == 0
    ensures 255.0 <= x ==> c == 255
  {
    Clip(x, 0.0, 255.0).Floor
  }

  /** Saturating and truncating never reverse the order of two values. */
  lemma QuantizeMonotone(x: real, y: real)
    requires x <= y
    ensures Quantize(x) <= Quantize(y)
  {
  }

  /** Adding an integer before truncation is the same as adding it after. */
  lemma QuantizeShift(c: int, a: real)
    requires 0.0 <= c as real + a <= 255.0
    ensures Quantize(c as real + a) == c + a.Floor
  {
  }

  /** A value at least (at most) a channel quantizes to at least (at most) that channel. */
  lemma QuantizeAtLeast(c: int, y: real)
    requires IsChannel(c) && c as real <= y
    ensures c <= Quantize(y)
  {
  }

  lemma QuantizeAtMost(c: int, y: real)
    requires IsChannel(c) && y <= c as real
    ensures Quantize(y) <= c
  {
  }

  /** A channel value that is already an integer in range passes through unchanged. */
  lemma QuantizeChannel(c: int)
    requires IsChannel(c)
    ensures Quantize(c as real) == c
  {
  }

  /** Luma with the ITU-R BT.601 weights, `0.299 R + 0.587 G + 0.114 B`. */
  function Luminance(p: Pixel): (l: real)
    ensures ValidPixel(p) ==> 0.0 <= l <= 255.0
    ensures p.r == p.g == p.b ==> l == p.r as real
  {
    0.299 * p.r as real + 0.587 * p.g as real + 0.114 * p.b as real
  }
}
