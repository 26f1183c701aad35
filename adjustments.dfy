/**
 * The seven adjustments of the enhancer.  Brightness, contrast, saturation
 * and the HDR effect are delegated to the imaging library, whose operations
 * this module receives as a `Toolkit`; only the parameters derived for those
 * operations are computed here.  Warmth, shadows and white point are
 * per-pixel rules computed on a float copy of the image, and are modelled
 * both as functions (their specification) and as methods over an array.
 */
module Adjustments {
  import opened Images

  // ---------------------------------------------------------------------
  // Parameters passed to the imaging library

  /** The enhancement factor `1 + value / 100` of brightness, contrast and saturation. */
  function EnhanceFactor(value: int): (factor: real)
    ensures factor > 1.0 <==> value > 0
    ensures factor == 1.0 <==> value == 0
    ensures factor < 1.0 <==> value < 0
    ensures -100 <= value <= 100 ==> 0.0 <= factor <= 2.0
    ensures (factor - 1.0) * 100.0 == value as real
  {
    1.0 + value as real / 100.0
  }

  /** Python's `int()` on a float: drop the fraction, rounding toward zero. */
  function Trunc(x: real): (n: int)
    ensures 0.0 <= x ==> 0 <= n && n as real <= x < n as real + 1.0
    ensures x < 0.0 ==> n <= 0 && x <= n as real && n as real < x + 1.0
  {
    if x >= 0.0 then x.Floor else -((-x).Floor)
  }

  /** The HDR strength `value / 100`, also the weight given to the processed copy. */
  function HdrStrength(value: int): (s: real)
    ensures 0 <= value <= 100 ==> 0.0 <= s <= 1.0
    ensures s * 100.0 == value as real
  {
    value as real / 100.0
  }

  /** The unsharp-mask percentage `int(150 * strength)`. */
  function UnsharpPercent(value: int): (percent: int)
    ensures 0 <= value ==> percent == (3 * value) / 2
    ensures 0 <= value <= 100 ==> 0 <= percent <= 150
  {
    Trunc(150.0 * HdrStrength(value))
  }

  /** The contrast factor `1 - 0.2 * strength` that compresses the sharpened copy. */
  function HdrContrastFactor(value: int): (factor: real)
    ensures 0 <= value <= 100 ==> 0.8 <= factor <= 1.0
    ensures factor * 500.0 == 500.0 - value as real
  {
    1.0 - 0.2 * HdrStrength(value)
  }

  // ---------------------------------------------------------------------
  // Operations of the imaging library

  /**
   * The imaging-library operations the enhancer calls: `ImageEnhance`'s
   * Brightness, Contrast and Color enhancers applied with a factor,
   * `ImageFilter.UnsharpMask(radius, percent)`, and `Image.blend`.
   */
  datatype Toolkit = Toolkit(
    brightness: (Image, real) -> Image,
    contrast: (Image, real) -> Image,
    color: (Image, real) -> Image,
    unsharpMask: (Image, int, int) -> Image,
    blend: (Image, Image, real) -> Image)

  /** What the enhancer relies on: the library keeps images valid and keeps their dimensions. */
  ghost predicate WellBehaved(tk: Toolkit) {
    && (forall img, f :: Valid(img) ==> Valid(tk.brightness(img, f)) && SameShape(tk.brightness(img, f), img))
    && (forall img, f :: Valid(img) ==> Valid(tk.contrast(img, f)) && SameShape(tk.contrast(img, f), img))
    && (forall img, f :: Valid(img) ==> Valid(tk.color(img, f)) && SameShape(tk.color(img, f), img))
    && (forall img, radius, percent :: Valid(img) ==>
          Valid(tk.unsharpMask(img, radius, percent)) && SameShape(tk.unsharpMask(img, radius, percent), img))
    && (forall a, b, w :: Valid(a) && Valid(b) && SameShape(a, b) ==>
          Valid(tk.blend(a, b, w)) && SameShape(tk.blend(a, b, w), a))
  }

  /** `apply_brightness`: the Brightness enhancer with factor `1 + value / 100`. */
  function ApplyBrightness(tk: Toolkit, img: Image, value: int): (out: Image)
    ensures WellBehaved(tk) && Valid(img) ==> Valid(out) && SameShape(out, img)
  {
    tk.brightness(img, EnhanceFactor(value))
  }

  /** `apply_contrast`: the Contrast enhancer with factor `1 + value / 100`. */
  function ApplyContrast(tk: Toolkit, img: Image, value: int): (out: Image)
    ensures WellBehaved(tk) && Valid(img) ==> Valid(out) && SameShape(out, img)
  {
    tk.contrast(img, EnhanceFactor(value))
  }

  /** `apply_saturation`: the Color enhancer with factor `1 + value / 100`. */
  function ApplySaturation(tk: Toolkit, img: Image, value: int): (out: Image)
    ensures WellBehaved(tk) && Valid(img) ==> Valid(out) && SameShape(out, img)
  {
    tk.color(img, EnhanceFactor(value))
  }

  /**
   * `apply_hdr`: sharpen with radius 2, lower the contrast of the sharpened
   * copy, and blend it into the original with weight `strength`.
   */
  function ApplyHdr(tk: Toolkit, img: Image, value: int): (out: Image)
    ensures value == 0 ==> out == img
    ensures WellBehaved(tk) && Valid(img) ==> Valid(out) && SameShape(out, img)
  {
    if value == 0 then img
    else
      var detail := tk.unsharpMask(img, 2, UnsharpPercent(value));
      var compressed := tk.contrast(detail, HdrContrastFactor(value));
      tk.blend(img, compressed, HdrStrength(value))
  }

  // ---------------------------------------------------------------------
  // Warmth

  /** The product `x * k`, with the comparisons to `x` that the channel bounds need. */
  function Gain(x: real, k: real): (y: real)
    ensures 0.0 <= x && 1.0 <= k ==> x <= y
    ensures 0.0 <= x && k <= 1.0 ==> y <= x
  {
    ProductSign(x, k - 1.0);
    assert x * k - x == x * (k - 1.0);
    x * k
  }

  /** For a non-negative value, a larger factor gives a larger product. */
  lemma GainMonotone(x: real, k1: real, k2: real)
    ensures 0.0 <= x && k1 <= k2 ==> Gain(x, k1) <= Gain(x, k2)
  {
    ProductSign(x, k2 - k1);
    assert x * k2 - x * k1 == x * (k2 - k1);
  }

  lemma ProductSign(a: real, b: real)
    ensures 0.0 <= a && 0.0 <= b ==> 0.0 <= a * b
    ensures 0.0 <= a && b <= 0.0 ==> a * b <= 0.0
  {
  }

  /** `clip(c * k, 0, 255)` truncated: a channel scaled by `k`. */
  function Scale(c: int, k: real): (d: int)
    ensures IsChannel(d)
    ensures IsChannel(c) && k >= 1.0 ==> d >= c
    ensures IsChannel(c) && k <= 1.0 ==> d <= c
  {
    var y := Gain(c as real, k);
    if IsChannel(c) && k >= 1.0 then QuantizeAtLeast(c, y); Quantize(y)
    else if IsChannel(c) && k <= 1.0 then QuantizeAtMost(c, y); Quantize(y)
    else Quantize(y)
  }

  /** A larger scale factor never gives a smaller channel. */
  lemma ScaleFactorMonotone(c: int, k1: real, k2: real)
    requires IsChannel(c) && k1 <= k2
    ensures Scale(c, k1) <= Scale(c, k2)
  {
    var x := c as real;
    assert 0.0 <= x;
    GainMonotone(x, k1, k2);
    QuantizeMonotone(Gain(x, k1), Gain(x, k2));
  }

  /** The red gain `1 + 0.3 * value / 100` of `apply_warmth`. */
  function RedGain(value: int): (k: real)
    ensures k >= 1.0 <==> value >= 0
  {
    1.0 + (value as real / 100.0) * 0.3
  }

  /** The blue gain `1 - 0.3 * value / 100` of `apply_warmth`. */
  function BlueGain(value: int): (k: real)
    ensures k <= 1.0 <==> value >= 0
  {
    1.0 - (value as real / 100.0) * 0.3
  }

  /** One pixel of `apply_warmth`: red and blue scaled in opposite directions, green kept. */
  function WarmthPixel(p: Pixel, value: int): (q: Pixel)
    ensures IsChannel(q.r) && IsChannel(q.b)
    ensures ValidPixel(p) ==> ValidPixel(q)
    ensures q.g == p.g
    ensures ValidPixel(p) && value >= 0 ==> q.r >= p.r && q.b <= p.b
    ensures ValidPixel(p) && value <= 0 ==> q.r <= p.r && q.b >= p.b
    ensures ValidPixel(p) && value == 0 ==> q == p
  {
    Pixel(Scale(p.r, RedGain(value)), p.g, Scale(p.b, BlueGain(value)))
  }

  /** A warmer setting never gives less red or more blue. */
  lemma WarmthMonotone(p: Pixel, v1: int, v2: int)
    requires ValidPixel(p) && v1 <= v2
    ensures WarmthPixel(p, v1).r <= WarmthPixel(p, v2).r
    ensures WarmthPixel(p, v1).b >= WarmthPixel(p, v2).b
  {
    ScaleFactorMonotone(p.r, RedGain(v1), RedGain(v2));
    ScaleFactorMonotone(p.b, BlueGain(v2), BlueGain(v1));
  }

  /** Maps `f` over every pixel, keeping the dimensions. */
  function MapPixels(img: Image, f: Pixel -> Pixel): (out: Image)
    ensures SameShape(out, img) && |out.pixels| == |img.pixels|
    ensures forall i :: 0 <= i < |img.pixels| ==> out.pixels[i] == f(img.pixels[i])
  {
    img.(pixels := seq(|img.pixels|, i requires 0 <= i < |img.pixels| => f(img.pixels[i])))
  }

  /** `apply_warmth` on a whole image; a zero value returns the very same image. */
  function Warmth(img: Image, value: int): (out: Image)
    ensures value == 0 ==> out == img
    ensures SameShape(out, img) && |out.pixels| == |img.pixels|
    ensures Valid(img) ==> Valid(out)
    ensures forall i :: 0 <= i < |img.pixels| ==> out.pixels[i].g == img.pixels[i].g
    ensures value != 0 ==> forall i :: 0 <= i < |img.pixels| ==> out.pixels[i] == WarmthPixel(img.pixels[i], value)
  {
    if value == 0 then img else MapPixels(img, p => WarmthPixel(p, value))
  }

  /**
   * `apply_warmth` plane by plane, as the source runs it: copy the pixels
   * into a buffer, overwrite the red plane, then the blue plane.  The buffer
   * holds 8-bit pixels, so each plane is clipped and truncated as it is
   * written, where the source truncates its float copy once at the end; the
   * blue update never reads red, so the results agree.
   */
  method ApplyWarmth(img: Image, value: int) returns (out: Image)
    ensures out == Warmth(img, value)
  {
    if value == 0 {
      return img;
    }
    var n := |img.pixels|;
    var buf := new Pixel[n](i requires 0 <= i < n => img.pixels[i]);
    for i := 0 to n
      invariant forall k :: 0 <= k < i ==> buf[k] == img.pixels[k].(r := Scale(img.pixels[k].r, RedGain(value)))
      invariant forall k :: i <= k < n ==> buf[k] == img.pixels[k]
    {
      buf[i] := buf[i].(r := Scale(buf[i].r, RedGain(value)));
    }
    for i := 0 to n
      invariant forall k :: 0 <= k < i ==> buf[k] == WarmthPixel(img.pixels[k], value)
      invariant forall k :: i <= k < n ==> buf[k] == img.pixels[k].(r := Scale(img.pixels[k].r, RedGain(value)))
    {
      buf[i] := buf[i].(b := Scale(buf[i].b, BlueGain(value)));
    }
    out := img.(pixels := buf[..]);
  }

  // ---------------------------------------------------------------------
  // Shadows and white point

  /** `clip(1 - L / 128, 0, 1)`: full weight for black, none from mid-grey up. */
  function ShadowMask(l: real): (m: real)
    ensures 0.0 <= m <= 1.0
    ensures l >= 128.0 ==> m == 0.0
    ensures l <= 0.0 ==> m == 1.0
    ensures 0.0 <= l <= 128.0 ==> m * 128.0 == 128.0 - l
  {
    Clip(1.0 - l / 128.0, 0.0, 1.0)
  }

  /** `clip((L - 128) / 128, 0, 1)`: no weight up to mid-grey, full weight at 256. */
  function HighlightMask(l: real): (m: real)
    ensures 0.0 <= m <= 1.0
    ensures l <= 128.0 ==> m == 0.0
    ensures l >= 256.0 ==> m == 1.0
    ensures 128.0 <= l <= 256.0 ==> m * 128.0 == l - 128.0
  {
    Clip((l - 128.0) / 128.0, 0.0, 1.0)
  }

  /** The darker of two pixels gets at least the shadow weight of the brighter, and at most its highlight weight. */
  lemma MasksMonotone(l1: real, l2: real)
    requires l1 <= l2
    ensures ShadowMask(l1) >= ShadowMask(l2)
    ensures HighlightMask(l1) <= HighlightMask(l2)
  {
  }

  /** The two masks never both weigh a pixel; at L = 128 both are zero. */
  lemma MasksDisjoint(l: real)
    ensures ShadowMask(l) == 0.0 || HighlightMask(l) == 0.0
    ensures l == 128.0 ==> ShadowMask(l) == 0.0 && HighlightMask(l) == 0.0
  {
  }

  /** `np.clip(pixel + a, 0, 255)` then `astype(np.uint8)`: the same amount added to every channel. */
  function Shift(p: Pixel, a: real): (q: Pixel)
    ensures ValidPixel(q)
    ensures ValidPixel(p) && a >= 0.0 ==> q.r >= p.r && q.g >= p.g && q.b >= p.b
    ensures ValidPixel(p) && a <= 0.0 ==> q.r <= p.r && q.g <= p.g && q.b <= p.b
    ensures ValidPixel(p) && a == 0.0 ==> q == p
    ensures (p.r <= p.g ==> q.r <= q.g) && (p.g <= p.b ==> q.g <= q.b) && (p.r <= p.b ==> q.r <= q.b)
    ensures (p.g <= p.r ==> q.g <= q.r) && (p.b <= p.g ==> q.b <= q.g) && (p.b <= p.r ==> q.b <= q.r)
  {
    Pixel(Quantize(p.r as real + a), Quantize(p.g as real + a), Quantize(p.b as real + a))
  }

  /** When no channel saturates, every channel moves by the same whole number, `floor(a)`. */
  lemma ShiftUniform(p: Pixel, a: real)
    requires 0.0 <= p.r as real + a <= 255.0
    requires 0.0 <= p.g as real + a <= 255.0
    requires 0.0 <= p.b as real + a <= 255.0
    ensures Shift(p, a) == Pixel(p.r + a.Floor, p.g + a.Floor, p.b + a.Floor)
  {
    QuantizeShift(p.r, a);
    QuantizeShift(p.g, a);
    QuantizeShift(p.b, a);
  }

  /** Which luminance mask a tone adjustment uses. */
  datatype Tone = Shadows | Highlights

  function ToneMask(tone: Tone, l: real): (m: real)
    ensures 0.0 <= m <= 1.0
  {
    match tone
    case Shadows => ShadowMask(l)
    case Highlights => HighlightMask(l)
  }

  /** The amount `value * 0.5 * mask` added to every channel of the pixel. */
  function Lift(tone: Tone, p: Pixel, value: int): (a: real)
    ensures value >= 0 ==> 0.0 <= a <= value as real * 0.5
    ensures value <= 0 ==> value as real * 0.5 <= a <= 0.0
    ensures tone == Shadows && Luminance(p) >= 128.0 ==> a == 0.0
    ensures tone == Highlights && Luminance(p) <= 128.0 ==> a == 0.0
  {
    Adjustment(value, ToneMask(tone, Luminance(p)))
  }

  /** `value * 0.5 * mask`: at most half the setting, with its sign. */
  function Adjustment(value: int, mask: real): (a: real)
    ensures 0.0 <= mask <= 1.0 && value >= 0 ==> 0.0 <= a <= value as real * 0.5
    ensures 0.0 <= mask <= 1.0 && value <= 0 ==> value as real * 0.5 <= a <= 0.0
    ensures mask == 0.0 ==> a == 0.0
  {
    Weighted(value as real * 0.5, mask);
    value as real * 0.5 * mask
  }

  /** Scaling by a weight in [0, 1] keeps the sign and never grows the magnitude. */
  lemma Weighted(x: real, m: real)
    ensures 0.0 <= m <= 1.0 && x >= 0.0 ==> 0.0 <= x * m <= x
    ensures 0.0 <= m <= 1.0 && x <= 0.0 ==> x <= x * m <= 0.0
  {
    assert x - x * m == x * (1.0 - m);
  }

  /** One pixel of `apply_shadows` (tone Shadows) or `apply_white_point` (tone Highlights). */
  function TonePixel(tone: Tone, p: Pixel, value: int): (q: Pixel)
    ensures ValidPixel(q)
    ensures ValidPixel(p) && value >= 0 ==> q.r >= p.r && q.g >= p.g && q.b >= p.b
    ensures ValidPixel(p) && value <= 0 ==> q.r <= p.r && q.g <= p.g && q.b <= p.b
    ensures ValidPixel(p) && tone == Shadows && Luminance(p) >= 128.0 ==> q == p
    ensures ValidPixel(p) && tone == Highlights && Luminance(p) <= 128.0 ==> q == p
    ensures ValidPixel(p) && value == 0 ==> q == p
  {
    Shift(p, Lift(tone, p, value))
  }

  /** `apply_shadows` or `apply_white_point` on a whole image; a zero value returns the very same image. */
  function ToneAdjust(tone: Tone, img: Image, value: int): (out: Image)
    ensures value == 0 ==> out == img
    ensures SameShape(out, img) && |out.pixels| == |img.pixels|
    ensures Valid(img) ==> Valid(out)
    ensures value != 0 ==> forall i :: 0 <= i < |img.pixels| ==> out.pixels[i] == TonePixel(tone, img.pixels[i], value)
  {
    if value == 0 then img else MapPixels(img, p => TonePixel(tone, p, value))
  }

  /** A pixel shifted by the adjustment its precomputed mask gives is the tone-adjusted pixel. */
  lemma ToneStep(tone: Tone, p: Pixel, value: int, m: real)
    requires m == ToneMask(tone, Luminance(p))
    ensures Shift(p, Adjustment(value, m)) == TonePixel(tone, p, value)
  {
  }

  /** The luminance mask of every pixel, computed over the whole image at once. */
  method ComputeMask(tone: Tone, img: Image) returns (mask: array<real>)
    ensures fresh(mask) && mask.Length == |img.pixels|
    ensures forall k :: 0 <= k < mask.Length ==> mask[k] == ToneMask(tone, Luminance(img.pixels[k]))
  {
    mask := new real[|img.pixels|];
    for i := 0 to mask.Length
      invariant forall k :: 0 <= k < i ==> mask[k] == ToneMask(tone, Luminance(img.pixels[k]))
    {
      mask[i] := ToneMask(tone, Luminance(img.pixels[i]));
    }
  }

  /**
   * `apply_shadows` / `apply_white_point` as the source runs them: compute
   * the luminance mask of every pixel, then add `value * 0.5 * mask` to every
   * channel of a buffer of 8-bit pixels, clipping and truncating as each
   * pixel is written (the source truncates once at the end, which gives the
   * same pixels).
   */
  method ApplyTone(tone: Tone, img: Image, value: int) returns (out: Image)
    ensures out == ToneAdjust(tone, img, value)
  {
    if value == 0 {
      return img;
    }
    var n := |img.pixels|;
    var buf := new Pixel[n](i requires 0 <= i < n => img.pixels[i]);
    var mask := ComputeMask(tone, img);
    ghost var target := ToneAdjust(tone, img, value).pixels;
    ghost var masks := mask[..];
    assert buf[..] == img.pixels;
    for i := 0 to n
      invariant buf[..i] == target[..i]
      invariant buf[i..] == img.pixels[i..]
      invariant mask[..] == masks
    {
      assert buf[i] == buf[i..][0] == img.pixels[i];
      ToneStep(tone, img.pixels[i], value, mask[i]);
      buf[i] := Shift(buf[i], Adjustment(value, mask[i]));
      assert buf[..i + 1] == buf[..i] + [buf[i]];
    }
    assert buf[..] == buf[..n];
    out := img.(pixels := buf[..]);
  }
}
