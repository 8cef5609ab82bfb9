/// Colour mapping and the interpolation step used by both visualizers
/// (src/fft_utils.rs), over exact reals.
module FftUtils {

  /** An RGB colour; the source promises every component in [0, 1]. */
  datatype Rgb = Rgb(r: real, g: real, b: real)

  predicate InUnit(x: real) { 0.0 <= x <= 1.0 }

  predicate IsUnitColour(c: Rgb) { InUnit(c.r) && InUnit(c.g) && InUnit(c.b) }

  function Abs(x: real): real { if x < 0.0 then -x else x }

  function Min(a: real, b: real): real { if a <= b then a else b }

  function Max(a: real, b: real): real { if a >= b then a else b }

  /** Multiplying an inequality by a non-negative factor keeps it. */
  lemma MulLeft(a: real, b: real, c: real)
    requires a <= b && c >= 0.0
    ensures c * a <= c * b
  {
  }

  /** Multiplying by a factor in [0, 1] brings a non-negative value no higher. */
  lemma MulUnit(a: real, w: real)
    requires a >= 0.0 && InUnit(w)
    ensures 0.0 <= a * w <= a
  {
    MulLeft(0.0, w, a);
    MulLeft(w, 1.0, a);
  }

  /** A non-negative value below `bound`, scaled by a factor in [0, 1], stays
      below `bound`. */
  lemma ScaledBound(a: real, w: real, bound: real)
    requires 0.0 <= a <= bound && InUnit(w)
    ensures 0.0 <= a * w <= bound
  {
    MulUnit(a, w);
  }

  /** Rounding toward zero, as float-to-integer conversion and float `%` use it. */
  function Trunc(x: real): (k: int)
    ensures x >= 0.0 ==> k as real <= x < k as real + 1.0
    ensures x < 0.0 ==> k as real - 1.0 < x <= k as real
  {
    if x >= 0.0 then x.Floor else -((-x).Floor)
  }

  /** Rust's float `x % 2.0`, the only remainder the colour mapping takes:
      `x - 2 * trunc(x / 2)`, so the remainder takes the sign of `x`. */
  function RemTwo(x: real): (r: real)
    ensures x >= 0.0 ==> 0.0 <= r < 2.0
    ensures x < 0.0 ==> -2.0 < r <= 0.0
  {
    x - 2.0 * Trunc(x / 2.0) as real
  }

  /** The chroma `(1 - |2l - 1|) * s` of `hsl_to_rgb`: colour intensity. For
      saturation and lightness in [0, 1] it is at most `2l` and at most `2 - 2l`,
      so the components of the colour stay in [0, 1]. */
  function Chroma(saturation: real, lightness: real): (c: real)
    ensures saturation == 0.0 ==> c == 0.0
    ensures InUnit(saturation) && InUnit(lightness) ==>
      0.0 <= c && c <= 2.0 * lightness && c <= 2.0 - 2.0 * lightness
  {
    var d := 1.0 - Abs(2.0 * lightness - 1.0);
    if InUnit(saturation) && InUnit(lightness) then
      assert 0.0 <= d && d <= 2.0 * lightness && d <= 2.0 - 2.0 * lightness;
      ScaledBound(d, saturation, 2.0 * lightness);
      ScaledBound(d, saturation, 2.0 - 2.0 * lightness);
      d * saturation
    else
      d * saturation
  }

  /** The factor `1 - |(h / 60) % 2 - 1|` that blends the second-largest
      component between hue sectors; in [0, 1] for a non-negative hue. */
  function HueWeight(hue: real): (w: real)
    ensures hue >= 0.0 ==> InUnit(w)
  {
    1.0 - Abs(RemTwo(hue / 60.0) - 1.0)
  }

  /** `hsl_to_rgb`: hue in degrees, saturation and lightness in [0, 1]. */
  function HslToRgb(hue: real, saturation: real, lightness: real): (rgb: Rgb)
    ensures saturation == 0.0 ==> rgb == Rgb(lightness, lightness, lightness)
  {
    var c := Chroma(saturation, lightness);
    var x := c * HueWeight(hue);
    var m := lightness - c / 2.0;
    var (r, g, b) :=
      if hue < 60.0 then (c, x, 0.0)
      else if hue < 120.0 then (x, c, 0.0)
      else if hue < 180.0 then (0.0, c, x)
      else if hue < 240.0 then (0.0, x, c)
      else if hue < 300.0 then (x, 0.0, c)
      else (c, 0.0, x);
    Rgb(r + m, g + m, b + m)
  }

  /** For a non-negative hue and saturation and lightness in [0, 1], every
      component of the colour lies in [0, 1]. */
  lemma HslToRgbInUnit(hue: real, saturation: real, lightness: real)
    requires hue >= 0.0 && InUnit(saturation) && InUnit(lightness)
    ensures IsUnitColour(HslToRgb(hue, saturation, lightness))
  {
    var c := Chroma(saturation, lightness);
    var w := HueWeight(hue);
    var x := c * w;
    MulUnit(c, w);
    var m := lightness - c / 2.0;
    assert 0.0 <= x <= c;
    assert 0.0 <= m && c + m <= 1.0;
    assert x + m <= c + m;
    var rgb := HslToRgb(hue, saturation, lightness);
    if hue < 60.0 {
      assert rgb == Rgb(c + m, x + m, m);
    } else if hue < 120.0 {
      assert rgb == Rgb(x + m, c + m, m);
    } else if hue < 180.0 {
      assert rgb == Rgb(m, c + m, x + m);
    } else if hue < 240.0 {
      assert rgb == Rgb(m, x + m, c + m);
    } else if hue < 300.0 {
      assert rgb == Rgb(x + m, m, c + m);
    } else {
      assert rgb == Rgb(c + m, m, x + m);
    }
  }

  /** The hue of bar `index` of `totalBars`: its position in the spectrum
      mapped onto the colour circle. */
  function FrequencyHue(index: nat, totalBars: nat): (hue: real)
    requires totalBars > 0
    ensures hue >= 0.0
    ensures index < totalBars ==> hue < 360.0
    ensures index == 0 ==> hue == 0.0
  {
    var frequencyRatio := index as real / totalBars as real;
    assert index < totalBars ==> frequencyRatio < 1.0;
    frequencyRatio * 360.0
  }

  /** `get_color_for_frequency`: a fully saturated, half-light colour whose hue
      walks the colour circle across the bars; the first bar is pure red. */
  function ColorForFrequency(index: nat, totalBars: nat): (rgb: Rgb)
    requires totalBars > 0
    ensures IsUnitColour(rgb)
    ensures index == 0 ==> rgb == Rgb(1.0, 0.0, 0.0)
  {
    var hue := FrequencyHue(index, totalBars);
    HslToRgbInUnit(hue, 1.0, 0.5);
    HslToRgb(hue, 1.0, 0.5)
  }

  /** `interpolate`: one step from `current` toward `target`; factor 0 means no
      change and factor 1 an instant change. */
  function Interpolate(current: real, target: real, factor: real): (r: real)
    ensures factor == 0.0 ==> r == current
    ensures factor == 1.0 ==> r == target
    ensures current == target ==> r == target
    ensures InUnit(factor) ==> Min(current, target) <= r <= Max(current, target)
  {
    var step := (target - current) * factor;
    if InUnit(factor) && current <= target then
      MulUnit(target - current, factor);
      current + step
    else if InUnit(factor) then
      MulUnit(current - target, factor);
      current + step
    else
      current + step
  }

  /** With a factor in [0, 1] a step never overshoots: the distance to the target
      shrinks by exactly the factor `1 - factor`. */
  lemma InterpolateDistance(current: real, target: real, factor: real)
    requires InUnit(factor)
    ensures Abs(target - Interpolate(current, target, factor)) == (1.0 - factor) * Abs(target - current)
  {
    var d := target - current;
    assert target - Interpolate(current, target, factor) == d * (1.0 - factor);
    if d < 0.0 {
      assert Abs(d * (1.0 - factor)) == -(d * (1.0 - factor));
    }
  }
}
