/** The colour picker's two conversions, over the reals. */
module ColorPicker {
  datatype Rgb = Rgb(r: real, g: real, b: real)
  datatype Hsv = Hsv(h: real, s: real, v: real)

  function Abs(x: real): real { if x < 0.0 then -x else x }

  function Max(x: real, y: real): real { if x < y then y else x }

  function Min(x: real, y: real): real { if x < y then x else y }

  /** The remainder in [0, n). */
  function RemEuclid(x: real, n: real): real
    requires n > 0.0
  {
    x - n * (x / n).Floor as real
  }

  /** The colour of sector `k`: chroma `c`, second largest component `x` before lightening, and `m` added to each. */
  function Wheel(k: int, c: real, x: real, m: real): Rgb {
    if k == 0 then Rgb(c + m, x + m, 0.0 + m)
    else if k == 1 then Rgb(x + m, c + m, 0.0 + m)
    else if k == 2 then Rgb(0.0 + m, c + m, x + m)
    else if k == 3 then Rgb(0.0 + m, x + m, c + m)
    else if k == 4 then Rgb(x + m, 0.0 + m, c + m)
    else Rgb(c + m, 0.0 + m, x + m)
  }

  function HsvToRgb(hsv: Hsv): Rgb {
    var h := RemEuclid(hsv.h, 360.0);
    var c := hsv.v * hsv.s;
    var x := c * (1.0 - Abs(RemEuclid(h / 60.0, 2.0) - 1.0));
    Wheel((h / 60.0).Floor, c, x, hsv.v - c)
  }

  function RgbToHsv(c: Rgb): Hsv {
    var max := Max(Max(c.r, c.g), c.b);
    var min := Min(Min(c.r, c.g), c.b);
    var d := max - min;
    var h :=
      if d == 0.0 then 0.0
      else if max == c.r then 60.0 * RemEuclid((c.g - c.b) / d, 6.0)
      else if max == c.g then 60.0 * ((c.b - c.r) / d + 2.0)
      else 60.0 * ((c.r - c.g) / d + 4.0);
    Hsv(RemEuclid(h, 360.0), if max == 0.0 then 0.0 else d / max, max)
  }

  // ----- Floors and remainders -----

  lemma Scaled(a: real, b: real, n: real)
    requires n > 0.0
    ensures a < b <==> a * n < b * n
    ensures a == b <==> a * n == b * n
  {
    if a < b {
      assert (b - a) * n > 0.0;
    } else if b < a {
      assert (a - b) * n > 0.0;
    }
  }

  lemma RemIs(x: real, n: real, k: int)
    requires n > 0.0 && k as real * n <= x < (k as real + 1.0) * n
    ensures RemEuclid(x, n) == x - n * k as real
  {
    FractionBelow(x, k as real, n);
    FractionBelow(x, k as real + 1.0, n);
  }

  /** Hue in sixths of the circle: the remainders drop out. */
  lemma HueInSixths(t: real, k: int)
    requires 0.0 <= t < 6.0 && 0 <= k <= 5 && k as real <= t < k as real + 1.0
    ensures RemEuclid(60.0 * t, 360.0) == 60.0 * t && 60.0 * t / 60.0 == t
    ensures t.Floor == k
    ensures RemEuclid(t, 2.0) == t - 2.0 * (k / 2) as real
  {
    RemIs(60.0 * t, 360.0, 0);
    RemIs(t, 2.0, k / 2);
  }

  /** How far the middle component is above the least, as a fraction of the chroma. */
  function Ramp(t: real, k: int): real { 1.0 - Abs(t - 2.0 * (k / 2) as real - 1.0) }

  lemma RampIs(t: real, k: int)
    requires 0 <= k <= 5 && k as real <= t < k as real + 1.0
    ensures Ramp(t, k) == if k % 2 == 0 then t - k as real else k as real + 1.0 - t
    ensures 0.0 <= Ramp(t, k) <= 1.0
  {}

  lemma ColorInSixths(t: real, k: int, s: real, v: real, c: real)
    requires 0.0 <= t < 6.0 && 0 <= k <= 5 && k as real <= t < k as real + 1.0 && v * s == c
    ensures HsvToRgb(Hsv(60.0 * t, s, v)) == Wheel(k, c, c * Ramp(t, k), v - c)
  {
    HueInSixths(t, k);
  }

  lemma Quotient(p: real, q: real, d: real)
    requires d > 0.0 && p == q * d
    ensures p / d == q
  {
    Scaled(p / d, q, d);
  }

  // ----- RGB to HSV and back -----

  lemma Fraction(p: real, d: real)
    requires d > 0.0
    ensures (0.0 <= p <==> 0.0 <= p / d) && (p < d <==> p / d < 1.0) && (p <= d <==> p / d <= 1.0)
    ensures -d <= p <==> -1.0 <= p / d
  {
    FractionBelow(p, 0.0, d);
    FractionBelow(p, -1.0, d);
    Scaled(p / d, 1.0, d);
  }

  lemma FractionBelow(p: real, l: real, d: real)
    requires d > 0.0
    ensures p < l * d <==> p / d < l
  {
    Scaled(p / d, l, d);
  }

  /** The hue of a colour that is not grey, as its sixth and place within it. */
  function Sixths(c: Rgb, d: real): real
    requires d > 0.0
  {
    if c.r >= c.g && c.r >= c.b then (if c.g >= c.b then (c.g - c.b) / d else (c.g - c.b) / d + 6.0)
    else if c.g >= c.b then (c.b - c.r) / d + 2.0
    else (c.r - c.g) / d + 4.0
  }

  function Chroma(c: Rgb): real { Max(Max(c.r, c.g), c.b) - Min(Min(c.r, c.g), c.b) }

  lemma SixthsRange(c: Rgb)
    requires Chroma(c) > 0.0
    ensures 0.0 <= Sixths(c, Chroma(c)) < 6.0
  {
    var d := Chroma(c);
    Fraction(c.g - c.b, d);
    Fraction(c.b - c.r, d);
    Fraction(c.r - c.g, d);
  }

  lemma HueIsSixths(c: Rgb)
    requires Chroma(c) > 0.0
    ensures RgbToHsv(c).h == 60.0 * Sixths(c, Chroma(c))
  {
    var d := Chroma(c);
    SixthsRange(c);
    var t := Sixths(c, d);
    RemIs(60.0 * t, 360.0, 0);
    if c.r >= c.g && c.r >= c.b {
      Fraction(c.g - c.b, d);
      if c.g >= c.b {
        RemIs((c.g - c.b) / d, 6.0, 0);
      } else {
        RemIs((c.g - c.b) / d, 6.0, -1);
      }
    }
  }

  predicate InCube(c: Rgb) { 0.0 <= c.r <= 1.0 && 0.0 <= c.g <= 1.0 && 0.0 <= c.b <= 1.0 }

  /** The ramp, scaled by the chroma, is the distance of the middle component from the least. */
  lemma MiddleComponent(c: Rgb, d: real, t: real, k: int)
    requires d == Chroma(c) > 0.0 && t == Sixths(c, d) && 0 <= k <= 5 && k as real <= t < k as real + 1.0
    ensures d * Ramp(t, k) == if k == 0 then c.g - c.b else if k == 1 then c.r - c.b else if k == 2 then c.b - c.r
                              else if k == 3 then c.g - c.r else if k == 4 then c.r - c.g else c.b - c.g
  {
    RampIs(t, k);
    Fraction(c.g - c.b, d);
    Fraction(c.b - c.r, d);
    Fraction(c.r - c.g, d);
  }

  /** Which components are greatest and least in each sixth. */
  lemma SixthShape(c: Rgb, d: real, t: real, k: int)
    requires d == Chroma(c) > 0.0 && t == Sixths(c, d) && 0 <= k <= 5 && k as real <= t < k as real + 1.0
    ensures var max, min := Max(Max(c.r, c.g), c.b), Min(Min(c.r, c.g), c.b);
            && max == (if k == 0 || k == 5 then c.r else if k <= 2 then c.g else c.b)
            && min == (if k <= 1 then c.b else if k <= 3 then c.r else c.g)
  {
    Fraction(c.g - c.b, d);
    Fraction(c.b - c.r, d);
    Fraction(c.r - c.g, d);
  }

  lemma SixthsBack(c: Rgb, v: real, s: real)
    requires Chroma(c) > 0.0 && v == Max(Max(c.r, c.g), c.b) && v * s == Chroma(c)
    ensures HsvToRgb(Hsv(60.0 * Sixths(c, Chroma(c)), s, v)) == c
  {
    var d := Chroma(c);
    var t := Sixths(c, d);
    SixthsRange(c);
    var k := t.Floor;
    ColorInSixths(t, k, s, v, d);
    SixthShape(c, d, t, k);
    MiddleComponent(c, d, t, k);
  }

  /** Every colour of the unit cube, greys and sector boundaries included, survives RGB to HSV to RGB. */
  lemma RgbSurvives(c: Rgb)
    requires InCube(c)
    ensures HsvToRgb(RgbToHsv(c)) == c
  {
    if Chroma(c) == 0.0 {
      GreySurvives(c, c.r);
    } else {
      var v, d := Max(Max(c.r, c.g), c.b), Chroma(c);
      ColourfulSurvives(c, v, d, d / v);
    }
  }

  lemma ColourfulSurvives(c: Rgb, v: real, d: real, s: real)
    requires d == Chroma(c) > 0.0 && v == Max(Max(c.r, c.g), c.b) && v > 0.0 && s == d / v
    ensures HsvToRgb(RgbToHsv(c)) == c
  {
    HueIsSixths(c);
    assert RgbToHsv(c) == Hsv(60.0 * Sixths(c, d), s, v);
    SixthsBack(c, v, s);
  }

  lemma GreySurvives(c: Rgb, v: real)
    requires 0.0 <= v && c == Rgb(v, v, v)
    ensures HsvToRgb(RgbToHsv(c)) == c
  {
    RemIs(0.0, 360.0, 0);
    ColorInSixths(0.0, 0, 0.0, v, 0.0);
    RampIs(0.0, 0);
  }

  // ----- HSV to RGB and back -----

  /** `x` is the share `w` of the chroma `d`, and so are the differences it takes part in. */
  predicate IsShare(x: real, w: real, d: real)
    requires d > 0.0
  {
    && 0.0 <= x <= d && (x == 0.0 <==> w == 0.0) && (x == d <==> w == 1.0)
    && x / d == w && (0.0 - x) / d == -w && (d - x) / d == 1.0 - w && (x - d) / d == w - 1.0
    && d / d == 1.0 && (-d) / d == -1.0 && 0.0 / d == 0.0
  }

  lemma ShareOf(x: real, w: real, d: real)
    requires d > 0.0 && 0.0 <= w <= 1.0 && x == d * w
    ensures IsShare(x, w, d)
  {
    Scaled(w, 0.0, d);
    Scaled(w, 1.0, d);
    Quotient(x, w, d);
    Quotient(0.0 - x, -w, d);
    Quotient(d - x, 1.0 - w, d);
    Quotient(x - d, w - 1.0, d);
  }

  lemma WheelToHsv(t: real, k: int, d: real, x: real, s: real, v: real)
    requires 0.0 <= t < 6.0 && 0 <= k <= 5 && k as real <= t < k as real + 1.0 && d > 0.0 && v > 0.0
    requires IsShare(x, Ramp(t, k), d) && d == s * v
    ensures RgbToHsv(Wheel(k, d, x, v - d)) == Hsv(60.0 * t, s, v)
  {
    HueIsSixths(Wheel(k, d, x, v - d));
    Quotient(d, s, v);
  }

  /** Every hue, with a saturation and a value, survives HSV to RGB to HSV. */
  lemma HsvSurvives(h: real, s: real, v: real)
    requires 0.0 <= h < 360.0 && 0.0 < s <= 1.0 && 0.0 < v <= 1.0
    ensures RgbToHsv(HsvToRgb(Hsv(h, s, v))) == Hsv(h, s, v)
  {
    var t := h / 60.0;
    HsvInSixthsSurvives(t, t.Floor, s, v, v * s);
  }

  lemma HsvInSixthsSurvives(t: real, k: int, s: real, v: real, d: real)
    requires 0.0 <= t < 6.0 && 0 <= k <= 5 && k as real <= t < k as real + 1.0 && 0.0 < s && 0.0 < v && d == v * s
    ensures RgbToHsv(HsvToRgb(Hsv(60.0 * t, s, v))) == Hsv(60.0 * t, s, v)
  {
    WheelSurvives(t, k, s, v, d, d * Ramp(t, k));
    ColorInSixths(t, k, s, v, d);
  }

  lemma WheelSurvives(t: real, k: int, s: real, v: real, d: real, x: real)
    requires 0.0 <= t < 6.0 && 0 <= k <= 5 && k as real <= t < k as real + 1.0 && 0.0 < s && 0.0 < v && d == v * s
    requires x == d * Ramp(t, k)
    ensures RgbToHsv(Wheel(k, d, x, v - d)) == Hsv(60.0 * t, s, v)
  {
    assert d > 0.0 by { Scaled(0.0, s, v); }
    assert IsShare(x, Ramp(t, k), d) by {
      RampIs(t, k);
      ShareOf(x, Ramp(t, k), d);
    }
    WheelToHsv(t, k, d, x, s, v);
  }

  /** A sixth of the circle apart, full saturation and value: red, yellow, green, cyan, blue, magenta. */
  lemma HuesAreTheColours(k: int)
    requires 0 <= k <= 5
    ensures HsvToRgb(Hsv(60.0 * k as real, 1.0, 1.0))
         == Rgb(if k == 0 || k == 1 || k == 5 then 1.0 else 0.0, if 1 <= k <= 3 then 1.0 else 0.0,
                if 3 <= k <= 5 then 1.0 else 0.0)
  {
    ColorInSixths(k as real, k, 1.0, 1.0, 1.0);
    RampIs(k as real, k);
  }

  /** Without saturation a colour is the grey of its value, whatever its hue. */
  lemma GreyHasNoHue(hsv: Hsv)
    requires hsv.s == 0.0
    ensures HsvToRgb(hsv) == Rgb(hsv.v, hsv.v, hsv.v)
  {}
}
