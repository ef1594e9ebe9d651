/** The colour-space helpers of the density-pixel estimator: the full-range
    YCbCr transform, the RGB to HSL transform that turns a pixel into the
    3-vector the estimators work on, and the float `min`/`max` helpers. */
module ColorSpace {
  import opened LinearAlgebra

  /** An 8-bit colour channel, as in `sf::Color`. */
  type Byte = x: int | 0 <= x < 256

  /** An opaque (r, g, b) pixel; the alpha channel plays no part. */
  datatype Color = Color(r: Byte, g: Byte, b: Byte)

  // ----- min / max -----

  /** `max(a, b)`: `a` when `a > b`, else `b`. */
  function Max2(a: real, b: real): (m: real)
    ensures m >= a && m >= b
    ensures m == a || m == b
  {
    if a > b then a else b
  }

  /** `max(a, b, c) = max(a, max(b, c))`. */
  function Max3(a: real, b: real, c: real): (m: real)
    ensures m >= a && m >= b && m >= c
    ensures m == a || m == b || m == c
  {
    Max2(a, Max2(b, c))
  }

  /** `min(a, b)`: `a` when `a < b`, else `b`. */
  function Min2(a: real, b: real): (m: real)
    ensures m <= a && m <= b
    ensures m == a || m == b
  {
    if a < b then a else b
  }

  /** `min(a, b, c) = min(a, min(b, c))`. */
  function Min3(a: real, b: real, c: real): (m: real)
    ensures m <= a && m <= b && m <= c
    ensures m == a || m == b || m == c
  {
    Min2(a, Min2(b, c))
  }

  // ----- YCbCr -----

  /** `RGBtoYCbCr`: the full-range luma/chroma transform with the rounded
      coefficients of the source. Grey maps to (grey, 128, 128); luma stays
      in [0, 255] and each chroma channel in [0.5, 255.5]. */
  function RgbToYCbCr(col: Color): (v: Vector3)
    ensures col.r == col.g == col.b ==> v == Vector3(col.r as real, 128.0, 128.0)
    ensures 0.0 <= v.x <= 255.0
    ensures 0.5 <= v.y <= 255.5 && 0.5 <= v.z <= 255.5
  {
    var r := col.r as real;
    var g := col.g as real;
    var b := col.b as real;
    Vector3(0.299 * r + 0.587 * g + 0.114 * b,
            128.0 - 0.1687 * r - 0.3313 * g + 0.5 * b,
            128.0 + 0.5 * r - 0.4187 * g - 0.0813 * b)
  }

  // ----- HSL -----

  /** A channel scaled to [0, 1]. */
  function Unit(c: Byte): (u: real)
    ensures 0.0 <= u <= 1.0
    ensures u * 255.0 == c as real
  {
    c as real / 255.0
  }

  /** The hue in degrees: 0 for a grey pixel, otherwise the sector formula of
      whichever channel is the maximum, tested in the order R, G, B. The last
      `else` keeps the initial value 0, as the source does. */
  function Hue(R: real, G: real, B: real, V: real, C: real): real
  {
    if C == 0.0 then 0.0
    else if V == R then 60.0 * (G - B) / C
    else if V == G then 60.0 * (2.0 + (B - R) / C)
    else if V == B then 60.0 * (4.0 + (R - G) / C)
    else 0.0
  }

  /** The HSL saturation: 0 when L is 0 or 1, otherwise `(V - L) / min(L, 1 - L)`. */
  function Saturation(V: real, L: real): real
  {
    if L == 0.0 || L == 1.0 then 0.0 else (V - L) / Min2(L, 1.0 - L)
  }

  /** `RGBtoHSL`: (hue / 360, saturation, lightness). */
  function RgbToHsl(col: Color): (v: Vector3)
    ensures 0.0 <= v.z <= 1.0
    ensures 0.0 <= v.y <= 1.0
    ensures -1.0 / 6.0 <= v.x <= 5.0 / 6.0
    ensures col.r == col.g == col.b ==> v == Vector3(0.0, 0.0, Unit(col.r))
  {
    var R, G, B := Unit(col.r), Unit(col.g), Unit(col.b);
    var V := Max3(R, G, B);
    var C := V - Min3(R, G, B);
    var L := V - C / 2.0;
    HueBounds(R, G, B);
    SaturationBounds(R, G, B);
    Vector3(Hue(R, G, B, V, C) / 360.0, Saturation(V, L), L)
  }

  /** `x / c` lies in [lo, hi] when `lo·c <= x <= hi·c` and `c > 0`. */
  lemma QuotientBetween(x: real, c: real, lo: real, hi: real)
    requires c > 0.0
    requires lo * c <= x <= hi * c
    ensures lo <= x / c <= hi
  {
    assert x == (x / c) * c;
  }

  /** The hue lies in [-60, 300] degrees: no wrap of negative hues happens. */
  lemma HueBounds(R: real, G: real, B: real)
    ensures var V := Max3(R, G, B); var C := V - Min3(R, G, B);
      -60.0 <= Hue(R, G, B, V, C) <= 300.0
  {
    var V := Max3(R, G, B);
    var m := Min3(R, G, B);
    var C := V - m;
    if C != 0.0 {
      if V == R {
        QuotientBetween(60.0 * (G - B), C, -60.0, 60.0);
      } else if V == G {
        QuotientBetween(B - R, C, -1.0, 1.0);
      } else if V == B {
        QuotientBetween(R - G, C, -1.0, 1.0);
      }
    }
  }

  /** For channels in [0, 1], the lightness and the saturation lie in [0, 1]. */
  lemma SaturationBounds(R: real, G: real, B: real)
    requires 0.0 <= R <= 1.0 && 0.0 <= G <= 1.0 && 0.0 <= B <= 1.0
    ensures var V := Max3(R, G, B); var L := V - (V - Min3(R, G, B)) / 2.0;
      0.0 <= L <= 1.0 && 0.0 <= Saturation(V, L) <= 1.0
  {
    var V := Max3(R, G, B);
    var m := Min3(R, G, B);
    var L := V - (V - m) / 2.0;
    if !(L == 0.0 || L == 1.0) {
      QuotientBetween(V - L, Min2(L, 1.0 - L), 0.0, 1.0);
    }
  }

  /** A chromatic pixel's maximum is one of its channels, so the final `else`
      of the hue chain is never taken. */
  lemma HueChainExhaustive(col: Color)
    ensures var R, G, B := Unit(col.r), Unit(col.g), Unit(col.b);
      var V := Max3(R, G, B);
      V == R || V == G || V == B
  {
  }
}
