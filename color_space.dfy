/**
 * Conversion between RGB colors (integer channels in [0, 255]) and HSL
 * colors (hue, saturation and lightness in [0, 1]), as done by rgbToHsl,
 * hslToRgb and its inner hue2rgb in Randomize-Colors.js.  The HSL-to-RGB
 * direction follows the algorithm of section 4.2.4 of CSS Color Module
 * Level 3.
 *
 * Arithmetic is exact (Dafny `real`), where the script computes with
 * IEEE-754 doubles; Math.round(x) is Floor(x + 0.5).
 */
module ColorSpace {

  import opened RealArith

  /** A color as the host stores it: red, green and blue channels. */
  datatype Rgb = Rgb(red: int, green: int, blue: int)

  /** A color in the working representation: hue, saturation, lightness. */
  datatype Hsl = Hsl(h: real, s: real, l: real)

  predicate IsChannel(c: int) { 0 <= c <= 255 }

  /** Every channel is an integer in [0, 255]. */
  predicate InGamut(c: Rgb) { IsChannel(c.red) && IsChannel(c.green) && IsChannel(c.blue) }

  predicate IsUnit(x: real) { 0.0 <= x <= 1.0 }

  /** Math.max of three numbers. */
  function Max3(a: real, b: real, c: real): (m: real)
    ensures a <= m && b <= m && c <= m
    ensures m == a || m == b || m == c
  {
    if a >= b && a >= c then a else if b >= c then b else c
  }

  /** Math.min of three numbers. */
  function Min3(a: real, b: real, c: real): (m: real)
    ensures m <= a && m <= b && m <= c
    ensures m == a || m == b || m == c
  {
    if a <= b && a <= c then a else if b <= c then b else c
  }

  /** Math.round: the nearest integer, halves rounded up. */
  function Round(x: real): (n: int)
    ensures x - 0.5 < n as real <= x + 0.5
  {
    (x + 0.5).Floor
  }

  /** A channel scaled from [0, 255] to [0, 1]. */
  function Normalize(c: int): (r: real)
    ensures IsChannel(c) ==> IsUnit(r)
  {
    c as real / 255.0
  }

  // The three hue formulas of rgbToHsl, in sixths of a turn, chosen by
  // which channel is the maximum; d is the maximum minus the minimum.

  function RedHue(rn: real, gn: real, bn: real, d: real): (h: real)
    requires d != 0.0
  {
    (gn - bn) / d + (if gn < bn then 6.0 else 0.0)
  }

  function GreenHue(rn: real, gn: real, bn: real, d: real): (h: real)
    requires d != 0.0
  {
    (bn - rn) / d + 2.0
  }

  function BlueHue(rn: real, gn: real, bn: real, d: real): (h: real)
    requires d != 0.0
  {
    (rn - gn) / d + 4.0
  }

  /** The saturation formula of rgbToHsl, for a color that is not a gray. */
  function Saturation(max: real, min: real): (s: real)
    requires 0.0 <= min < max <= 1.0
    ensures 0.0 < s <= 1.0
  {
    var d, l := max - min, (max + min) / 2.0;
    if l > 0.5 then
      Ratio(d, 2.0 - max - min);
      d / (2.0 - max - min)
    else
      Ratio(d, max + min);
      d / (max + min)
  }

  /**
   * rgbToHsl.  The hue is a fraction of a full turn and never reaches 1;
   * saturation is 0 exactly for grays, which come out as (0, 0, x/255).
   */
  function RgbToHsl(r: int, g: int, b: int): (c: Hsl)
    requires IsChannel(r) && IsChannel(g) && IsChannel(b)
    ensures 0.0 <= c.h < 1.0 && IsUnit(c.s) && IsUnit(c.l)
    ensures c.s == 0.0 <==> r == g == b
    ensures r == g == b ==> c == Hsl(0.0, 0.0, Normalize(r))
  {
    var rn, gn, bn := Normalize(r), Normalize(g), Normalize(b);
    var max, min := Max3(rn, gn, bn), Min3(rn, gn, bn);
    var l := (max + min) / 2.0;
    if max == min then
      Hsl(0.0, 0.0, l)
    else
      var d := max - min;
      var h :=
        if max == rn then RedHue(rn, gn, bn, d)
        else if max == gn then GreenHue(rn, gn, bn, d)
        else BlueHue(rn, gn, bn, d);
      HueRange(rn, gn, bn);
      Hsl(h / 6.0, Saturation(max, min), l)
  }

  /**
   * Every divisor rgbToHsl uses is positive once the color is not a gray:
   * d, and the saturation denominator of the branch that is taken.
   */
  lemma DivisorsPositive(r: int, g: int, b: int)
    requires IsChannel(r) && IsChannel(g) && IsChannel(b)
    requires !(r == g == b)
    ensures var max, min := Max3(Normalize(r), Normalize(g), Normalize(b)), Min3(Normalize(r), Normalize(g), Normalize(b));
      max - min > 0.0 &&
      ((max + min) / 2.0 > 0.5 ==> 2.0 - max - min > 0.0) &&
      ((max + min) / 2.0 <= 0.5 ==> max + min > 0.0)
  {
  }

  /** Whichever channel is the maximum, its hue formula lies in [0, 6). */
  lemma HueRange(rn: real, gn: real, bn: real)
    requires IsUnit(rn) && IsUnit(gn) && IsUnit(bn)
    requires Max3(rn, gn, bn) != Min3(rn, gn, bn)
    ensures var max, d := Max3(rn, gn, bn), Max3(rn, gn, bn) - Min3(rn, gn, bn);
      (max == rn ==> 0.0 <= RedHue(rn, gn, bn, d) < 6.0) &&
      (max == gn ==> 0.0 <= GreenHue(rn, gn, bn, d) < 6.0) &&
      (max == bn ==> 0.0 <= BlueHue(rn, gn, bn, d) < 6.0)
  {
    var max, min := Max3(rn, gn, bn), Min3(rn, gn, bn);
    var d := max - min;
    Ratio(gn - bn, d);
    Ratio(bn - rn, d);
    Ratio(rn - gn, d);
  }

  /**
   * When two or three channels tie for the maximum, their hue formulas
   * agree.
   */
  lemma TiedHuesAgree(rn: real, gn: real, bn: real)
    requires IsUnit(rn) && IsUnit(gn) && IsUnit(bn)
    requires Max3(rn, gn, bn) != Min3(rn, gn, bn)
    ensures var max, d := Max3(rn, gn, bn), Max3(rn, gn, bn) - Min3(rn, gn, bn);
      (max == rn == gn ==> RedHue(rn, gn, bn, d) == GreenHue(rn, gn, bn, d)) &&
      (max == rn == bn ==> RedHue(rn, gn, bn, d) == BlueHue(rn, gn, bn, d)) &&
      (max == gn == bn ==> GreenHue(rn, gn, bn, d) == BlueHue(rn, gn, bn, d))
  {
    var max, min := Max3(rn, gn, bn), Min3(rn, gn, bn);
    var d := max - min;
    if max == rn == gn {
      Ratio(gn - bn, d);
      Ratio(bn - rn, d);
    }
    if max == rn == bn {
      Ratio(gn - bn, d);
      Ratio(rn - gn, d);
    }
    if max == gn == bn {
      Ratio(bn - rn, d);
      Ratio(rn - gn, d);
    }
  }

  /**
   * The order of the cases of the hue switch does not matter: the hue
   * rgbToHsl returns is given by the formula of ANY maximal channel.
   */
  lemma HueFromAnyMaximalChannel(r: int, g: int, b: int)
    requires IsChannel(r) && IsChannel(g) && IsChannel(b)
    requires !(r == g == b)
    ensures var rn, gn, bn := Normalize(r), Normalize(g), Normalize(b);
      var max, d := Max3(rn, gn, bn), Max3(rn, gn, bn) - Min3(rn, gn, bn);
      d > 0.0 &&
      (max == rn ==> RgbToHsl(r, g, b).h == RedHue(rn, gn, bn, d) / 6.0) &&
      (max == gn ==> RgbToHsl(r, g, b).h == GreenHue(rn, gn, bn, d) / 6.0) &&
      (max == bn ==> RgbToHsl(r, g, b).h == BlueHue(rn, gn, bn, d) / 6.0)
  {
    TiedHuesAgree(Normalize(r), Normalize(g), Normalize(b));
  }

  /**
   * The single wrap step of hue2rgb: one turn is added to a negative
   * offset and one taken from an offset above 1.
   */
  function Wrap(t: real): (w: real)
    ensures -1.0 <= t <= 2.0 ==> IsUnit(w)
  {
    var t1 := if t < 0.0 then t + 1.0 else t;
    if t1 > 1.0 then t1 - 1.0 else t1
  }

  /** hue2rgb: one channel from a hue offset t, interpolating between p and q. */
  function Hue2Rgb(p: real, q: real, t: real): (v: real)
  {
    var w := Wrap(t);
    if w < 1.0 / 6.0 then p + (q - p) * 6.0 * w
    else if w < 1.0 / 2.0 then q
    else if w < 2.0 / 3.0 then p + (q - p) * (2.0 / 3.0 - w) * 6.0
    else p
  }

  /**
   * After its single wrap step, hue2rgb returns a value between p and q
   * for any offset from -1 on.
   */
  lemma Hue2RgbBetween(p: real, q: real, t: real)
    requires p <= q && -1.0 <= t
    ensures p <= Hue2Rgb(p, q, t) <= q
  {
    var w := Wrap(t);
    if w < 1.0 / 6.0 {
      MulNonnegative(q - p, w);
      MulNonnegative(q - p, 1.0 / 6.0 - w);
    } else if w < 1.0 / 2.0 {
    } else if w < 2.0 / 3.0 {
      MulNonnegative(q - p, 2.0 / 3.0 - w);
      MulNonnegative(q - p, w - 1.0 / 2.0);
    }
  }

  /** The upper interpolation bound q of hslToRgb. */
  function Upper(s: real, l: real): (q: real)
  {
    if l < 0.5 then l * (1.0 + s) else l + s - l * s
  }

  /**
   * hslToRgb.  For h, s and l in [0, 1] every channel is an integer in
   * [0, 255]; with no saturation all three channels are the rounded
   * lightness.
   */
  function HslToRgb(h: real, s: real, l: real): (c: Rgb)
    ensures IsUnit(h) && IsUnit(s) && IsUnit(l) ==> InGamut(c)
    ensures s == 0.0 ==> c.red == c.green == c.blue == Round(l * 255.0)
  {
    if s == 0.0 then
      var v := Round(l * 255.0);
      Rgb(v, v, v)
    else
      var q := Upper(s, l);
      var p := 2.0 * l - q;
      assert IsUnit(h) && IsUnit(s) && IsUnit(l) ==>
        IsUnit(Hue2Rgb(p, q, h + 1.0 / 3.0)) && IsUnit(Hue2Rgb(p, q, h)) && IsUnit(Hue2Rgb(p, q, h - 1.0 / 3.0)) by {
        if IsUnit(h) && IsUnit(s) && IsUnit(l) {
          BoundsOrdered(s, l);
          Hue2RgbBetween(p, q, h + 1.0 / 3.0);
          Hue2RgbBetween(p, q, h);
          Hue2RgbBetween(p, q, h - 1.0 / 3.0);
        }
      }
      Rgb(Round(Hue2Rgb(p, q, h + 1.0 / 3.0) * 255.0),
          Round(Hue2Rgb(p, q, h) * 255.0),
          Round(Hue2Rgb(p, q, h - 1.0 / 3.0) * 255.0))
  }

  /** For s and l in [0, 1]: 0 <= p <= q <= 1. */
  lemma BoundsOrdered(s: real, l: real)
    requires IsUnit(s) && IsUnit(l)
    ensures 0.0 <= 2.0 * l - Upper(s, l) <= Upper(s, l) <= 1.0
  {
    MulNonnegative(l, s);
    MulNonnegative(l, 1.0 - s);
    MulNonnegative(1.0 - l, 1.0 - s);
    MulNonnegative(1.0 - l, s);
  }

  // ---------------------------------------------------------------------
  // Round trip.  With exact arithmetic hslToRgb undoes rgbToHsl exactly:
  // q comes back as the largest normalized channel, p as the smallest, and
  // each hue offset lands on the segment of hue2rgb that returns its own
  // channel.  One lemma per hue sector and ordering of the two others.

  /** Upper(s, l) of the saturation and lightness of rgbToHsl is the maximum. */
  lemma UpperIsMax(max: real, min: real)
    requires 0.0 <= min < max <= 1.0
    ensures Upper(Saturation(max, min), (max + min) / 2.0) == max
  {
    if (max + min) / 2.0 > 0.5 {
      Ratio(max - min, 2.0 - max - min);
    } else {
      Ratio(max - min, max + min);
    }
  }

  /** Red is the maximum, green at least blue: hues in [0, 1/6]. */
  lemma RedSectorRising(R: real, G: real, B: real)
    requires 0.0 <= B <= G <= R <= 1.0 && B < R
    ensures var h := RedHue(R, G, B, R - B) / 6.0;
      Hue2Rgb(B, R, h + 1.0 / 3.0) == R &&
      Hue2Rgb(B, R, h) == G &&
      Hue2Rgb(B, R, h - 1.0 / 3.0) == B
  {
    Ratio(G - B, R - B);
  }

  /** Red is the maximum, green below blue: hues in (5/6, 1). */
  lemma RedSectorFalling(R: real, G: real, B: real)
    requires 0.0 <= G < B <= R <= 1.0
    ensures var h := RedHue(R, G, B, R - G) / 6.0;
      Hue2Rgb(G, R, h + 1.0 / 3.0) == R &&
      Hue2Rgb(G, R, h) == G &&
      Hue2Rgb(G, R, h - 1.0 / 3.0) == B
  {
    Ratio(G - B, R - G);
  }

  /** Green is the maximum, blue the minimum: hues in [1/6, 1/3). */
  lemma GreenSectorBlueLow(R: real, G: real, B: real)
    requires 0.0 <= B < R < G <= 1.0
    ensures var h := GreenHue(R, G, B, G - B) / 6.0;
      Hue2Rgb(B, G, h + 1.0 / 3.0) == R &&
      Hue2Rgb(B, G, h) == G &&
      Hue2Rgb(B, G, h - 1.0 / 3.0) == B
  {
    Ratio(B - R, G - B);
  }

  /** Green is the maximum, red the minimum: hues in [1/3, 1/2]. */
  lemma GreenSectorRedLow(R: real, G: real, B: real)
    requires 0.0 <= R <= B <= G <= 1.0 && R < G
    ensures var h := GreenHue(R, G, B, G - R) / 6.0;
      Hue2Rgb(R, G, h + 1.0 / 3.0) == R &&
      Hue2Rgb(R, G, h) == G &&
      Hue2Rgb(R, G, h - 1.0 / 3.0) == B
  {
    Ratio(B - R, G - R);
  }

  /** Blue is the maximum, green the minimum: hues in (2/3, 5/6]. */
  lemma BlueSectorGreenLow(R: real, G: real, B: real)
    requires 0.0 <= G < R < B <= 1.0
    ensures var h := BlueHue(R, G, B, B - G) / 6.0;
      Hue2Rgb(G, B, h + 1.0 / 3.0) == R &&
      Hue2Rgb(G, B, h) == G &&
      Hue2Rgb(G, B, h - 1.0 / 3.0) == B
  {
    Ratio(R - G, B - G);
  }

  /** Blue is the maximum, red the minimum: hues in [1/2, 2/3]. */
  lemma BlueSectorRedLow(R: real, G: real, B: real)
    requires 0.0 <= R <= G < B <= 1.0
    ensures var h := BlueHue(R, G, B, B - R) / 6.0;
      Hue2Rgb(R, B, h + 1.0 / 3.0) == R &&
      Hue2Rgb(R, B, h) == G &&
      Hue2Rgb(R, B, h - 1.0 / 3.0) == B
  {
    Ratio(R - G, B - R);
  }

  /** A channel scaled to [0, 1] and back is rounded to itself. */
  lemma RescaleChannel(c: int)
    ensures Round(Normalize(c) * 255.0) == c
  {
  }

  /**
   * For a color that is not a gray, hue2rgb at the three hue offsets of
   * rgbToHsl's hue, between its minimum and maximum channel, gives back the
   * three normalized channels.
   */
  lemma ChannelsRecovered(r: int, g: int, b: int)
    requires IsChannel(r) && IsChannel(g) && IsChannel(b)
    requires !(r == g == b)
    ensures var rn, gn, bn := Normalize(r), Normalize(g), Normalize(b);
      var max, min, h := Max3(rn, gn, bn), Min3(rn, gn, bn), RgbToHsl(r, g, b).h;
      Hue2Rgb(min, max, h + 1.0 / 3.0) == rn &&
      Hue2Rgb(min, max, h) == gn &&
      Hue2Rgb(min, max, h - 1.0 / 3.0) == bn
  {
    var rn, gn, bn := Normalize(r), Normalize(g), Normalize(b);
    var max := Max3(rn, gn, bn);
    if max == rn {
      if gn >= bn { RedSectorRising(rn, gn, bn); } else { RedSectorFalling(rn, gn, bn); }
    } else if max == gn {
      if bn < rn { GreenSectorBlueLow(rn, gn, bn); } else { GreenSectorRedLow(rn, gn, bn); }
    } else {
      if gn < rn { BlueSectorGreenLow(rn, gn, bn); } else { BlueSectorRedLow(rn, gn, bn); }
    }
  }

  /**
   * Converting an RGB color to HSL and back gives the same color: with
   * exact arithmetic the round trip is the identity, with no rounding
   * error at all.
   */
  lemma RoundTrip(r: int, g: int, b: int)
    requires IsChannel(r) && IsChannel(g) && IsChannel(b)
    ensures var c := RgbToHsl(r, g, b); HslToRgb(c.h, c.s, c.l) == Rgb(r, g, b)
  {
    RescaleChannel(r);
    RescaleChannel(g);
    RescaleChannel(b);
    if !(r == g == b) {
      var rn, gn, bn := Normalize(r), Normalize(g), Normalize(b);
      var max, min := Max3(rn, gn, bn), Min3(rn, gn, bn);
      var c := RgbToHsl(r, g, b);
      assert c.s == Saturation(max, min) && c.l == (max + min) / 2.0;
      UpperIsMax(max, min);
      ChannelsRecovered(r, g, b);
    }
  }
}
