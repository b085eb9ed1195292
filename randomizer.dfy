/**
 * randomize_color of Randomize-Colors.js: a color object is converted to
 * HSL, each of hue, saturation and lightness is jittered with its own
 * strength, and the result is converted back and written into the red,
 * green and blue fields of the same object.
 *
 * Math.random() is a RandomSource: a given stream of draws and a count of
 * how many of them have been taken.  The strengths, global variables in the
 * script, are passed in.
 */
module Randomizer {

  import opened ColorSpace
  import opened Jitter

  /** The strengths of one run: strength_h, strength_s and strength_l. */
  datatype Strengths = Strengths(hue: real, saturation: real, lightness: real)

  const NoStrengths := Strengths(0.0, 0.0, 0.0)

  /** The draws of one randomize_color call: two per HSL channel. */
  const DrawsPerColor: nat := 6

  /** Math.random(): successive draws from a stream fixed in advance. */
  class RandomSource {
    const draws: nat -> real
    var used: nat

    constructor (draws: nat -> real)
      ensures this.draws == draws && used == 0
    {
      this.draws := draws;
      used := 0;
    }

    /** The next draw; each call takes one more from the stream. */
    method Next() returns (u: real)
      modifies this
      ensures u == draws(old(used))
      ensures used == old(used) + 1
    {
      u := draws(used);
      used := used + 1;
    }
  }

  /** An RGB color object whose channels the script overwrites. */
  class RgbColor {
    var red: int
    var green: int
    var blue: int

    constructor (c: Rgb)
      ensures Value() == c
    {
      red, green, blue := c.red, c.green, c.blue;
    }

    function Value(): Rgb
      reads this
    {
      Rgb(red, green, blue)
    }
  }

  /**
   * The color randomize_color writes, given the old color and the six
   * draws from position pos on: hue, then saturation, then lightness, each
   * with its first draw before its second.  The result is again a color
   * with channels in [0, 255].
   */
  function RandomizedColor(c: Rgb, st: Strengths, draws: nat -> real, pos: nat): (r: Rgb)
    requires InGamut(c)
    ensures InGamut(r)
  {
    var hsl := RgbToHsl(c.red, c.green, c.blue);
    var h := RandomizeNumber(hsl.h, st.hue, 0.0, 1.0, draws(pos), draws(pos + 1));
    var s := RandomizeNumber(hsl.s, st.saturation, 0.0, 1.0, draws(pos + 2), draws(pos + 3));
    var l := RandomizeNumber(hsl.l, st.lightness, 0.0, 1.0, draws(pos + 4), draws(pos + 5));
    HslToRgb(h, s, l)
  }

  /**
   * randomize_color: takes six draws and overwrites red, green and blue of
   * the color object, and nothing else.
   */
  method RandomizeColor(obj: RgbColor, st: Strengths, rand: RandomSource)
    requires InGamut(obj.Value())
    modifies obj, rand
    ensures obj.Value() == RandomizedColor(old(obj.Value()), st, rand.draws, old(rand.used))
    ensures rand.used == old(rand.used) + DrawsPerColor
  {
    ghost var pos := rand.used;
    var hsl := RgbToHsl(obj.red, obj.green, obj.blue);
    var u1 := rand.Next();
    var u2 := rand.Next();
    var h := RandomizeNumber(hsl.h, st.hue, 0.0, 1.0, u1, u2);
    u1 := rand.Next();
    u2 := rand.Next();
    var s := RandomizeNumber(hsl.s, st.saturation, 0.0, 1.0, u1, u2);
    u1 := rand.Next();
    u2 := rand.Next();
    var l := RandomizeNumber(hsl.l, st.lightness, 0.0, 1.0, u1, u2);
    var rgb := HslToRgb(h, s, l);
    assert rgb == RandomizedColor(old(obj.Value()), st, rand.draws, pos);
    obj.red := rgb.red;
    obj.green := rgb.green;
    obj.blue := rgb.blue;
  }

  /**
   * With all three strengths 0 the color written is hslToRgb(rgbToHsl(c)),
   * which is c itself: the draws make no difference.
   */
  lemma NoStrengthsKeepColor(c: Rgb, draws: nat -> real, pos: nat)
    requires InGamut(c)
    ensures var hsl := RgbToHsl(c.red, c.green, c.blue);
      RandomizedColor(c, NoStrengths, draws, pos) == HslToRgb(hsl.h, hsl.s, hsl.l)
    ensures RandomizedColor(c, NoStrengths, draws, pos) == c
  {
    RoundTrip(c.red, c.green, c.blue);
  }
}
