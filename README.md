# Randomize Colors, modelled in Dafny

Randomize-Colors.js is an Adobe Illustrator script. It gives every selected
object slightly different colors. Fills and strokes are visited across the
whole selection. The objects are walked by `typename`:

- a group is entered;
- a compound path is entered;
- of a path item, the fill color is jittered if the path is `filled`, and the stroke color if it is `stroked`.

Jittering a color works as follows:

1. The color is converted from RGB to HSL (`rgbToHsl`).
2. Hue, saturation and lightness are each moved by a random amount, whose size grows with that channel's strength, and then clamped into [0, 1] (`randomize_number`).
3. The result is converted back (`hslToRgb` and its inner `hue2rgb`).
4. It is written into the `red`, `green` and `blue` of the same color object (`randomize_color`).

The project has six modules, one file each:

- `RealArith` (`arith.dfy`) holds the sign and ratio facts about real products and quotients that the other proofs use.
- `ColorSpace` (`color_space.dfy`) holds `rgbToHsl`, `hslToRgb` and `hue2rgb` as functions over exact reals, with their ranges. It proves that converting to HSL and back gives the original color exactly.
- `Jitter` (`jitter.dfy`) holds `randomize_number`. The two `Math.random()` draws are parameters, with the left operand drawn first.
- `Randomizer` (`randomizer.dfy`) holds:
  - the color object as a class `RgbColor` with mutable `red`, `green` and `blue`;
  - `Math.random()` as a class `RandomSource`, a fixed stream of draws plus a count of those taken;
  - `randomize_color` as a method. It is proved to write the color that the function `RandomizedColor` describes, and to take six draws.
- `ObjectTree` (`object_tree.dfy`) holds the object tree as a value (`Shape`) and the whole walk as a function `Walk`. It also holds lemmas on:
  - visit order;
  - draw count;
  - which colors change;
  - zero strength.
- `Walker` (`walker.dfy`) holds the script's own walk, as methods over items whose color objects are updated in place:
  - `process_unknown_object`;
  - `process_path_item`;
  - `process_compound_path`;
  - `process_group`;
  - the selection loop of `run`.

  Each method is proved to leave the tree as `Walk` says, and to take six draws for each color it randomizes.

The three loops of the script (`process_compound_path`, `process_group` and the selection loop of `run`) are the same loop. It is modelled once, as `Walker.ProcessInOrder`, and its body is `Walker.ProcessItemAt`.

Three facts about the code that are easy to misread:

- The jitter of `randomize_number` multiplies by the strength once, at Randomize-Colors.js:88, not by its square.
- In the achromatic case, `hslToRgb` returns `Math.round(l * 255)` on all three channels. It does not return `l` itself: line 60 sets the channels to `l`, and line 78 scales and rounds them.
- With exact arithmetic, `hslToRgb(rgbToHsl(c))` is `c` exactly. There is no off-by-one rounding.

The hue is clamped into [0, 1] like saturation and lightness (line 109). It is not wrapped around the color circle, so a hue near 0 or 1 is pushed only one way. The model keeps that behaviour.

## Model

| member | source | states |
|---|---|---|
| `ColorSpace.Max3` | Randomize-Colors.js:26 | Math.max of the three normalized channels is one of them and at least each of them. |
| `ColorSpace.Min3` | Randomize-Colors.js:26 | Math.min of the three normalized channels is one of them and at most each of them. |
| `ColorSpace.Normalize` | Randomize-Colors.js:25 | A channel in [0, 255] divided by 255 lies in [0, 1]. |
| `ColorSpace.RedHue` | Randomize-Colors.js:35 | The hue formula when red is maximal; its range is `HueRange` and its agreement with the other formulas on ties is `TiedHuesAgree`. |
| `ColorSpace.GreenHue` | Randomize-Colors.js:36 | The hue formula when green is maximal; its range is `HueRange` and its agreement on ties is `TiedHuesAgree`. |
| `ColorSpace.BlueHue` | Randomize-Colors.js:37 | The hue formula when blue is maximal; its range is `HueRange` and its agreement on ties is `TiedHuesAgree`. |
| `ColorSpace.Round` | Randomize-Colors.js:78 | Math.round gives the integer nearest to x, with halves rounded up: x - 1/2 < n <= x + 1/2. |
| `ColorSpace.RgbToHsl` | Randomize-Colors.js:24-43 | For channels in [0, 255]: 0 <= h < 1 and s, l in [0, 1]. s is 0 exactly when r = g = b, and a gray x gives exactly (0, 0, x/255). |
| `ColorSpace.Saturation` | Randomize-Colors.js:33 | For a color that is not a gray, the saturation of either branch is in (0, 1]. |
| `ColorSpace.DivisorsPositive` | Randomize-Colors.js:32-33 | For a color that is not a gray, d = max - min is positive, and so is the denominator of the saturation branch that is taken (2 - max - min, or max + min). |
| `ColorSpace.HueRange` | Randomize-Colors.js:34-39 | Whichever channel is the maximum, its hue formula lies in [0, 6), so h / 6 lies in [0, 1). |
| `ColorSpace.TiedHuesAgree` | Randomize-Colors.js:34-38 | When two or three channels tie for the maximum, their hue formulas give the same value. |
| `ColorSpace.HueFromAnyMaximalChannel` | Randomize-Colors.js:34-39 | The hue rgbToHsl returns equals the formula of any channel that is maximal, so the tie-breaking order of the switch (r first, then g) does not change the result. |
| `ColorSpace.Wrap` | Randomize-Colors.js:63-64 | The single wrap step of hue2rgb maps any offset in [-1, 2] into [0, 1]. |
| `ColorSpace.Hue2Rgb` | Randomize-Colors.js:62-69 | One wrap step, then the four-segment interpolation between p and q; its range is `Hue2RgbBetween`, and `ChannelsRecovered` shows it inverts rgbToHsl's hue. |
| `ColorSpace.Hue2RgbBetween` | Randomize-Colors.js:62-69 | For p <= q and an offset t >= -1, hue2rgb after its single wrap returns a value between p and q. |
| `ColorSpace.HslToRgb` | Randomize-Colors.js:56-79 | For h, s, l in [0, 1], every channel is an integer in [0, 255]. With s = 0, all three channels equal Math.round(l * 255). |
| `ColorSpace.Upper` | Randomize-Colors.js:71 | The bound q of hslToRgb; `BoundsOrdered` gives 0 <= p <= q <= 1 and `UpperIsMax` shows it is the largest channel of the color rgbToHsl came from. |
| `ColorSpace.BoundsOrdered` | Randomize-Colors.js:71-72 | For s, l in [0, 1]: 0 <= p <= q <= 1. |
| `ColorSpace.UpperIsMax` | Randomize-Colors.js:71 | The q that hslToRgb computes from rgbToHsl's saturation and lightness is the color's largest normalized channel (and so p = 2l - q is the smallest). |
| `ColorSpace.RescaleChannel` | Randomize-Colors.js:25 | A channel divided by 255 and then scaled and rounded as at line 78 is the channel again. |
| `ColorSpace.ChannelsRecovered` | Randomize-Colors.js:62-75 | For a color that is not a gray, hue2rgb between its minimum and maximum channel, at rgbToHsl's hue plus 1/3, plus 0 and minus 1/3, gives back the red, green and blue channels. |
| `ColorSpace.RoundTrip` | Randomize-Colors.js:24-79 | hslToRgb(rgbToHsl(r, g, b)) = (r, g, b) for all channels in [0, 255]. |
| `Jitter.RandomizeNumber` | Randomize-Colors.js:85-93 | The result never exceeds max, and it lies in [min, max] whenever min <= max. With strength 0, a value already in [min, max] is returned unchanged, whatever the draws. |
| `Jitter.DisplacementBound` | Randomize-Colors.js:85-92 | For draws in [0, 1) and n in [min, max], the result is within 0.05 times the absolute strength of n (half of strength_multiplicator). |
| `Jitter.DeltaBound` | Randomize-Colors.js:88 | The random delta (u1 - 0.5) * (u2 * strength * 0.1) is at most 0.05 * the absolute strength in size. |
| `Randomizer.RandomSource.Next` | Randomize-Colors.js:88 | Math.random() returns the next draw of the stream and advances it by one. |
| `Randomizer.RandomizedColor` | Randomize-Colors.js:98-120 | The color randomize_color writes from six draws (hue, saturation, lightness; first draw of each pair first) has every channel in [0, 255]. |
| `Randomizer.RandomizeColor` | Randomize-Colors.js:98-120 | randomize_color overwrites only red, green and blue of the color object, with RandomizedColor of its old value, and takes exactly six draws. |
| `Randomizer.NoStrengthsKeepColor` | Randomize-Colors.js:98-120 | With all three strengths 0, the color written is hslToRgb(rgbToHsl(c)), which is c itself. |
| `ObjectTree.Walk` | Randomize-Colors.js:124-151 | Walking a tree whose visited colors are in gamut keeps them in gamut. |
| `ObjectTree.WalkAll` | Randomize-Colors.js:153-166 | The same for a sequence of children processed in index order, which keeps its length. |
| `ObjectTree.RandomizeEach` | Randomize-Colors.js:98-120 | Running randomize_color on a run of in-gamut colors, six draws apiece, gives as many colors, all in gamut. |
| `ObjectTree.RandomizeEachAppend` | Randomize-Colors.js:98-120 | Randomizing two runs of colors one after the other is randomizing the joined run: the second run starts 6 draws per color of the first later. |
| `ObjectTree.WalkKeepsLayout` | Randomize-Colors.js:124-151 | The walk changes nothing but the colors it visits: the same kinds, the same flags, the same number of children, the fill of an unfilled path and the stroke of an unstroked one untouched, and unknown kinds left alone. |
| `ObjectTree.AllWalkKeepsLayout` | Randomize-Colors.js:153-166 | The same for a sequence of children: as many children, each with the layout it had. |
| `ObjectTree.VisitCountIsFlagCount` | Randomize-Colors.js:140-151 | randomize_color is called once for each filled or stroked flag set on a reachable path item. |
| `ObjectTree.AllVisitCountIsFlagCount` | Randomize-Colors.js:153-166 | The same count holds for a sequence of children. |
| `ObjectTree.ColorableIffVisitedInGamut` | Randomize-Colors.js:143-150 | A tree meets the walk's precondition exactly when every color the walk will visit has channels in [0, 255]. |
| `ObjectTree.AllColorableIffVisitedInGamut` | Randomize-Colors.js:153-166 | The same for a sequence of children. |
| `ObjectTree.WalkVisitsInOrder` | Randomize-Colors.js:124-166 | The colors visited after the walk (children in index order to any depth, fill before stroke) are RandomizeEach of those visited before: the k-th becomes randomize_color of its old value with draws pos + 6k to pos + 6k + 5. |
| `ObjectTree.AllWalkVisitsInOrder` | Randomize-Colors.js:153-166 | The same for a sequence of children: child k's colors take the draws after those of the children before it. |
| `ObjectTree.UnvisitedTreeUnchanged` | Randomize-Colors.js:124-151 | A tree with no filled or stroked path item reachable, such as a path with neither flag or an object of an unknown kind, is left unchanged. |
| `ObjectTree.AllUnvisitedUnchanged` | Randomize-Colors.js:153-166 | The same for a sequence of children. |
| `ObjectTree.NoStrengthsKeepTree` | Randomize-Colors.js:124-166 | With all strengths 0, the walk leaves every color of the tree as it was. |
| `ObjectTree.AllNoStrengthsKeepTree` | Randomize-Colors.js:153-166 | The same for a sequence of children. |
| `Walker.ProcessUnknownObject` | Randomize-Colors.js:124-138 | Dispatching on the kind leaves the item as Walk of its old value. It takes six draws per visited color and writes no color object outside the item. |
| `Walker.ProcessPathItem` | Randomize-Colors.js:140-151 | The fill is randomized if filled, then the stroke if stroked. The path ends as Walk of its old value, after 6 draws per flag set. |
| `Walker.ProcessCompoundPath` | Randomize-Colors.js:153-158 | The compound path ends as Walk of its old value, with its children processed in index order. |
| `Walker.ProcessGroup` | Randomize-Colors.js:161-166 | The group ends as Walk of its old value, with its children processed in index order. |
| `Walker.ProcessInOrder` | Randomize-Colors.js:154-157 | The index loop leaves the items as WalkAll of their old values and takes six draws per visited color. |
| `Walker.ProcessItemAt` | Randomize-Colors.js:156 | One round of that loop: item i is walked from the next unused draw, items before it keep their new values, and items after it keep their old ones. |
| `Walker.Run` | Randomize-Colors.js:184-187 | The selection loop of run leaves the selection as WalkAll of its old value and takes six draws per visited color. |

## Left out

- The host checks at lines 193-208 (an open document, a non-empty selection) and the `alert` calls are not modelled. They are host-application plumbing.
- The `prompt` dialogs and `Number(...)` at lines 179-181 are not modelled. This includes a non-numeric answer becoming NaN. The three strengths are parameters (`Randomizer.Strengths`) instead of the global variables at lines 170-172.
- `app.activeDocument.selection` and the Illustrator object model are not modelled. The selection is a given sequence of items. An item's `typename` is its constructor, and only the three recognised kinds carry children or colors.
- `Math.random()` is not a source of entropy here. It is a given stream of draws (`RandomSource`), and the draws can be anything. Only `Jitter.DisplacementBound` and `Jitter.DeltaBound` ask that they lie in [0, 1).
- IEEE-754 doubles are not modelled. Arithmetic is exact (`real`), so there is no rounding error, and the exact comparisons `max == min` and `switch(max)` behave as on the real numbers. This is also why the round trip is exact.
- Color channels are integers. The host may hold fractional channel values before the script first writes a color; those are not modelled.
- The walk requires the color objects in a tree to be distinct (`Walker.Separate`). The script relies on the host never sharing one color object between two paths, or between the fill and the stroke of one path. The behaviour of an aliased tree is not modelled.
- The three identical loops of `process_compound_path`, `process_group` and `run` are not kept apart: one method with one loop stands for all three.
