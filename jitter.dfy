/**
 * randomize_number of Randomize-Colors.js: a value moved by a random amount
 * whose size grows with a strength, then clamped into [min, max].
 *
 * The two Math.random() calls of the script are the parameters u1 and u2,
 * in the order the script evaluates them (u1 is the left operand).
 */
module Jitter {

  import opened RealArith

  /** strength_multiplicator: scales the 0-to-10 strength of the prompt. */
  const StrengthMultiplicator: real := 0.1

  function Abs(x: real): (a: real)
  {
    if x < 0.0 then -x else x
  }

  /** A single Math.random() draw lies in [0, 1). */
  predicate IsDraw(u: real)
  {
    0.0 <= u < 1.0
  }

  /**
   * randomize_number: n plus (u1 - 0.5) * (u2 * strength * 0.1), then
   * Math.max with min and Math.min with max.  The result never exceeds
   * max, lies in [min, max] whenever that interval is not empty, and a
   * zero strength leaves a value that is already in range untouched,
   * whatever the draws.
   */
  function RandomizeNumber(n: real, strength: real, min: real, max: real, u1: real, u2: real): (r: real)
    ensures r <= max
    ensures min <= max ==> min <= r
    ensures strength == 0.0 && min <= n <= max ==> r == n
  {
    var moved := n + (u1 - 0.5) * (u2 * strength * StrengthMultiplicator);
    assert strength == 0.0 ==> moved == n by {
      if strength == 0.0 {
        assert u2 * strength * StrengthMultiplicator == 0.0;
      }
    }
    var atLeastMin := if moved > min then moved else min;
    if atLeastMin < max then atLeastMin else max
  }

  /**
   * For draws in [0, 1) and a value already in [min, max], the result is
   * at most half a multiplied strength away from the value: clamping only
   * ever moves toward the value's own interval.
   */
  lemma DisplacementBound(n: real, strength: real, min: real, max: real, u1: real, u2: real)
    requires IsDraw(u1) && IsDraw(u2)
    requires min <= n <= max
    ensures Abs(RandomizeNumber(n, strength, min, max, u1, u2) - n) <= StrengthMultiplicator / 2.0 * Abs(strength)
  {
    DeltaBound(u1, u2, strength);
  }

  /** The random delta of randomize_number is at most 0.05 times the strength in size. */
  lemma DeltaBound(u1: real, u2: real, strength: real)
    requires IsDraw(u1) && IsDraw(u2)
    ensures Abs((u1 - 0.5) * (u2 * strength * StrengthMultiplicator)) <= StrengthMultiplicator / 2.0 * Abs(strength)
  {
    var a := Abs(strength);
    MulNonnegative(u2, a);
    MulNonnegative(1.0 - u2, a);
    var m := u2 * a;
    MulNonnegative(0.5 - (u1 - 0.5), m);
    MulNonnegative(u1, m);
    MulNonnegative(0.5 - (u1 - 0.5), a - m);
    MulNonnegative(u1, a - m);
    assert Abs((u1 - 0.5) * (u2 * strength)) == Abs((u1 - 0.5) * m);
  }
}
