/** Rounding as the service's language does it: to the nearest integer, a tie going
    to the even neighbour, then scaled back to a grid. */
module Rounding {

  function RoundHalfEven(v: real): int {
    var f := v.Floor;
    var rest := v - f as real;
    if rest < 0.5 then f
    else if rest > 0.5 then f + 1
    else if f % 2 == 0 then f
    else f + 1
  }

  // Snaps a value to a multiple of `grid`.
  function Snap(v: real, grid: real): real
    requires grid > 0.0
  {
    RoundHalfEven(v / grid) as real * grid
  }

  // No value moves by more than half a unit, so a vote cell is at most half a
  // unit per axis away from every offset that votes for it.
  lemma {:induction false} RoundError(v: real)
    ensures v - 0.5 <= RoundHalfEven(v) as real <= v + 0.5
  {
    assert v.Floor as real <= v < v.Floor as real + 1.0;
  }

  // A value halfway between two integers goes to the even one.
  lemma {:induction false} TiesGoToEven(k: int)
    ensures RoundHalfEven(k as real + 0.5) == if k % 2 == 0 then k else k + 1
  {
    assert (k as real + 0.5).Floor == k;
  }

  // A value within half a unit of an integer, ends excluded, rounds to it.
  lemma {:induction false} RoundsTo(v: real, k: int)
    requires k as real - 0.5 < v < k as real + 0.5
    ensures RoundHalfEven(v) == k
  {
    RoundError(v);
  }

  lemma {:induction false} RoundMonotone(v: real, w: real)
    requires v <= w
    ensures RoundHalfEven(v) <= RoundHalfEven(w)
  {
    assert v.Floor <= w.Floor;
    if v.Floor == w.Floor {
      assert v - v.Floor as real <= w - w.Floor as real;
    }
  }

  // Rounding commutes with adding an even integer. (An odd one moves the ties:
  // 0.5 rounds to 0 and 1.5 to 2.)
  lemma {:induction false} RoundShiftEven(v: real, k: int)
    ensures RoundHalfEven(v + (2 * k) as real) == RoundHalfEven(v) + 2 * k
  {
    var f := v.Floor;
    assert (f + 2 * k) as real <= v + (2 * k) as real < (f + 2 * k) as real + 1.0;
    assert (v + (2 * k) as real).Floor == f + 2 * k;
  }

  // On the half-unit coordinate grid every integer is an even number of steps, so
  // a whole-unit move of a point moves its snapped image by exactly as much.
  lemma {:induction false} SnapHalfShift(v: real, k: int)
    ensures Snap(v + k as real, 0.5) == Snap(v, 0.5) + k as real
  {
    assert (v + k as real) / 0.5 == v / 0.5 + (2 * k) as real;
    RoundShiftEven(v / 0.5, k);
  }
}
