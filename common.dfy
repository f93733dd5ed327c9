/** Small shared vocabulary: Python's `None`-or-value and Python's built-in `round`. */
module Common {

  /** A value that may be absent, as Python's `None | int`. */
  datatype Option<+T> = None | Some(value: T)

  /**
   * Python's `round(x)` on a number: the nearest integer, ties going to the even
   * neighbour. The analyzer applies it to quotients of integers (exact here; in the
   * program they are floats) and to the doubled exceedance integrals.
   */
  function RoundHalfEven(x: real): (r: int)
    ensures x - 0.5 <= r as real <= x + 0.5
    ensures r as real == x - 0.5 || r as real == x + 0.5 ==> r % 2 == 0
  {
    var f := x.Floor;
    var frac := x - f as real;
    if frac < 0.5 then f
    else if frac > 0.5 then f + 1
    else if f % 2 == 0 then f
    else f + 1
  }

  /** Ties go to the even neighbour: 331.5 rounds up, 2.5 rounds down. */
  lemma RoundHalfEvenTies()
    ensures RoundHalfEven(331.5) == 332
    ensures RoundHalfEven(2.5) == 2
    ensures RoundHalfEven(-0.5) == 0
  {
  }
}
