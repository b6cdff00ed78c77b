/** Python's `round`. */
module Rounding {

  /** Rounding half to even. */
  function Round(x: real): int {
    var f := x.Floor;
    var rest := x - f as real;
    if rest < 0.5 || (rest == 0.5 && f % 2 == 0) then f else f + 1
  }

  lemma RoundNearest(x: real)
    ensures -0.5 <= Round(x) as real - x <= 0.5
    ensures -0.5 == Round(x) as real - x || Round(x) as real - x == 0.5 ==> Round(x) % 2 == 0
  {
  }
}
