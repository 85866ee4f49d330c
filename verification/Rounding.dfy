/** Python's `round` on a real number: to the nearest integer, ties to even. */
module Rounding {

  function Round(x: real): int {
    var f := x.Floor;
    var d := x - f as real;
    if d < 0.5 then f else if d > 0.5 then f + 1 else if f % 2 == 0 then f else f + 1
  }

  function Abs(x: real): real { if x < 0.0 then -x else x }

  lemma RoundClose(x: real)
    ensures Abs(Round(x) as real - x) <= 0.5
  {
  }

  /** Half way between two integers it is the even one. */
  lemma TiesToEven(x: real)
    requires Abs(Round(x) as real - x) == 0.5
    ensures Round(x) % 2 == 0
  {
  }

  lemma RoundMonotone(x: real, y: real)
    requires x <= y
    ensures Round(x) <= Round(y)
  {
  }

  lemma RoundInteger(k: int)
    ensures Round(k as real) == k
  {
  }
}
