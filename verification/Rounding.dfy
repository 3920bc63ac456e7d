/** Rounding of exact reals to a number of decimals, ties to even. */
module Rounding {
  ghost predicate Monotone(round: real -> real) {
    forall x, y :: x <= y ==> round(x) <= round(y)
  }

  function RoundHalfEven(x: real): int {
    var low := x.Floor;
    var rest := x - low as real;
    if rest < 0.5 || (rest == 0.5 && low % 2 == 0) then low else low + 1
  }

  function Round2(x: real): real {
    RoundHalfEven(x * 100.0) as real / 100.0
  }

  function Round3(x: real): real {
    RoundHalfEven(x * 1000.0) as real / 1000.0
  }

  lemma RoundHalfEvenMonotone(x: real, y: real)
    requires x <= y
    ensures RoundHalfEven(x) <= RoundHalfEven(y)
  {
    assert x.Floor <= y.Floor;
  }

  lemma RoundingMonotone()
    ensures Monotone(Round2) && Monotone(Round3)
  {
    forall x: real, y: real | x <= y
      ensures Round2(x) <= Round2(y) && Round3(x) <= Round3(y)
    {
      RoundHalfEvenMonotone(x * 100.0, y * 100.0);
      RoundHalfEvenMonotone(x * 1000.0, y * 1000.0);
    }
  }

  lemma RoundHalfEvenBounds(x: real, low: int, high: int)
    requires low as real <= x <= high as real
    ensures low <= RoundHalfEven(x) <= high
  {
    RoundHalfEvenMonotone(low as real, x);
    RoundHalfEvenMonotone(x, high as real);
  }

  /** Rounding cannot push a value past a whole-number bound. */
  lemma RoundingKeepsBounds(x: real, low: int, high: int)
    requires low as real <= x <= high as real
    ensures low as real <= Round2(x) <= high as real
    ensures low as real <= Round3(x) <= high as real
  {
    RoundHalfEvenBounds(x * 100.0, 100 * low, 100 * high);
    RoundHalfEvenBounds(x * 1000.0, 1000 * low, 1000 * high);
  }

  /** The nearest whole number, and the even one of two that are equally near. */
  lemma NearestEven(x: real)
    ensures var n := RoundHalfEven(x);
            && -0.5 <= n as real - x <= 0.5
            && (n as real - x == 0.5 || x - n as real == 0.5 ==> n % 2 == 0)
  {
  }

  /** A rounded value is the nearest one with its number of decimals. */
  lemma RoundingIsNearest(x: real) returns (n: int, m: int)
    ensures Round2(x) == n as real / 100.0 && -0.005 <= Round2(x) - x <= 0.005
    ensures Round3(x) == m as real / 1000.0 && -0.0005 <= Round3(x) - x <= 0.0005
  {
    n, m := RoundHalfEven(x * 100.0), RoundHalfEven(x * 1000.0);
    NearestEven(x * 100.0);
    NearestEven(x * 1000.0);
  }
}
