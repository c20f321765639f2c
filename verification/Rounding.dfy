/** round() as the scoring engine uses it: to the nearest integer or multiple, halves to even. */
module Rounding {
  function Round(x: real): int {
    var f := x.Floor;
    var rest := x - f as real;
    if rest < 0.5 then f
    else if rest > 0.5 then f + 1
    else if f % 2 == 0 then f else f + 1
  }

  // round(x, 4)
  function Round4(x: real): real { Round(x * 10000.0) as real / 10000.0 }

  lemma RoundIsNear(x: real)
    ensures Round(x) as real - 0.5 <= x <= Round(x) as real + 0.5
  {}

  lemma RoundOfInteger(n: int)
    ensures Round(n as real) == n
  {}

  lemma RoundIsMonotone(x: real, y: real)
    requires x <= y
    ensures Round(x) <= Round(y)
  {
    // If the floors differ the results can only meet; if they agree the fractions decide.
    assert x.Floor <= y.Floor;
    RoundIsNear(x);
    RoundIsNear(y);
  }

  // Shifting by an even number of units shifts the result by as many.
  lemma RoundShifts(x: real, n: int)
    requires n % 2 == 0
    ensures Round(x + n as real) == Round(x) + n
  {
    assert (x + n as real).Floor == x.Floor + n;
  }

  lemma Round4IsMonotone(x: real, y: real)
    requires x <= y
    ensures Round4(x) <= Round4(y)
  {
    RoundIsMonotone(x * 10000.0, y * 10000.0);
  }

  lemma Round4OfUnit(x: real)
    requires 0.0 <= x <= 1.0
    ensures 0.0 <= Round4(x) <= 1.0
  {
    RoundOfInteger(0);
    RoundOfInteger(10000);
    RoundIsMonotone(0.0, x * 10000.0);
    RoundIsMonotone(x * 10000.0, 10000.0);
  }
}
