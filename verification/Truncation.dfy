/** Magnitudes, the division that rounds toward zero, and when a quotient and a remainder are the ones of a division. */
module Truncation {

  function Abs(a: int): (r: nat)
    ensures r == a || r == -a
  {
    if a < 0 then -a else a
  }

  /** BigInt division: rounds toward zero, unlike Dafny's Euclidean `/`. */
  function TruncDiv(a: int, b: int): int
    requires b != 0
  {
    var magnitude := Abs(a) / Abs(b);
    if (a < 0) == (b < 0) then magnitude else -magnitude
  }

  lemma DivUnique(a: int, b: int, q: int, r: int)
    requires b > 0 && a == b * q + r && 0 <= r < b
    ensures a / b == q && a % b == r
  {
    var d := q - a / b;
    assert b * q == b * (a / b) + b * d;
    assert b * d == a % b - r;
    if d != 0 {
      NonzeroMultiple(b, d);
    }
  }

  lemma NonzeroMultiple(b: nat, d: int)
    requires d != 0
    ensures b * d >= b || b * d + b <= 0
  {
  }
}
