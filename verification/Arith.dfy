/** Division: rounding up, and facts that the solver does not find by itself. */
module Arith {

  lemma DivUnique(x: int, b: nat, q: int, r: int)
    requires b >= 1 && x == q * b + r && 0 <= r < b
    ensures x / b == q && x % b == r
  {
    var d := x / b - q;
    assert d * b == r - x % b;
    assert d >= 1 ==> d * b >= b;
    assert d <= -1 ==> d * b <= -(b as int);
  }

  lemma ProductDivides(a: nat, b: nat)
    requires b >= 1
    ensures a * b / b == a && a * b % b == 0
  {
    DivUnique(a * b, b, a, 0);
  }

  /** Division rounding up. */
  function CeilDiv(a: nat, b: nat): (q: nat)
    requires b >= 1
    ensures (q - 1) * b < a <= q * b || (a == 0 && q == 0)
  {
    (a + b - 1) / b
  }
}
