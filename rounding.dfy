/** Python's `round` on a non-negative rational, in integers. */
module Rounding {

  /** `round(a / b)`: the nearest integer to `a / b`, and the even one of
      the two candidates when `a / b` lies exactly half-way. */
  function RoundHalfEven(a: nat, b: nat): (q: nat)
    requires b > 0
    ensures 2 * a - b <= 2 * (q * b) <= 2 * a + b
    ensures (2 * (q * b) == 2 * a - b || 2 * (q * b) == 2 * a + b) ==> q % 2 == 0
  {
    var q := RoundChoice(a, b);
    RoundChoiceNearest(a, b, q);
    q
  }

  /** Down when the remainder is under half the divisor, up when over,
      and to the even neighbour on a tie. */
  function RoundChoice(a: nat, b: nat): nat
    requires b > 0
  {
    var d := a / b;
    var r := a % b;
    if 2 * r < b then d
    else if 2 * r > b then d + 1
    else if d % 2 == 0 then d
    else d + 1
  }

  lemma RoundChoiceNearest(a: nat, b: nat, q: nat)
    requires b > 0 && q == RoundChoice(a, b)
    ensures 2 * a - b <= 2 * (q * b) <= 2 * a + b
    ensures (2 * (q * b) == 2 * a - b || 2 * (q * b) == 2 * a + b) ==> q % 2 == 0
  {
    var d := a / b;
    var r := a % b;
    var m := d * b;
    assert a == m + r && 0 <= r < b;
    if q == d {
      assert q * b == m;
    } else {
      MulSucc(d, b);
      assert q * b == m + b;
    }
  }

  lemma MulSucc(q: int, b: int)
    ensures (q + 1) * b == q * b + b
  {
  }

  lemma MulMono(a: int, b: int, n: nat)
    requires a <= b
    ensures a * n <= b * n
  {
    var d := b - a;
    assert b * n == a * n + d * n;
  }

  /** Rounding is exact on whole quotients. */
  lemma RoundWhole(k: nat, b: nat)
    requires b > 0
    ensures RoundHalfEven(k * b, b) == k
  {
    var q := RoundHalfEven(k * b, b);
    if q > k {
      MulMono(k + 1, q, b);
      MulSucc(k, b);
    } else if q < k {
      MulMono(q + 1, k, b);
      MulSucc(q, b);
    }
  }

  /** Rounding does not go beyond a bound the quotient stays within. */
  lemma RoundBounded(a: nat, b: nat, k: nat)
    requires b > 0 && a <= k * b
    ensures RoundHalfEven(a, b) <= k
  {
    var q := RoundHalfEven(a, b);
    if q > k {
      MulMono(k + 1, q, b);
      MulSucc(k, b);
    }
  }
}
