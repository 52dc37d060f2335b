/**
 * The C `int` arithmetic the engine's integer code relies on: division
 * that truncates toward zero and products that wrap into 32 bits.
 */
module CArith {
  const IntRange := 0x1_0000_0000

  /** An `int` result: x wrapped into the signed 32-bit range. */
  function Wrap32(x: int): (r: int)
    ensures -0x8000_0000 <= r < 0x8000_0000
    ensures (r - x) % IntRange == 0
  {
    var m := x % IntRange;
    if m >= 0x8000_0000 then m - IntRange else m
  }

  /** C integer division, truncating toward zero: q carries a's sign and q b is the multiple of b nearest zero within b of a. */
  function CDiv(a: int, b: int): (q: int)
    requires b > 0
    ensures a >= 0 ==> 0 <= q && q * b <= a < q * b + b
    ensures a < 0 ==> q <= 0 && a <= q * b < a + b
  {
    if a >= 0 then a / b else -((-a) / b)
  }

  /** Truncation toward zero is odd: dividing -a gives -(a / b). */
  lemma CDivNegate(a: int, b: int)
    requires b > 0
    ensures CDiv(-a, b) == -CDiv(a, b)
  {
  }

  /** Dividing never moves a value away from zero. */
  lemma CDivShrinks(a: int, b: int)
    requires b > 0
    ensures a >= 0 ==> 0 <= CDiv(a, b) <= a
    ensures a < 0 ==> a <= CDiv(a, b) <= 0
  {
    var q := CDiv(a, b);
    if a >= 0 {
      MulGrows(q, b);
    } else {
      MulGrows(-q, b);
      assert (-q) * b == -(q * b);
    }
  }

  /** A product with a positive factor is at least the other factor. */
  lemma {:induction false} MulGrows(q: nat, b: int)
    requires b >= 1
    ensures q * b >= q
  {
    if q > 0 {
      MulGrows(q - 1, b);
      assert q * b == (q - 1) * b + b;
    }
  }

  /** Cancelling a positive factor from a strict inequality between products. */
  lemma CancelFactor(x: int, y: int, m: int)
    requires m > 0 && x * m < y * m
    ensures x < y
  {
    assert (x - y) * m == x * m - y * m;
  }

  /** Truncating division by a positive divisor is monotone. */
  lemma CDivMonotone(a: int, b: int, d: int)
    requires a <= b && d > 0
    ensures CDiv(a, d) <= CDiv(b, d)
  {
    if a >= 0 || b < 0 {
      var qa, qb := CDiv(a, d), CDiv(b, d);
      assert (qb + 1) * d == qb * d + d;
      CancelFactor(qa, qb + 1, d);
    }
  }
}
