/** Floor division by a positive divisor. */
module Arithmetic {

  function Min(a: int, b: int): int {
    if a < b then a else b
  }

  function Pow10(n: nat): (r: nat)
    ensures r > 0
  {
    if n == 0 then 1 else 10 * Pow10(n - 1)
  }

  /** The defining bounds of a floor quotient. */
  lemma Floor(a: int, d: int)
    requires d > 0
    ensures (a / d) * d <= a < (a / d) * d + d
  {
    assert a == (a / d) * d + a % d;
  }

  /** `c` is at most the quotient exactly if `c * d` is at most the dividend. */
  lemma AtMostFloor(c: int, a: int, d: int)
    requires d > 0
    ensures c <= a / d <==> c * d <= a
  {
    Floor(a, d);
    if c <= a / d {
      MulMono(c, a / d, d);
    } else {
      MulMono(a / d + 1, c, d);
    }
  }

  lemma MulMono(x: int, y: int, d: int)
    requires x <= y && d >= 0
    ensures x * d <= y * d
  {
    assert (y - x) * d >= 0;
  }

  lemma MulMinus(x: int, y: int, d: int)
    ensures (x - y) * d == x * d - y * d
  {
  }

  lemma MulSwap(a: int, b: int, c: int)
    ensures (a * b) * c == (a * c) * b
  {
  }

  lemma MulCancel(x: int, y: int, d: int)
    requires x * d <= y * d && d > 0
    ensures x <= y
  {
    if y < x {
      MulMono(y + 1, x, d);
      assert false;
    }
  }

  lemma WholeMultiple(k: int, d: int)
    requires d > 0
    ensures (k * d) % d == 0
  {
    AtMostFloor(k, k * d, d);
    assert (k + 1) * d == k * d + d;
    AtMostFloor(k + 1, k * d, d);
    assert k * d == (k * d / d) * d + (k * d) % d;
  }

  lemma FloorMono(a: int, b: int, d: int)
    requires d > 0 && a <= b
    ensures a / d <= b / d
  {
    Floor(a, d);
    AtMostFloor(a / d, b, d);
  }

  /** Converting at a ratio and back never gains: `((x * q / b) * b) / q <= x`. */
  lemma ThereAndBack(x: int, q: int, b: int)
    requires q > 0 && b > 0
    ensures ((x * q / b) * b) / q <= x
  {
    var y := x * q / b;
    Floor(x * q, b);
    Floor(y * b, q);
    MulCancel((y * b) / q, x, q);
  }
}
