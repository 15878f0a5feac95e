/**
 * Integer facts used to read bit fields back out of the words the exports
 * build with shifts and additions.
 */
module Bits {

  lemma MulMono(a: int, b: int, c: int)
    requires a <= b && c >= 0
    ensures a * c <= b * c
  {
    assert b * c - a * c == (b - a) * c;
  }

  /** Euclidean division is determined by any quotient and remainder that fit. */
  lemma DivModOf(w: int, d: int, q: int, r: int)
    requires d > 0 && 0 <= r < d && w == q * d + r
    ensures w / d == q && w % d == r
  {
    var k := q - w / d;
    assert k * d == w % d - r;
    if k >= 1 {
      MulMono(1, k, d);
    } else if k <= -1 {
      MulMono(1, -k, d);
    }
  }
}
