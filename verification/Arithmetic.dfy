/** Integer rounding as `math.ceil` and `math.floor` give it on exact quotients. */
module Arithmetic {

  /** `math.ceil(a / b)`. */
  function CeilDiv(a: int, b: int): (q: int)
    requires b > 0
    ensures (q - 1) * b < a <= q * b
  {
    -((-a) / b)
  }

  /** `math.floor(a / b)`. */
  function FloorDiv(a: int, b: int): (q: int)
    requires b > 0
    ensures q * b <= a < (q + 1) * b
    ensures 0 <= a ==> 0 <= q
  {
    a / b
  }

  function Max(a: int, b: int): int {
    if a < b then b else a
  }

  function Min(a: int, b: int): int {
    if a < b then a else b
  }

  /** The ceiling is the least integer that covers the quotient. */
  lemma CeilIsLeast(a: int, b: int, q: int)
    requires b > 0
    ensures CeilDiv(a, b) <= q <==> a <= q * b
  {
    var c := CeilDiv(a, b);
    if c <= q {
      MulMonotone(c, q, b);
    } else {
      MulMonotone(q, c - 1, b);
    }
  }

  lemma MulMonotone(x: int, y: int, b: int)
    requires x <= y && b >= 0
    ensures x * b <= y * b
  {
    assert (y - x) * b >= 0;
  }

  /** Rounding up the whole is at most rounding up each of `k` equal parts. */
  lemma CeilScales(a: int, b: int, k: int)
    requires b > 0 && k >= 0
    ensures CeilDiv(k * a, b) <= k * CeilDiv(a, b)
  {
    var c := CeilDiv(a, b);
    MulMonotone(a, c * b, k);
    assert k * a <= (k * c) * b;
    CeilIsLeast(k * a, b, k * c);
  }

  lemma CeilOfMultiple(q: int, b: int)
    requires b > 0
    ensures CeilDiv(q * b, b) == q
  {
    CeilIsLeast(q * b, b, q);
    CeilIsLeast(q * b, b, q - 1);
  }
}
