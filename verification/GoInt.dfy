/** Go's int64 arithmetic: addition, subtraction and multiplication wrap around, division
    truncates toward zero. */
module GoInt {
  const MAX_INT64 := 0x7FFF_FFFF_FFFF_FFFF
  const TWO_64 := 0x1_0000_0000_0000_0000

  type int64 = x: int | -MAX_INT64 - 1 <= x <= MAX_INT64

  function Wrap(x: int): (r: int64)
    ensures -MAX_INT64 - 1 <= x <= MAX_INT64 ==> r == x
    ensures MAX_INT64 < x <= MAX_INT64 + TWO_64 ==> r == x - TWO_64
    ensures -MAX_INT64 - 1 - TWO_64 <= x < -MAX_INT64 - 1 ==> r == x + TWO_64
  {
    var m := x % TWO_64;
    if m > MAX_INT64 then m - TWO_64 else m
  }

  function Add(a: int64, b: int64): int64 {
    Wrap(a + b)
  }

  function Sub(a: int64, b: int64): int64 {
    Wrap(a - b)
  }

  function Mul(a: int64, b: int64): int64 {
    Wrap(a * b)
  }

  // Quotient truncated toward zero.
  function Div(a: int, b: int): int
    requires b > 0
  {
    if a >= 0 then a / b else -((-a) / b)
  }

  lemma ProductAtLeast(x: nat, y: nat)
    requires y >= 1
    ensures x * y >= x
  {
    var d := y - 1;
    assert x * d >= 0;
    assert x * y == x * d + x;
  }

  lemma QuotientBounds(a: nat, b: nat)
    requires b > 0
    ensures 0 <= a / b <= a
    ensures a < b <==> a / b == 0
    ensures (a / b) * b <= a < (a / b) * b + b
  {
    var q, r := a / b, a % b;
    assert a == q * b + r;
    ProductAtLeast(q, b);
    if q >= 1 {
      ProductAtLeast(b, q);
    }
  }

  // (n + size - 1) / size is the number of pieces of at most size elements.
  lemma CeilDiv(n: nat, size: nat)
    requires n >= 1 && size >= 1
    ensures var k := (n + size - 1) / size; 1 <= k <= n && (k - 1) * size < n <= k * size
  {
    var k := (n + size - 1) / size;
    QuotientBounds(n + size - 1, size);
    assert (k - 1) * size == k * size - size;
    ProductAtLeast(k - 1, size);
  }
}
