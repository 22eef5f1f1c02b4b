/** Integer arithmetic as the machine does it, and a division fact the solver does not find quickly. */
module Arithmetic {
  /** The quotient and remainder are determined by n == d * q + r. */
  lemma Quotient(n: int, d: int, q: int, r: int)
    requires d > 0 && n == d * q + r && 0 <= r < d
    ensures n / d == q && n % d == r
  {
    var k := n / d - q;
    assert n == d * (n / d) + n % d;
    assert k >= 1 ==> d * k >= d;
    assert k <= -1 ==> d * k <= -d;
    assert d * k == r - n % d;
  }

  /** Division that rounds towards zero, as `duration_cast` to a longer unit does. */
  function Truncated(n: int, d: int): (q: int)
    requires d > 0
    ensures n >= 0 ==> q * d <= n < (q + 1) * d
    ensures n <= 0 ==> (q - 1) * d < n <= q * d
  {
    if n >= 0 then n / d else -((-n) / d)
  }

  /** The two's complement integer with the bits of the unsigned one n. */
  function Signed(n: nat, modulus: nat): int {
    if 2 * n < modulus then n else n - modulus
  }

  /** What is left of a result in 64-bit two's complement. */
  function Wrapped(n: int): (w: int)
    ensures -0x8000_0000_0000_0000 <= n < 0x8000_0000_0000_0000 ==> w == n
    ensures -0x8000_0000_0000_0000 <= w < 0x8000_0000_0000_0000
    ensures n >= 0x8000_0000_0000_0000 ==> w <= n - 0x1_0000_0000_0000_0000
  {
    Signed(n % 0x1_0000_0000_0000_0000, 0x1_0000_0000_0000_0000)
  }
}
