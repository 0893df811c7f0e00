/** Machine numbers, and the arithmetic of division that the word-sized computations need. */
module Numbers {
  const TWO28 := 0x1000_0000
  const TWO31 := 0x8000_0000
  const TWO32 := 0x1_0000_0000

  type Byte = b: int | 0 <= b < 256

  type Word = w: int | 0 <= w < TWO32

  lemma AtLeast(q: int, radix: nat)
    requires q >= 1
    ensures q * radix >= radix
  {
  }

  lemma DivMod(q: int, d: nat, radix: nat)
    requires d < radix
    ensures (q * radix + d) / radix == q && (q * radix + d) % radix == d
  {
    var n := q * radix + d;
    Division(n, radix);
    assert (n / radix - q) * radix == d - n % radix;
    NoMultiple(n / radix - q, radix, d - n % radix);
  }

  lemma Division(n: int, radix: nat)
    requires radix > 0
    ensures n == n / radix * radix + n % radix && 0 <= n % radix < radix
  {
  }

  lemma NoMultiple(a: int, radix: nat, e: int)
    requires a * radix == e && -(radix as int) < e < radix
    ensures a == 0
  {
    if a >= 1 { AtLeast(a, radix); }
    if a <= -1 { AtLeast(-a, radix); }
  }

  /** Division and remainder of C, towards zero. */
  function CDiv(a: int, b: nat): int
    requires b > 0
  {
    if a >= 0 then a / b else -(-a / b)
  }

  function CRem(a: int, b: nat): int
    requires b > 0
  {
    a - b * CDiv(a, b)
  }
}
