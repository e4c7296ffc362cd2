/** The few facts about multiplication and division that the other modules lean on. */
module Arithmetic {

  lemma MulMonotone(a: int, b: int, c: int)
    requires a <= b && 0 <= c
    ensures a * c <= b * c
  {
    assert (b - a) * c >= 0;
  }

  lemma MulNat(a: nat, b: nat)
    ensures a * b >= 0
    ensures a > 0 && b > 0 ==> a * b >= a && a * b >= b
  {
    MulMonotone(0, a, b);
    if a > 0 && b > 0 {
      MulMonotone(1, a, b);
      MulMonotone(1, b, a);
    }
  }

  /** Quotient and remainder are the only way to write a number over a positive base. */
  lemma DivModUnique(base: int, high: int, low: int)
    requires 0 <= low < base
    ensures (high * base + low) / base == high
    ensures (high * base + low) % base == low
  {
    var n := high * base + low;
    assert n == (n / base) * base + n % base;
    assert (n / base - high) * base == low - n % base;
    if n / base > high {
      MulMonotone(1, n / base - high, base);
    } else if n / base < high {
      MulMonotone(1, high - n / base, base);
    }
  }

  lemma DivMod(n: nat, base: nat)
    requires base > 0
    ensures n == (n / base) * base + n % base && n / base >= 0 && 0 <= n % base < base
  {
  }

  /** A smaller digit leaves room for the lower ones. */
  lemma DigitBound(high: int, limit: int, base: int, low: int)
    requires 0 <= high < limit && 0 <= low < base
    ensures 0 <= high * base + low < limit * base
  {
    MulMonotone(high + 1, limit, base);
    MulMonotone(0, high, base);
  }

  /** Three digits in mixed radix, read as two. */
  lemma ThreeDigits(z: int, b: int, y: int, a: int, x: int)
    ensures (z * b + y) * a + x == z * (b * a) + (y * a + x)
  {
  }

  lemma MultipleDivides(n: int, d: int)
    requires d > 0
    ensures (n * d) % d == 0 && (n * d) / d == n
  {
    DivModUnique(d, n, 0);
  }

  function Min(a: nat, b: nat): nat { if a <= b then a else b }

  function Max(a: nat, b: nat): nat { if a <= b then b else a }

  /** The smallest multiple of `alignment` that is at least `value`; zero aligns nothing. */
  function AlignUp(value: nat, alignment: nat): (r: nat)
    ensures value <= r
    ensures alignment > 0 ==> r % alignment == 0 && r < value + alignment
    ensures alignment == 0 ==> r == value
  {
    if alignment == 0 then value
    else
      var up := (value + (alignment - 1)) / alignment;
      MultipleDivides(up, alignment);
      up * alignment
  }
}
