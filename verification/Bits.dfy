/** Bitwise operators on numbers of a fixed width, digit by digit as their standards define them,
    and what they come to in arithmetic. */
module Bits {
  function Pow2(n: nat): (p: nat)
    ensures p > 0
  {
    if n == 0 then 1 else 2 * Pow2(n - 1)
  }

  /** Exclusive or of two `width`-bit numbers. */
  function Xor(a: nat, b: nat, width: nat): (r: nat)
    ensures r < Pow2(width)
  {
    if width == 0 then 0 else (a + b) % 2 + 2 * Xor(a / 2, b / 2, width - 1)
  }

  /** Applying the same mask twice gives the number back. */
  lemma {:induction false} XorTwice(a: nat, b: nat, width: nat)
    requires a < Pow2(width)
    ensures Xor(Xor(a, b, width), b, width) == a
  {
    if width > 0 {
      XorTwice(a / 2, b / 2, width - 1);
      LowBit((a + b) % 2, Xor(a / 2, b / 2, width - 1));
      Parity(a, b, Xor(a, b, width));
      LowBit(a % 2, a / 2);
    }
  }

  lemma LowBit(bit: nat, rest: nat)
    requires bit < 2
    ensures (bit + 2 * rest) % 2 == bit && (bit + 2 * rest) / 2 == rest
  {}

  /** Adding the same bit twice leaves a bit as it was. */
  lemma Parity(a: nat, b: nat, x: nat)
    requires x % 2 == (a + b) % 2
    ensures (x + b) % 2 == a % 2
  {}

  /** Bitwise and of two `width`-bit numbers. */
  function And(a: nat, b: nat, width: nat): (r: nat)
    ensures r < Pow2(width)
  {
    if width == 0 then 0 else (a % 2) * (b % 2) + 2 * And(a / 2, b / 2, width - 1)
  }

  lemma {:induction false} AndOnes(a: nat, width: nat)
    requires a < Pow2(width)
    ensures And(a, Pow2(width) - 1, width) == a
  {
    if width > 0 {
      AndOnes(a / 2, width - 1);
      var ones := Pow2(width) - 1;
      assert ones / 2 == Pow2(width - 1) - 1 && ones % 2 == 1;
    }
  }

  lemma {:induction false} Pow2Grows(low: nat, width: nat)
    requires low <= width
    ensures Pow2(low) <= Pow2(width)
  {
    if low < width {
      Pow2Grows(low, width - 1);
    }
  }

  /** Masking with ones above the lowest `low` bits drops exactly those bits. */
  lemma {:induction false} AndMask(a: nat, low: nat, width: nat)
    requires a < Pow2(width) && low <= width
    ensures Pow2(low) <= Pow2(width)
    ensures And(a, Pow2(width) - Pow2(low), width) == a / Pow2(low) * Pow2(low)
    decreases low
  {
    Pow2Grows(low, width);
    if low == 0 {
      AndOnes(a, width);
    } else {
      AndMask(a / 2, low - 1, width - 1);
      var p, q := Pow2(width - 1), Pow2(low - 1);
      var mask := 2 * p - 2 * q;
      assert mask / 2 == p - q && mask % 2 == 0;
      assert And(a, mask, width) == 2 * And(a / 2, p - q, width - 1);
      MaskDoubled(a, q);
    }
  }

  lemma MaskDoubled(a: nat, q: nat)
    requires q > 0
    ensures 2 * (a / 2 / q * q) == a / (2 * q) * (2 * q)
  {
    HalveTwice(a, q);
    MulSwap(a / (2 * q), q);
  }

  lemma MulSwap(x: nat, q: nat)
    ensures x * q * 2 == x * (2 * q)
  {}

  lemma HalveTwice(a: nat, q: nat)
    requires q > 0
    ensures a / 2 / q == a / (2 * q)
  {
    var k := a / 2 / q;
    var r := a / 2 - k * q;
    assert a == 2 * (k * q + r) + a % 2;
    assert 0 <= r < q;
    assert a == k * (2 * q) + (2 * r + a % 2) by { MulSwap(k, q); }
    assert 0 <= 2 * r + a % 2 < 2 * q;
    QuotientUnique(a, 2 * q, k, 2 * r + a % 2);
  }

  lemma QuotientUnique(a: int, d: int, k: int, r: int)
    requires d > 0 && 0 <= r < d && a == k * d + r
    ensures a / d == k && a % d == r
  {
    var k', r' := a / d, a % d;
    assert a == k' * d + r' && 0 <= r' < d;
    assert (k - k') * d == r' - r;
    if k > k' {
      MulAtLeast(k - k', d);
    } else if k < k' {
      MulAtLeast(k' - k, d);
    }
  }

  lemma MulAtLeast(x: int, d: int)
    requires x >= 1 && d > 0
    ensures x * d >= d
  {
    assert (x - 1) * d >= 0;
  }
}
