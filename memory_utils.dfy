/** MemoryUtils.align: rounding a value up to a power-of-two alignment with a bit mask. */
module MemoryUtils {
  import opened JavaLang

  /** align(value, alignment) = (value + (alignment - 1)) & ~(alignment - 1), in int arithmetic. */
  function Align(value: Int32, alignment: Int32): Int32
  {
    var mask := Wrap32(alignment - 1);
    BitAnd32(Wrap32(value + mask), BitNot32(mask))
  }

  /** AND with all of the low n bits set keeps the low n bits. */
  lemma {:induction false} AndBitsOnes(x: nat, n: nat)
    ensures AndBits(x, Pow2(n) - 1, n) == x % Pow2(n)
  {
    if n > 0 {
      var p := Pow2(n - 1);
      AndBitsOnes(x / 2, n - 1);
      DivUnique(2 * p - 1, 2, p - 1, 1);
      ModStep(x, 2, p);
    }
  }

  /** AND with bits k..n-1 set keeps exactly those bits of x. */
  lemma {:induction false} AndBitsHighMask(x: nat, n: nat, k: nat)
    requires k <= n
    ensures Pow2(k) <= Pow2(n)
    ensures AndBits(x, Pow2(n) - Pow2(k), n) == x % Pow2(n) - x % Pow2(k)
    decreases n, 1
  {
    Pow2Monotone(k, n);
    if k == 0 {
      AndBitsOnes(x, n);
    } else {
      HighMaskPow2Step(x, n, k);
    }
  }

  /** The inductive step of AndBitsHighMask: from x / 2 on bits k-1..n-2 to x on bits k..n-1. */
  lemma {:induction false} HighMaskPow2Step(x: nat, n: nat, k: nat)
    requires 0 < k <= n
    ensures Pow2(k) <= Pow2(n)
    ensures AndBits(x, Pow2(n) - Pow2(k), n) == x % Pow2(n) - x % Pow2(k)
    decreases n, 0
  {
    AndBitsHighMask(x / 2, n - 1, k - 1);
    HighMaskStep(x, n, Pow2(n - 1), Pow2(k - 1), Pow2(n), Pow2(k));
  }

  /** The step of AndBitsHighMask: masks 2p - 2q on x from p - q on x / 2. */
  lemma HighMaskStep(x: nat, n: nat, p: nat, q: nat, big: nat, small: nat)
    requires n > 0 && 0 < q <= p && big == 2 * p && small == 2 * q
    requires AndBits(x / 2, p - q, n - 1) == (x / 2) % p - (x / 2) % q
    ensures AndBits(x, big - small, n) == x % big - x % small
  {
    AndBitsEvenMask(x, p - q, n);
    ModStep(x, 2, p);
    ModStep(x, 2, q);
    DoubledDifference(AndBits(x, big - small, n), AndBits(x / 2, p - q, n - 1),
                      (x / 2) % p, (x / 2) % q, x % big, x % small, x % 2);
  }

  lemma DoubledDifference(whole: int, half: int, a: int, b: int, big: int, small: int, bit: int)
    requires whole == 2 * half && half == a - b && big == 2 * a + bit && small == 2 * b + bit
    ensures whole == big - small
  {
  }

  /** One step of AndBits on an even mask 2m: the lowest bit of the result is 0. */
  lemma AndBitsEvenMask(x: nat, m: nat, n: nat)
    requires n > 0
    ensures AndBits(x, 2 * m, n) == 2 * AndBits(x / 2, m, n - 1)
  {
    DivUnique(2 * m, 2, m, 0);
  }

  lemma Pow2Monotone(k: nat, n: nat)
    requires k <= n
    ensures Pow2(k) <= Pow2(n)
  {
    if k < n {
      Pow2Monotone(k, n - 1);
    }
  }

  /** Without overflow, align clears the low k bits of value + a - 1. */
  lemma AlignClearsLowBits(value: Int32, alignment: Int32, k: nat)
    requires alignment == Pow2(k) && 0 <= value && value + alignment - 1 < TWO_31
    ensures var x := value + alignment - 1; Align(value, alignment) == x - x % alignment
  {
    var a := alignment;
    var x := value + a - 1;
    Pow2Of32();
    if k > 30 {
      Pow2Monotone(31, k);
      assert false;
    }
    assert Wrap32(a - 1) == a - 1;
    assert Unsigned32(Wrap32(value + (a - 1))) == x;
    assert Unsigned32(BitNot32(a - 1)) == Pow2(32) - Pow2(k);
    AndBitsHighMask(x, 32, k);
    DivUnique(x, Pow2(32), 0, x);
    assert AndBits(x, Pow2(32) - Pow2(k), 32) == x - x % a;
  }

  /**
   * For a power-of-two alignment a = 2^k and no overflow in value + a - 1, align rounds up to
   * the next multiple of a: the result is a multiple of a with value <= result < value + a.
   */
  lemma AlignRoundsUp(value: Int32, alignment: Int32, k: nat)
    requires alignment == Pow2(k) && 0 <= value && value + alignment - 1 < TWO_31
    ensures Align(value, alignment) % alignment == 0
    ensures value <= Align(value, alignment) < value + alignment
  {
    var a := alignment;
    var x := value + a - 1;
    AlignClearsLowBits(value, a, k);
    RoundDown(x, a);
  }

  /** x - x % a is the largest multiple of a not above x. */
  lemma RoundDown(x: int, a: int)
    requires a > 0
    ensures (x - x % a) % a == 0 && x - a < x - x % a <= x
  {
    var q := x / a;
    assert x == a * q + x % a;
    DivUnique(x - x % a, a, q, 0);
  }

  /** align(0, a) = 0 for every power-of-two alignment a. */
  lemma AlignZero(alignment: Int32, k: nat)
    requires alignment == Pow2(k)
    ensures Align(0, alignment) == 0
  {
    AlignRoundsUp(0, alignment, k);
    var r := Align(0, alignment);
    DivUnique(r, alignment, 0, r);
  }

  /** An aligned value is left unchanged, so align is idempotent. */
  lemma AlignIdempotent(value: Int32, alignment: Int32, k: nat)
    requires alignment == Pow2(k) && 0 <= value && value + alignment - 1 < TWO_31
    ensures Align(Align(value, alignment), alignment) == Align(value, alignment)
  {
    var a := alignment;
    AlignRoundsUp(value, a, k);
    var r := Align(value, a);
    // r is a multiple of a below 2^31, itself a multiple of a, so r + a - 1 does not overflow
    Pow2Of32();
    if k > 31 {
      Pow2Monotone(32, k);
    }
    Pow2Split(k, 31);
    MultipleBelow(r, a, Pow2(31 - k));
    AlignClearsLowBits(r, a, k);
    AlignedRemainder(r, a);
  }

  lemma Pow2Split(k: nat, n: nat)
    requires k <= n
    ensures Pow2(n) == Pow2(k) * Pow2(n - k)
  {
    if k < n {
      Pow2Split(k, n - 1);
      assert Pow2(n) == 2 * (Pow2(k) * Pow2(n - 1 - k));
    }
  }

  /** A multiple of a below a * m is at most a * m - a. */
  lemma MultipleBelow(r: int, a: int, m: int)
    requires a > 0 && r % a == 0 && r < a * m
    ensures r <= a * m - a
  {
    var q := r / a;
    assert r == a * q;
    if q >= m {
      MulLe(a, m, q);
    }
    MulLe(a, q, m - 1);
    MulSub(a, m, 1);
  }

  /** For a multiple r of a, (r + a - 1) % a == a - 1. */
  lemma AlignedRemainder(r: int, a: int)
    requires a > 0 && r % a == 0
    ensures (r + a - 1) % a == a - 1
  {
    var q := r / a;
    assert r == a * q;
    DivUnique(r + a - 1, a, q, a - 1);
  }
}
