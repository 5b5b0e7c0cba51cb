/** The power-of-two helpers: bit tricks proved against division. */
module IntMath {
  import opened Bits

  // n & ~(n - 1), where n - 1 wraps round at zero.
  function LeastSigBit(n: nat, width: nat): nat
    requires n < Pow2(width)
  {
    And(n, Not(if n == 0 then Pow2(width) - 1 else n - 1, width))
  }

  predicate IsPowerOf2(n: nat, width: nat)
    requires n < Pow2(width)
  {
    n != 0 && LeastSigBit(n, width) == n
  }

  lemma {:induction false} AndNot(a: nat, width: nat)
    requires a < Pow2(width)
    ensures And(a, Not(a, width)) == 0
  {
    if a > 0 {
      NotHalf(a, width);
      AndNot(a / 2, width - 1);
    }
  }

  lemma LeastSigBitOdd(n: nat, width: nat)
    requires n < Pow2(width) && n % 2 == 1
    ensures LeastSigBit(n, width) == 1
  {
    NotHalf(n - 1, width);
    assert (n - 1) / 2 == n / 2;
    AndNot(n / 2, width - 1);
  }

  lemma LeastSigBitEven(n: nat, width: nat)
    requires 0 < n < Pow2(width) && n % 2 == 0
    ensures LeastSigBit(n, width) == 2 * LeastSigBit(n / 2, width - 1)
  {
    NotHalf(n - 1, width);
    assert (n - 1) / 2 == n / 2 - 1;
  }

  /** The least significant bit is the power of two that leaves an odd quotient. */
  lemma {:induction false} LeastSigBitMeaning(n: nat, width: nat) returns (k: nat, odd: nat)
    requires 0 < n < Pow2(width)
    ensures LeastSigBit(n, width) == Pow2(k) && n == Pow2(k) * odd && odd % 2 == 1
    decreases n
  {
    if n % 2 == 1 {
      LeastSigBitOdd(n, width);
      k, odd := 0, n;
    } else {
      LeastSigBitEven(n, width);
      k, odd := LeastSigBitMeaning(n / 2, width - 1);
      MulAssoc(2, Pow2(k), odd);
      k := k + 1;
    }
  }

  lemma {:induction false} LeastSigBitOfPower(k: nat, width: nat)
    requires k < width
    ensures Pow2(k) < Pow2(width) && LeastSigBit(Pow2(k), width) == Pow2(k)
  {
    Pow2Mono(k, width);
    if k == 0 {
      LeastSigBitOdd(1, width);
    } else {
      LeastSigBitEven(Pow2(k), width);
      LeastSigBitOfPower(k - 1, width - 1);
    }
  }

  /** The bit trick recognises exactly the powers of two. */
  lemma PowerOf2Iff(n: nat, width: nat)
    requires n < Pow2(width)
    ensures IsPowerOf2(n, width) <==> exists k: nat :: k < width && n == Pow2(k)
  {
    if IsPowerOf2(n, width) {
      var k, odd := LeastSigBitMeaning(n, width);
      if k >= width {
        Pow2Mono(width, k);
        assert false;
      }
    }
    if k: nat :| k < width && n == Pow2(k) {
      LeastSigBitOfPower(k, width);
    }
  }

  // ---------------------------------------------------------------- rounding

  // The least multiple of 2^k that is not below v.
  function Ceil(v: nat, k: nat): nat {
    Down(v + Pow2(k) - 1, k)
  }

  lemma CeilMeaning(v: nat, k: nat)
    ensures v <= Ceil(v, k) < v + Pow2(k)
    ensures Down(Ceil(v, k), k) == Ceil(v, k)
    ensures Ceil(v, k) == v <==> Down(v, k) == v
    ensures Down(v, k) != v ==> Ceil(v, k) == Down(v, k) + Pow2(k)
  {
    var s := v + Pow2(k) - 1;
    DownBounds(s, k);
    DownTwice(s, k, k);
    DownBounds(v, k);
    DownShift(v, k, k);
    DownMono(s, v + Pow2(k), k);
    if Down(v, k) == v {
      DownMono(v, s, k);
      NoMultipleBetween(s, v, k);
    } else {
      DownShift(v - 1, k, k);
      DownTwice(v, k, k);
      NoMultipleBetween(v - 1, Down(v, k), k);
    }
  }

  // Rounding down a number less than 2^k above a multiple gives that multiple.
  lemma NoMultipleBetween(a: nat, m: nat, k: nat)
    requires Down(m, k) == m <= a < m + Pow2(k)
    ensures Down(a, k) == m
  {
    DownMono(m, a, k);
    DownBounds(a, k);
    CloseMultiples(Down(a, k), m, k);
    DownTwice(a, k, k);
  }

  lemma {:induction false} CloseMultiples(a: nat, b: nat, k: nat)
    requires Down(a, k) == a && Down(b, k) == b && b <= a < b + Pow2(k)
    ensures a == b
  {
    if k > 0 {
      CloseMultiples(a / 2, b / 2, k - 1);
    }
  }

  // (val + mask) & ~mask
  function Masked(val: nat, mask: nat, width: nat): nat
    requires val < Pow2(width) && mask < Pow2(width)
  {
    And(Wrap(val + mask, width), Not(mask, width))
  }

  // The mask is align - 1 as an unsigned number of the given width.
  function RoundUp(val: nat, align: int, width: nat): nat
    requires val < Pow2(width) && 0 < Pow2(width) + align <= 2 * Pow2(width)
  {
    Masked(val, if align >= 1 then align - 1 else align - 1 + Pow2(width), width)
  }

  // A 32-bit unsigned number passed as an int.
  function AsInt(u: nat): int {
    if u < 0x8000_0000 then u else u - 0x1_0000_0000
  }

  lemma SmallPower(k: nat)
    requires k <= 30
    ensures Pow2(k) <= 0x4000_0000 && AsInt(Pow2(k)) == Pow2(k)
  {
    Pow2Mono(k, 30);
    Powers();
  }

  // Clearing low bits before or after wrapping round is the same.
  lemma DownWrap(s: nat, k: nat, width: nat)
    requires k <= width && s < 2 * Pow2(width)
    ensures Down(s, k) < 2 * Pow2(width) && Down(Wrap(s, width), k) == Wrap(Down(s, k), width)
  {
    DownBounds(s, k);
    if s >= Pow2(width) {
      DownShift(s - Pow2(width), k, width);
    }
  }

  /** Adding and clearing the low k bits rounds up, wrapping round at the word size.  Every
      power of two below 2^31 survives being passed as an int. */
  lemma RoundUpMeaning(val: nat, k: nat, width: nat)
    requires val < Pow2(width) && k <= width && Pow2(k) <= Pow2(width)
    ensures Ceil(val, k) < 2 * Pow2(width)
    ensures RoundUp(val, Pow2(k), width) == Wrap(Ceil(val, k), width)
  {
    MaskedDown(val, Pow2(k) - 1, k, width);
    DownWrap(val + Pow2(k) - 1, k, width);
  }

  lemma MaskedDown(val: nat, mask: nat, k: nat, width: nat)
    requires val < Pow2(width) && k <= width && mask == Pow2(k) - 1 < Pow2(width)
    ensures Masked(val, mask, width) == Down(Wrap(val + mask, width), k)
  {
    AndHigh(Wrap(val + mask, width), k, width);
  }

  // Bit k of a, in place.
  function BitAt(a: nat, k: nat): int {
    Down(a, k) - Down(a, k + 1)
  }

  lemma BitShift(a: nat, k: nat, j: nat)
    requires k < j
    ensures BitAt(a + Pow2(j), k) == BitAt(a, k)
  {
    DownShift(a, k, j);
    DownShift(a, k + 1, j);
  }

  lemma SameBit(x: nat, s: nat, k: nat, j: nat)
    requires k < j && (x + Pow2(k + 1) == s || x + Pow2(k + 1) == s + Pow2(j))
    ensures BitAt(x, k) == BitAt(s, k)
  {
    BitShift(x, k, k + 1);
    BitShift(s, k, j);
  }

  lemma BitOfDown(s: nat, k: nat)
    ensures BitAt(s, k) == Down(s, k) - Down(Down(s, k), k + 1)
  {
    DownTwice(s, k, k + 1);
  }

  lemma MaskedKeepsBit(val: nat, mask: nat, k: nat, width: nat)
    requires val < Pow2(width) && mask < Pow2(width) && Not(mask, width) == Pow2(k)
    ensures Masked(val, mask, width) == BitAt(Wrap(val + mask, width), k)
  {
    AndBit(Wrap(val + mask, width), k);
  }

  // Masking with the complement of bit k alone leaves bit k of the rounded-up number.
  lemma MaskedBit(val: nat, mask: nat, k: nat, width: nat)
    requires val < Pow2(width) && k < width && mask + Pow2(k) + 1 == Pow2(width)
    ensures Masked(val, mask, width) == Ceil(val, k) - Down(Ceil(val, k), k + 1)
  {
    MaskedKeepsBit(val, mask, k, width);
    SameBit(Wrap(val + mask, width), val + Pow2(k) - 1, k, width);
    BitOfDown(val + Pow2(k) - 1, k);
  }

  lemma BelowPower(c: nat, k: nat)
    ensures c - Down(c, k) == c <==> c < Pow2(k)
  {
    DownBounds(c, k);
    if c < Pow2(k) {
      DownSmall(c, k);
    }
  }

  /** 2^31 becomes negative when passed as an int.  Only bit 31 of the result survives, so an
      address is rounded up correctly if and only if it is at most 2^31. */
  lemma RoundUpTo2Pow31(val: nat, width: nat)
    requires width > 32 && val < Pow2(width) && 0x1_0000_0000 < Pow2(width)
    ensures RoundUp(val, AsInt(0x8000_0000), width) == Ceil(val, 31) <==> val <= 0x8000_0000
  {
    Powers();
    MaskedBit(val, Pow2(width) - Pow2(31) - 1, 31, width);
    BelowPower(Ceil(val, 31), 32);
    CeilAtMost(val, 31);
  }

  lemma CeilJustAbove()
    ensures Ceil(0x8000_0001, 31) == 0x1_0000_0000 == Pow2(32)
  {
    Powers();
    CeilMeaning(0x8000_0001, 31);
    DownShift(1, 31, 31);
    DownSmall(1, 31);
  }

  /** Just above 2^31 the rounded address is 0 instead of 2^32. */
  lemma RoundUpLost()
    ensures 0x8000_0001 < Pow2(64) && RoundUp(0x8000_0001, AsInt(0x8000_0000), 64) == 0
    ensures Ceil(0x8000_0001, 31) == 0x1_0000_0000
  {
    Powers();
    Pow2Mono(33, 64);
    CeilJustAbove();
    MaskedBit(0x8000_0001, Pow2(64) - Pow2(31) - 1, 31, 64);
    DownShift(0, 32, 32);
    DownSmall(0, 32);
  }

  lemma CeilAtMost(v: nat, k: nat)
    ensures v <= Pow2(k) ==> Ceil(v, k) <= Pow2(k)
    ensures v > Pow2(k) ==> Ceil(v, k) >= 2 * Pow2(k)
  {
    var s := v + Pow2(k) - 1;
    DownShift(0, k, k);
    DownSmall(0, k);
    if v <= Pow2(k) {
      DownBounds(s, k);
      if s >= Pow2(k) {
        NoMultipleBetween(s, Pow2(k), k);
      }
    } else {
      DownShift(Pow2(k), k, k);
      DownMono(2 * Pow2(k), s, k);
    }
  }

  // ---------------------------------------------------------------- logarithms

  // A mask of the bits from lo up to below hi finds out whether a number below 2^hi reaches 2^lo.
  lemma {:induction false} MaskTests(x: nat, lo: nat, hi: nat, mask: nat)
    requires lo <= hi && x < Pow2(hi) && mask + Pow2(lo) == Pow2(hi)
    ensures And(x, mask) != 0 <==> x >= Pow2(lo)
  {
    Pow2Mono(lo, hi);
    AndHigh(x, lo, hi);
    DownBounds(x, lo);
    if x < Pow2(lo) {
      DownSmall(x, lo);
    }
  }

  // p * x <= n < p * (x + 1) is kept by shifting x right and multiplying p accordingly.
  lemma ShiftKeeps(n: nat, p: nat, x: nat, d: nat)
    requires p > 0 && d > 0 && p * x <= n < p * (x + 1)
    ensures var x' := x / d; (p * d) * x' <= n < (p * d) * (x' + 1)
  {
    var x' := x / d;
    assert x == d * x' + x % d;
    MulLe(p, d * x', x);
    MulLe(p, x + 1, d * (x' + 1));
    MulAssoc(p, d, x');
    MulAssoc(p, d, x' + 1);
  }

  // One rung of the ladder: test the upper half of the remaining bits and shift it down.
  method Rung(n: nat, x: nat, y: nat, half: nat, mask: nat) returns (x': nat, y': nat)
    requires 0 < x < Pow2(2 * half) && mask + Pow2(half) == Pow2(2 * half)
    requires Pow2(y) * x <= n < Pow2(y) * (x + 1)
    ensures 0 < x' < Pow2(half)
    ensures Pow2(y') * x' <= n < Pow2(y') * (x' + 1)
    ensures y' == y || y' == y + half
  {
    MaskTests(x, half, 2 * half, mask);
    if And(x, mask) != 0 {
      y', x' := y + half, x / Pow2(half);
      ShiftKeeps(n, Pow2(y), x, Pow2(half));
      Pow2Add(y, half);
      Pow2Add(half, half);
      DivBounds(x, Pow2(half));
    } else {
      x', y' := x, y;
    }
  }

  lemma DivBounds(x: nat, p: nat)
    requires 0 < p <= x < p * p
    ensures 0 < x / p < p
  {
    var q := x / p;
    assert x == p * q + x % p;
    if q >= p {
      MulLe(p, p, q);
      assert false;
    }
  }

  /** floorLog2 of a 32-bit number. */
  method FloorLog2(n: nat) returns (y: nat)
    requires 0 < n < 0x1_0000_0000
    ensures y < 32 && Pow2(y) <= n < Pow2(y + 1)
  {
    Powers();
    var x := n;
    y := 0;
    x, y := Rung(n, x, y, 16, 0xffff0000);
    x, y := Rung(n, x, y, 8, 0x0000ff00);
    x, y := Rung(n, x, y, 4, 0x000000f0);
    x, y := Rung(n, x, y, 2, 0x0000000c);
    x, y := Rung(n, x, y, 1, 0x00000002);
  }

  method CeilLog2(n: nat) returns (r: nat)
    requires 0 < n < 0x1_0000_0000
    ensures n == 1 ==> r == 0
    ensures n > 1 ==> 1 <= r <= 32 && Pow2(r - 1) < n <= Pow2(r)
  {
    if n == 1 {
      return 0;
    }
    r := FloorLog2(n - 1);
    r := r + 1;
  }
}
