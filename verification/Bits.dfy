/** Bitwise operations on unsigned machine integers, as operations on natural numbers. */
module Bits {

  function Pow2(k: nat): (p: nat)
    ensures p >= 1
  {
    if k == 0 then 1 else 2 * Pow2(k - 1)
  }

  // a & b
  function And(a: nat, b: nat): nat
    decreases a
  {
    if a == 0 then 0 else 2 * And(a / 2, b / 2) + (a % 2) * (b % 2)
  }

  lemma {:induction false} AndAtMost(a: nat, b: nat)
    ensures And(a, b) <= a
    decreases a
  {
    if a > 0 {
      AndAtMost(a / 2, b / 2);
    }
  }

  // ~a in a word of the given width
  function Not(a: nat, width: nat): nat
    requires a < Pow2(width)
  {
    Pow2(width) - 1 - a
  }

  // a rounded down to a multiple of 2^k: the low k bits cleared
  function Down(a: nat, k: nat): nat {
    if k == 0 then a else 2 * Down(a / 2, k - 1)
  }

  // a sum that went past the end of a word once
  function Wrap(a: nat, width: nat): nat
    requires a < 2 * Pow2(width)
  {
    if a < Pow2(width) then a else a - Pow2(width)
  }

  // ---------------------------------------------------------------- powers of two

  lemma {:induction false} Pow2Add(a: nat, b: nat)
    ensures Pow2(a + b) == Pow2(a) * Pow2(b)
  {
    if a > 0 {
      Pow2Add(a - 1, b);
      MulAssoc(2, Pow2(a - 1), Pow2(b));
    }
  }

  lemma {:induction false} Pow2Mono(a: nat, b: nat)
    requires a <= b
    ensures Pow2(a) <= Pow2(b)
    ensures a < b ==> 2 * Pow2(a) <= Pow2(b)
    decreases b - a
  {
    if a < b {
      Pow2Mono(a, b - 1);
    }
  }

  lemma Powers()
    ensures Pow2(1) == 2 && Pow2(2) == 4 && Pow2(4) == 16 && Pow2(8) == 256 && Pow2(16) == 0x1_0000
    ensures Pow2(30) == 0x4000_0000 && Pow2(31) == 0x8000_0000 && Pow2(32) == 0x1_0000_0000
  {
    assert Pow2(2) == 2 * Pow2(1);
    Pow2Add(2, 2);
    Pow2Add(4, 4);
    Pow2Add(8, 8);
    Pow2Add(16, 16);
    assert Pow2(32) == 2 * Pow2(31) && Pow2(31) == 2 * Pow2(30);
  }

  // ---------------------------------------------------------------- rounding down

  lemma {:induction false} DownBounds(a: nat, k: nat)
    ensures Down(a, k) <= a < Down(a, k) + Pow2(k)
  {
    if k > 0 {
      DownBounds(a / 2, k - 1);
    }
  }

  /** Clearing the low k bits is taking the remainder by 2^k away. */
  lemma {:induction false} DownIsMod(a: nat, k: nat)
    ensures Down(a, k) == a - a % Pow2(k)
  {
    if k > 0 {
      DownIsMod(a / 2, k - 1);
      HalfMod(a, Pow2(k - 1));
    }
  }

  lemma {:induction false} DownMono(a: nat, b: nat, k: nat)
    requires a <= b
    ensures Down(a, k) <= Down(b, k)
  {
    if k > 0 {
      DownMono(a / 2, b / 2, k - 1);
    }
  }

  // A larger power of two can be taken out of the rounding.
  lemma {:induction false} DownShift(a: nat, k: nat, j: nat)
    requires k <= j
    ensures Down(a + Pow2(j), k) == Down(a, k) + Pow2(j)
  {
    if k > 0 {
      assert (a + Pow2(j)) / 2 == a / 2 + Pow2(j - 1);
      DownShift(a / 2, k - 1, j - 1);
    }
  }

  lemma {:induction false} DownTwice(a: nat, k: nat, j: nat)
    requires k <= j
    ensures Down(Down(a, k), j) == Down(a, j) == Down(Down(a, j), k)
  {
    if k > 0 {
      DownTwice(a / 2, k - 1, j - 1);
    }
  }

  lemma {:induction false} DownSmall(a: nat, k: nat)
    requires a < Pow2(k)
    ensures Down(a, k) == 0
  {
    if k > 0 {
      DownSmall(a / 2, k - 1);
    }
  }

  // ---------------------------------------------------------------- masks

  // Half of a complement is the complement of half.
  lemma NotHalf(a: nat, width: nat)
    requires width > 0 && a < Pow2(width)
    ensures Not(a, width) / 2 == Not(a / 2, width - 1) && Not(a, width) % 2 == 1 - a % 2
  {}

  lemma OnesHalf(k: nat)
    requires k > 0
    ensures (Pow2(k) - 1) / 2 == Pow2(k - 1) - 1 && (Pow2(k) - 1) % 2 == 1 && Pow2(k) == 2 * Pow2(k - 1)
  {
    OddHalf(Pow2(k - 1));
  }

  lemma OddHalf(p: nat)
    requires p > 0
    ensures (2 * p - 1) / 2 == p - 1 && (2 * p - 1) % 2 == 1
  {}

  lemma AndEven(a: nat, m: nat)
    requires m % 2 == 0
    ensures And(a, m) == 2 * And(a / 2, m / 2)
  {}

  // Keeping the bits from k up is rounding down.
  lemma {:induction false} AndHigh(a: nat, k: nat, width: nat)
    requires k <= width && a < Pow2(width) && Pow2(k) - 1 < Pow2(width)
    ensures And(a, Not(Pow2(k) - 1, width)) == Down(a, k)
    decreases k
  {
    if k == 0 {
      AndAll(a, width);
    } else {
      NotHalf(Pow2(k) - 1, width);
      OnesHalf(k);
      OnesHalf(width);
      AndEven(a, Not(Pow2(k) - 1, width));
      AndHigh(a / 2, k - 1, width - 1);
    }
  }

  lemma {:induction false} AndAll(a: nat, width: nat)
    requires a < Pow2(width)
    ensures And(a, Pow2(width) - 1) == a
  {
    if a > 0 {
      OnesHalf(width);
      AndAll(a / 2, width - 1);
    }
  }

  // Keeping bit k alone.
  lemma {:induction false} AndBit(a: nat, k: nat)
    ensures And(a, Pow2(k)) == Down(a, k) - Down(a, k + 1)
    decreases k
  {
    if k == 0 {
      AndZero(a / 2);
    } else {
      AndBit(a / 2, k - 1);
    }
  }

  lemma {:induction false} AndZero(a: nat)
    ensures And(a, 0) == 0
  {
    if a > 0 {
      AndZero(a / 2);
    }
  }

  // ---------------------------------------------------------------- products and remainders

  lemma HalfMod(a: nat, p: nat)
    requires p > 0
    ensures a % (2 * p) == 2 * ((a / 2) % p) + a % 2
  {
    var q, r := (a / 2) / p, (a / 2) % p;
    assert a / 2 == p * q + r;
    assert a == (2 * p) * q + (2 * r + a % 2);
    ModUnique(a, 2 * p, q, 2 * r + a % 2);
  }

  lemma ModUnique(a: nat, p: nat, q: int, r: nat)
    requires r < p && a == p * q + r
    ensures a % p == r && a / p == q
  {
    var d := a / p - q;
    assert a == p * (a / p) + a % p;
    assert p * d == r - a % p;
    NoSmallMultiple(p, d);
  }

  lemma NoSmallMultiple(p: int, d: int)
    requires -p < p * d < p
    ensures d == 0
  {
    MulAtLeast(p, d);
  }

  lemma MulAtLeast(p: int, d: int)
    requires p > 0
    ensures d >= 1 ==> p * d >= p
    ensures d <= -1 ==> p * d <= -p
  {}

  lemma MulLe(p: nat, a: int, b: int)
    requires a <= b
    ensures p * a <= p * b
  {}

  lemma MulAssoc(a: int, b: int, c: int)
    ensures a * (b * c) == (a * b) * c
  {}
}
