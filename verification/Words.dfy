/**
 Machine words of 32 bits as numbers: what the arithmetic on words does to the numbers they stand for.
 */
module Words {
  import opened Rings
  import Bits

  type Word = bv32

  const TWO32: nat := 0x1_0000_0000

  function Add(x: Word, y: Word): Word { x + y }

  function Sub(x: Word, y: Word): Word { x - y }

  function Mul(x: Word, y: Word): Word { x * y }

  function Eor(x: Word, y: Word): Word { x ^ y }

  function Shr(w: Word): Word { w >> 1 }

  const Bits32: Binary<Word> :=
    Binary(Ring((x, y) => Add(x, y), (x, y) => Mul(x, y), 0, 1), w => Shr(w), w => w & 1 == 1)

  // An int as it enters 32-bit unsigned arithmetic.
  function Wrap(i: nat): Word {
    Digits(Bits32, i)
  }

  // The number that a word stands for.
  function Value(w: Word): nat {
    Low(Bits32, w, 32)
  }

  // ---------------------------------------------------------------- the laws of one word

  lemma PlusIs(x: Word, y: Word)
    ensures Bits32.ring.plus(x, y) == Add(x, y)
  {}

  lemma TimesIs(x: Word, y: Word)
    ensures Bits32.ring.times(x, y) == Mul(x, y)
  {}

  lemma HalfIs(w: Word)
    ensures Bits32.half(w) == Shr(w) && (Bits32.odd(w) <==> w & 1 == 1)
  {}

  lemma DoubledIs(w: Word, bit: bool)
    ensures Doubled(Bits32, w, bit) == Add(Add(w, w), if bit then 1 else 0)
  {}

  lemma RawRing(x: Word, y: Word, z: Word)
    ensures (x + y) + z == x + (y + z) && x + 0 == x && x * (y + 1) == x * y + x && x * 0 == 0
  {}

  lemma SumsAssociate(x: Word, y: Word, z: Word)
    ensures Bits32.ring.plus(Bits32.ring.plus(x, y), z) == Bits32.ring.plus(x, Bits32.ring.plus(y, z))
  {
    PlusIs(x, y);
    PlusIs(y, z);
    PlusIs(x + y, z);
    PlusIs(x, y + z);
    RawRing(x, y, z);
  }

  lemma ProductsDistribute(x: Word, y: Word)
    ensures Bits32.ring.times(x, Bits32.ring.plus(y, Bits32.ring.one)) == Bits32.ring.plus(Bits32.ring.times(x, y), x)
  {
    PlusIs(y, 1);
    TimesIs(x, y + 1);
    TimesIs(x, y);
    PlusIs(x * y, x);
    RawRing(x, y, y);
  }

  lemma ZeroIs(x: Word)
    ensures Bits32.ring.plus(x, Bits32.ring.zero) == x && Bits32.ring.times(x, Bits32.ring.zero) == Bits32.ring.zero
  {
    PlusIs(x, 0);
    TimesIs(x, 0);
    RawRing(x, x, x);
  }

  lemma RingAt(x: Word, y: Word, z: Word)
    ensures LawAt(Bits32.ring, x, y, z)
  {
    SumsAssociate(x, y, z);
    ProductsDistribute(x, y);
    ZeroIs(x);
  }

  lemma RingLaws()
    ensures Laws(Bits32.ring)
  {
    forall x: Word, y: Word, z: Word {:trigger At(x, y, z)}
      ensures LawAt(Bits32.ring, x, y, z)
    {
      RingAt(x, y, z);
    }
  }

  lemma RawHalf(w: Word)
    ensures Add(Add(Shr(w), Shr(w)), if w & 1 == 1 then 1 else 0) == w
  {}

  lemma RawDouble(w: Word)
    requires w >> 31 == 0
    ensures Shr(w + w) == w && Shr(w + w + 1) == w && (w + w) & 1 == 0 && (w + w + 1) & 1 == 1
  {}

  lemma DoubledRaw(w: Word)
    ensures Doubled(Bits32, w, true) == w + w + 1 && Doubled(Bits32, w, false) == w + w
  {
    DoubledIs(w, true);
    DoubledIs(w, false);
  }

  // d is twice w, and perhaps one more.
  lemma HalfOf(w: Word, d: Word, bit: bool)
    requires Shr(d) == w && (d & 1 == 1 <==> bit)
    ensures Bits32.half(d) == w && (Bits32.odd(d) <==> bit)
  {
    HalfIs(d);
  }

  lemma SmallDoubled(w: Word, bit: bool)
    requires w >> 31 == 0
    ensures Bits32.half(Doubled(Bits32, w, bit)) == w && (Bits32.odd(Doubled(Bits32, w, bit)) <==> bit)
  {
    DoubledRaw(w);
    RawDouble(w);
    HalfOf(w, Doubled(Bits32, w, bit), bit);
  }

  // ---------------------------------------------------------------- words have 32 digits

  lemma Short1(w: Word, x: Word, k: nat)
    requires x == Shr(w)
    ensures Short(Bits32, w, k + 1) <==> Short(Bits32, x, k)
  {
    HalfIs(w);
  }

  lemma RawShift4(w: Word)
    ensures (((w >> 1) >> 1) >> 1) >> 1 == w >> 4
  {}

  lemma Shift4(w: Word, a: Word, b: Word, c: Word, d: Word)
    requires a == Shr(w) && b == Shr(a) && c == Shr(b) && d == Shr(c)
    ensures d == Nibble(w)
  {
    RawShift4(w);
  }

  function Nibble(w: Word): Word { w >> 4 }

  lemma ShortBy4(w: Word, x: Word, k: nat)
    requires x == Nibble(w)
    ensures Short(Bits32, w, k + 4) <==> Short(Bits32, x, k)
  {
    var a := Shr(w);
    var b := Shr(a);
    var c := Shr(b);
    Shift4(w, a, b, c, Shr(c));
    Short1(w, a, k + 3);
    Short1(a, b, k + 2);
    Short1(b, c, k + 1);
    Short1(c, x, k);
  }

  lemma Short28(w: Word, a: Word, b: Word, c: Word, d: Word, e: Word, f: Word, x: Word, k: nat)
    requires a == Nibble(w) && b == Nibble(a) && c == Nibble(b) && d == Nibble(c) && e == Nibble(d) && f == Nibble(e)
    requires x == Nibble(f)
    ensures Short(Bits32, w, k + 28) <==> Short(Bits32, x, k)
  {
    ShortBy4(w, a, k + 24);
    ShortBy4(a, b, k + 20);
    ShortBy4(b, c, k + 16);
    ShortBy4(c, d, k + 12);
    ShortBy4(d, e, k + 8);
    ShortBy4(e, f, k + 4);
    ShortBy4(f, x, k);
  }

  lemma ShortBy3(w: Word, x: Word, y: Word, z: Word)
    requires x == Shr(w) && y == Shr(x) && z == Shr(y)
    ensures Short(Bits32, w, 3) <==> z == 0
  {
    Short1(w, x, 2);
    Short1(x, y, 1);
    Short1(y, z, 0);
  }

  lemma RawNibbles(w: Word)
    ensures (((((((w >> 4) >> 4) >> 4) >> 4) >> 4) >> 4) >> 4) >> 4 == 0
    ensures (((((((((w >> 4) >> 4) >> 4) >> 4) >> 4) >> 4) >> 4) >> 1) >> 1) >> 1 == w >> 31
  {}

  lemma ShortAll(w: Word, top: Word)
    requires top == w >> 31
    ensures Short(Bits32, w, 31) <==> top == 0
    ensures Short(Bits32, w, 32)
  {
    var a := Nibble(w);
    var b := Nibble(a);
    var c := Nibble(b);
    var d := Nibble(c);
    var e := Nibble(d);
    var f := Nibble(e);
    var x := Nibble(f);
    RawNibbles(w);
    Short28(w, a, b, c, d, e, f, x, 3);
    ShortBy3(x, Shr(x), Shr(Shr(x)), top);
    Short28(w, a, b, c, d, e, f, x, 4);
    ShortBy4(x, 0, 0);
  }

  lemma PowerIs()
    ensures Power(32) == TWO32
  {
    assert Power(8) == 256;
    assert Power(16) == 256 * 256;
    assert Power(24) == 256 * 256 * 256;
  }

  lemma RoundZero()
    ensures Image(Bits32.ring, TWO32) == 0
  {
    var r := Bits32.ring;
    RingLaws();
    assert Image(r, 4) == 4;
    ImageProduct(r, 4, 4);
    ImageProduct(r, 16, 16);
    ImageProduct(r, 256, 256);
    ImageProduct(r, 65536, 65536);
  }

  lemma WordAt(w: Word)
    ensures DigitsAt(Bits32, 32, w)
  {
    ShortAll(w, w >> 31);
    HalfIs(w);
    DoubledIs(Shr(w), w & 1 == 1);
    RawHalf(w);
    if Short(Bits32, w, 31) {
      SmallDoubled(w, true);
      SmallDoubled(w, false);
    }
  }

  lemma WordDigits()
    ensures HasDigits(Bits32, 32)
  {
    RingLaws();
    PowerIs();
    RoundZero();
    HalfIs(0);
    forall w: Word {:trigger At(w, w, w)}
      ensures DigitsAt(Bits32, 32, w)
    {
      WordAt(w);
    }
  }

  // ---------------------------------------------------------------- words as numbers

  /** Every word stands for one number below 2^32, and every number for the word of its remainder. */
  lemma ValueWrap(w: Word, n: nat)
    ensures Wrap(Value(w)) == w && Value(w) < TWO32 && Value(Wrap(n)) == n % TWO32
  {
    WordDigits();
    PowerIs();
    ValueIs(Bits32, 32, w, n);
  }

  /** Sums and products of words are those of the numbers, modulo 2^32. */
  lemma WrapSum(a: nat, b: nat)
    ensures Wrap(a + b) == Add(Wrap(a), Wrap(b))
  {
    RingLaws();
    DigitsSum(Bits32, a, b);
    PlusIs(Wrap(a), Wrap(b));
  }

  lemma WrapProduct(a: nat, b: nat)
    ensures Wrap(a * b) == Mul(Wrap(a), Wrap(b))
  {
    RingLaws();
    DigitsProduct(Bits32, a, b);
    TimesIs(Wrap(a), Wrap(b));
  }

  predicate IsOdd(w: Word) { w & 1 == 1 }

  lemma ValueHalf(w: Word, x: Word)
    requires x == Shr(w)
    ensures Value(x) == Value(w) / 2 && (IsOdd(w) <==> Value(w) % 2 == 1)
  {
    WordDigits();
    HalfIs(w);
    HalfValue(Bits32, 32, w);
  }

  lemma ValueNibble(w: Word, x: Word)
    requires x == Nibble(w)
    ensures Value(x) == Value(w) / 16
  {
    var a := Shr(w);
    var b := Shr(a);
    var c := Shr(b);
    Shift4(w, a, b, c, Shr(c));
    ValueHalf(w, a);
    ValueHalf(a, b);
    ValueHalf(b, c);
    ValueHalf(c, x);
  }

  // ---------------------------------------------------------------- the top bits into the low ones

  // Of the last two digits, each is flipped if the corresponding one of the first two is 1.
  function Flipped(v: nat): nat {
    v / 4 * 4 + (v / 2 + v / 0x8000_0000) % 2 * 2 + (v + v / 0x4000_0000) % 2
  }

  // The first two bits are added to the last two.
  function Folded(p: Word): Word { p ^ (p >> 30) }

  lemma RawTop(p: Word)
    ensures ((((((((p >> 4) >> 4) >> 4) >> 4) >> 4) >> 4) >> 4) >> 1) >> 1 == p >> 30 && (p >> 30) >> 1 == p >> 31
  {}

  lemma TopShifts(p: Word, a: Word, b: Word, c: Word, d: Word, e: Word, f: Word, g: Word, h: Word, x: Word, y: Word)
    requires a == Nibble(p) && b == Nibble(a) && c == Nibble(b) && d == Nibble(c) && e == Nibble(d) && f == Nibble(e)
    requires g == Nibble(f) && h == Shr(g) && x == p >> 30 && y == p >> 31
    ensures x == Shr(h) && y == Shr(x)
  {
    RawTop(p);
  }

  // The first two digits.
  lemma TopBits(p: Word, x: Word, y: Word)
    requires x == p >> 30 && y == p >> 31
    ensures Value(x) == Value(p) / 0x4000_0000 && Value(y) == Value(p) / 0x8000_0000
  {
    var a := Nibble(p);
    var b := Nibble(a);
    var c := Nibble(b);
    var d := Nibble(c);
    var e := Nibble(d);
    var f := Nibble(e);
    var g := Nibble(f);
    var h := Shr(g);
    TopShifts(p, a, b, c, d, e, f, g, h, x, y);
    TopValues(p, a, b, c, d, e, f, g, h, x, y);
  }

  lemma TopValues(p: Word, a: Word, b: Word, c: Word, d: Word, e: Word, f: Word, g: Word, h: Word, x: Word, y: Word)
    requires a == Nibble(p) && b == Nibble(a) && c == Nibble(b) && d == Nibble(c) && e == Nibble(d) && f == Nibble(e)
    requires g == Nibble(f) && h == Shr(g) && x == Shr(h) && y == Shr(x)
    ensures Value(x) == Value(p) / 0x4000_0000 && Value(y) == Value(p) / 0x8000_0000
  {
    Value28(p, a, b, c, d, e, f, g);
    ValueHalf(g, h);
    ValueHalf(h, x);
    ValueHalf(x, y);
    Halving(Value(p), 0x1000_0000);
    Halving(Value(p), 0x2000_0000);
    Halving(Value(p), 0x4000_0000);
  }

  lemma Halving(v: nat, m: nat)
    requires m > 0
    ensures v / m / 2 == v / (2 * m)
  {
    var q, r := v / m, v % m;
    var k, b := q / 2, q % 2;
    assert v == m * q + r;
    assert m * q == (2 * m) * k + m * b;
    Bits.ModUnique(v, 2 * m, k, m * b + r);
  }

  lemma Value28(w: Word, a: Word, b: Word, c: Word, d: Word, e: Word, f: Word, x: Word)
    requires a == Nibble(w) && b == Nibble(a) && c == Nibble(b) && d == Nibble(c) && e == Nibble(d) && f == Nibble(e)
    requires x == Nibble(f)
    ensures Value(x) == Value(w) / 0x1000_0000
  {
    ValueNibble(w, a);
    ValueNibble(a, b);
    ValueNibble(b, c);
    ValueNibble(c, d);
    ValueNibble(d, e);
    ValueNibble(e, f);
    ValueNibble(f, x);
  }

  lemma RawRest(p: Word)
    ensures ((p ^ (p >> 30)) >> 1) >> 1 == (p >> 1) >> 1
  {}

  lemma RawLast(p: Word)
    ensures (p ^ (p >> 30)) & 1 == 1 <==> (p & 1 == 1) != ((p >> 30) & 1 == 1)
  {}

  lemma RawSecond(p: Word)
    ensures ((p ^ (p >> 30)) >> 1) & 1 == 1 <==> ((p >> 1) & 1 == 1) != ((p >> 31) & 1 == 1)
  {}

  lemma HalfFold(p: Word)
    ensures Value((p ^ (p >> 30)) >> 1) == Value(p ^ (p >> 30)) / 2
    ensures (p ^ (p >> 30)) & 1 == 1 <==> Value(p ^ (p >> 30)) % 2 == 1
  {
    ValueHalf(p ^ (p >> 30), (p ^ (p >> 30)) >> 1);
  }

  lemma QuarterFold(p: Word)
    ensures Value(((p ^ (p >> 30)) >> 1) >> 1) == Value((p ^ (p >> 30)) >> 1) / 2
    ensures ((p ^ (p >> 30)) >> 1) & 1 == 1 <==> Value((p ^ (p >> 30)) >> 1) % 2 == 1
  {
    ValueHalf((p ^ (p >> 30)) >> 1, ((p ^ (p >> 30)) >> 1) >> 1);
  }

  lemma ValueQuarter(p: Word)
    ensures Value(p >> 1) == Value(p) / 2 && (p & 1 == 1 <==> Value(p) % 2 == 1)
    ensures Value((p >> 1) >> 1) == Value(p >> 1) / 2 && ((p >> 1) & 1 == 1 <==> Value(p >> 1) % 2 == 1)
  {
    ValueHalf(p, p >> 1);
    ValueHalf(p >> 1, (p >> 1) >> 1);
  }

  lemma ValueTop(p: Word)
    ensures (p >> 30) & 1 == 1 <==> Value(p >> 30) % 2 == 1
    ensures (p >> 31) & 1 == 1 <==> Value(p >> 31) % 2 == 1
  {
    ValueHalf(p >> 30, (p >> 30) >> 1);
    ValueHalf(p >> 31, (p >> 31) >> 1);
  }

  lemma FoldRest(p: Word)
    ensures Value(p ^ (p >> 30)) / 2 / 2 == Value(p) / 2 / 2
  {
    RawRest(p);
    HalfFold(p);
    QuarterFold(p);
    ValueQuarter(p);
  }

  lemma FoldLast(p: Word)
    ensures Value(p ^ (p >> 30)) % 2 == 1 <==> (Value(p) % 2 == 1) != (Value(p >> 30) % 2 == 1)
  {
    RawLast(p);
    HalfFold(p);
    ValueQuarter(p);
    ValueTop(p);
  }

  lemma FoldHalves(p: Word)
    ensures Value((p ^ (p >> 30)) >> 1) % 2 == 1 <==> (Value(p >> 1) % 2 == 1) != (Value(p >> 31) % 2 == 1)
  {
    RawSecond(p);
    QuarterFold(p);
    ValueQuarter(p);
    ValueTop(p);
  }

  lemma FoldSecond(p: Word)
    ensures Value(p ^ (p >> 30)) / 2 % 2 == 1 <==> (Value(p) / 2 % 2 == 1) != (Value(p >> 31) % 2 == 1)
  {
    FoldHalves(p);
    HalfFold(p);
    ValueQuarter(p);
  }

  lemma ValueFlip(p: Word)
    ensures Value(p ^ (p >> 30)) == Flipped(Value(p))
  {
    FoldRest(p);
    FoldLast(p);
    FoldSecond(p);
    TopBits(p, p >> 30, p >> 31);
    FlipIs(Value(p), Value(p ^ (p >> 30)), Value(p >> 30), Value(p >> 31));
  }

  lemma Parity(a: nat, b: nat)
    ensures (a + b) % 2 == if (a % 2 == 1) != (b % 2 == 1) then 1 else 0
  {}

  lemma FlipIs(v: nat, u: nat, x: nat, y: nat)
    requires u / 2 / 2 == v / 2 / 2 && x == v / 0x4000_0000 && y == v / 0x8000_0000
    requires u % 2 == 1 <==> (v % 2 == 1) != (x % 2 == 1)
    requires u / 2 % 2 == 1 <==> (v / 2 % 2 == 1) != (y % 2 == 1)
    ensures u == Flipped(v)
  {
    Parity(v, x);
    Parity(v / 2, y);
    Quarters(v);
    Quarters(u);
  }

  lemma Quarters(v: nat)
    ensures v / 2 / 2 == v / 4 && v == v / 4 * 4 + v / 2 % 2 * 2 + v % 2
  {}

  /** A word with its top bits folded into the low ones, times a factor, as a number. */
  lemma Scaled(p: Word, f: nat, factor: Word)
    requires Wrap(f) == factor
    ensures Mul(factor, Folded(p)) == Wrap(f * Flipped(Value(p)))
  {
    ValueFlip(p);
    ValueWrap(Folded(p), 0);
    WrapProduct(f, Value(Folded(p)));
  }

  lemma SumIs(n: nat, i: nat, x: Word)
    requires x == Wrap(n)
    ensures Add(x, Wrap(i)) == Wrap(n + i) && Value(Wrap(n + i)) == (n + i) % TWO32
  {
    WrapSum(n, i);
    ValueWrap(x, n + i);
  }

  function Twice(w: Word, bit: bool): Word { w + w + if bit then 1 else 0 }

  lemma Bit(n: nat, w: Word, bit: bool) returns (m: nat)
    requires Wrap(n) == w
    ensures m == 2 * n + (if bit then 1 else 0) && Wrap(m) == Twice(w, bit)
  {
    m := 2 * n + if bit then 1 else 0;
    DoubledIs(w, bit);
    assert m / 2 == n && (m % 2 == 1 <==> bit);
  }

  // One hexadecimal digit more.
  lemma Hex(n: nat, w: Word, a: bool, b: bool, c: bool, d: bool) returns (m: nat)
    requires Wrap(n) == w
    ensures m == 16 * n + (if a then 8 else 0) + (if b then 4 else 0) + (if c then 2 else 0) + if d then 1 else 0
    ensures Wrap(m) == Twice(Twice(Twice(Twice(w, a), b), c), d)
  {
    m := Bit(n, w, a);
    m := Bit(m, Twice(w, a), b);
    m := Bit(m, Twice(Twice(w, a), b), c);
    m := Bit(m, Twice(Twice(Twice(w, a), b), c), d);
  }

  lemma SeedFactor()
    ensures Wrap(1812433253) == 1812433253
  {
    var n := 0;
    n := Hex(n, 0x0, false, true, true, false);
    n := Hex(n, 0x6, true, true, false, false);
    n := Hex(n, 0x6c, false, false, false, false);
    n := Hex(n, 0x6c0, false, true, true, true);
    n := Hex(n, 0x6c07, true, false, false, false);
    n := Hex(n, 0x6c078, true, false, false, true);
    n := Hex(n, 0x6c0789, false, true, true, false);
    n := Hex(n, 0x6c07896, false, true, false, true);
  }

  lemma KeyFactor()
    ensures Wrap(1664525) == 1664525
  {
    var n := 0;
    n := Hex(n, 0x0, false, false, false, true);
    n := Hex(n, 0x1, true, false, false, true);
    n := Hex(n, 0x19, false, true, true, false);
    n := Hex(n, 0x196, false, true, true, false);
    n := Hex(n, 0x1966, false, false, false, false);
    n := Hex(n, 0x19660, true, true, false, true);
  }

  lemma SlotFactor()
    ensures Wrap(1566083941) == 1566083941
  {
    var n := 0;
    n := Hex(n, 0x0, false, true, false, true);
    n := Hex(n, 0x5, true, true, false, true);
    n := Hex(n, 0x5d, false, true, false, true);
    n := Hex(n, 0x5d5, true, false, false, false);
    n := Hex(n, 0x5d58, true, false, false, false);
    n := Hex(n, 0x5d588, true, false, true, true);
    n := Hex(n, 0x5d588b, false, true, true, false);
    n := Hex(n, 0x5d588b6, false, true, false, true);
  }

}
