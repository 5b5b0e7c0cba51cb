/**
 Counting in a ring whose elements have binary digits: numbers and words determine each other, modulo
 the number of words.  Only the laws of single words are assumed; Words supplies the real ones.
 */
module Rings {

  datatype Ring<!W> = Ring(plus: (W, W) -> W, times: (W, W) -> W, zero: W, one: W)

  // Names the words at which the laws are to be applied.
  predicate At<W>(x: W, y: W, z: W) { true }

  ghost predicate LawAt<W>(r: Ring<W>, x: W, y: W, z: W) {
    && r.plus(r.plus(x, y), z) == r.plus(x, r.plus(y, z)) && r.plus(x, r.zero) == x
    && r.times(x, r.plus(y, r.one)) == r.plus(r.times(x, y), x) && r.times(x, r.zero) == r.zero
  }

  ghost predicate Laws<W(!new)>(r: Ring<W>) {
    forall x, y, z {:trigger At(x, y, z)} :: At(x, y, z) ==> LawAt(r, x, y, z)
  }

  // Counting up to n.
  ghost function Image<W>(r: Ring<W>, n: nat): W {
    if n == 0 then r.zero else r.plus(Image(r, n - 1), r.one)
  }

  lemma {:induction false} ImageSum<W(!new)>(r: Ring<W>, a: nat, b: nat)
    requires Laws(r)
    ensures Image(r, a + b) == r.plus(Image(r, a), Image(r, b))
    decreases b
  {
    if b == 0 {
      assert At(Image(r, a), r.zero, r.zero);
    } else {
      ImageSum(r, a, b - 1);
      assert At(Image(r, a), Image(r, b - 1), r.one);
    }
  }

  lemma {:induction false} ImageProduct<W(!new)>(r: Ring<W>, a: nat, b: nat)
    requires Laws(r)
    ensures Image(r, a * b) == r.times(Image(r, a), Image(r, b))
    decreases b
  {
    assert At(Image(r, a), if b == 0 then r.zero else Image(r, b - 1), r.zero);
    if b == 0 {
      assert a * b == 0;
    } else {
      ImageProduct(r, a, b - 1);
      assert a * b == a * (b - 1) + a;
      ImageSum(r, a * (b - 1), a);
    }
  }

  // If counting up to m comes back to zero, only the remainder matters.
  lemma ImageMod<W(!new)>(r: Ring<W>, m: nat, n: nat)
    requires Laws(r) && m > 0 && Image(r, m) == r.zero
    ensures Image(r, n % m) == Image(r, n)
  {
    ImageRound(r, m, n / m, n % m);
    assert n == m * (n / m) + n % m;
  }

  lemma {:induction false} ImageRound<W(!new)>(r: Ring<W>, m: nat, q: nat, k: nat)
    requires Laws(r) && Image(r, m) == r.zero
    ensures Image(r, m * q + k) == Image(r, k)
    decreases q
  {
    if q == 0 {
      assert m * q == 0;
    } else {
      var rest := m * (q - 1) + k;
      ImageRound(r, m, q - 1, k);
      assert m * q + k == rest + m;
      ImageSum(r, rest, m);
      assert At(Image(r, rest), r.zero, r.zero);
    }
  }

  // ---------------------------------------------------------------- binary digits

  // Words that can be halved: the last digit, and the others.
  datatype Binary<!W> = Binary(ring: Ring<W>, half: W -> W, odd: W -> bool)

  function Doubled<W>(b: Binary<W>, w: W, bit: bool): W {
    b.ring.plus(b.ring.plus(w, w), if bit then b.ring.one else b.ring.zero)
  }

  // The word for n, by its digits.
  function Digits<W>(b: Binary<W>, n: nat): W {
    if n == 0 then b.ring.zero else Doubled(b, Digits(b, n / 2), n % 2 == 1)
  }

  // The number that the last k digits stand for.
  function Low<W>(b: Binary<W>, w: W, k: nat): nat {
    if k == 0 then 0 else (if b.odd(w) then 1 else 0) + 2 * Low(b, b.half(w), k - 1)
  }

  // There are no more than k digits.
  predicate Short<W(==)>(b: Binary<W>, w: W, k: nat) {
    if k == 0 then w == b.ring.zero else Short(b, b.half(w), k - 1)
  }

  function Power(k: nat): (p: nat)
    ensures p > 0
  {
    if k == 0 then 1 else 2 * Power(k - 1)
  }

  ghost predicate DigitsAt<W>(b: Binary<W>, size: nat, w: W) {
    && Short(b, w, size) && Doubled(b, b.half(w), b.odd(w)) == w
    && (size > 0 && Short(b, w, size - 1) ==>
          forall bit :: b.half(Doubled(b, w, bit)) == w && (b.odd(Doubled(b, w, bit)) <==> bit))
  }

  // Words have size digits.
  ghost predicate HasDigits<W(!new)>(b: Binary<W>, size: nat) {
    && Laws(b.ring) && b.half(b.ring.zero) == b.ring.zero && !b.odd(b.ring.zero)
    && Image(b.ring, Power(size)) == b.ring.zero
    && (forall w {:trigger At(w, w, w)} :: At(w, w, w) ==> DigitsAt(b, size, w))
  }

  lemma {:induction false} DigitsImage<W(!new)>(b: Binary<W>, n: nat)
    requires Laws(b.ring)
    ensures Digits(b, n) == Image(b.ring, n)
  {
    if n > 0 {
      DigitsImage(b, n / 2);
      ImageHalf(b, n);
    }
  }

  lemma ImageHalf<W(!new)>(b: Binary<W>, n: nat)
    requires Laws(b.ring)
    ensures Image(b.ring, n) == Doubled(b, Image(b.ring, n / 2), n % 2 == 1)
  {
    var r, h := b.ring, n / 2;
    ImageSum(r, h, h);
    assert Image(r, 0) == r.zero;
    if n % 2 == 1 {
      assert n - 1 == h + h;
    } else {
      assert n == h + h;
      assert At(Image(r, n), r.zero, r.zero);
    }
  }

  // Counting up to the number of a word gives the word.
  lemma {:induction false} ImageLow<W(!new)>(b: Binary<W>, size: nat, w: W, k: nat)
    requires HasDigits(b, size) && Short(b, w, k)
    ensures Image(b.ring, Low(b, w, k)) == w && Low(b, w, k) < Power(k)
    decreases k
  {
    if k > 0 {
      ImageLow(b, size, b.half(w), k - 1);
      ImageHalf(b, Low(b, w, k));
      assert At(w, w, w);
    }
  }

  // One digit more does not matter.
  lemma {:induction false} ShortMore<W(!new)>(b: Binary<W>, size: nat, w: W, k: nat)
    requires HasDigits(b, size) && Short(b, w, k)
    ensures Short(b, w, k + 1) && Low(b, w, k + 1) == Low(b, w, k)
    decreases k
  {
    if k > 0 {
      ShortMore(b, size, b.half(w), k - 1);
    }
  }

  lemma {:induction false} ShortUpTo<W(!new)>(b: Binary<W>, size: nat, w: W, k: nat, j: nat)
    requires HasDigits(b, size) && Short(b, w, k) && k <= j
    ensures Short(b, w, j)
    decreases j - k
  {
    if k < j {
      ShortMore(b, size, w, k);
      ShortUpTo(b, size, w, k + 1, j);
    }
  }

  // The number of the word that is counted up to.
  lemma {:induction false} LowImage<W(!new)>(b: Binary<W>, size: nat, n: nat, k: nat)
    requires HasDigits(b, size) && n < Power(k) && k <= size
    ensures Short(b, Image(b.ring, n), k) && Low(b, Image(b.ring, n), k) == n
    decreases k
  {
    if k > 0 {
      var h := Image(b.ring, n / 2);
      LowImage(b, size, n / 2, k - 1);
      ShortUpTo(b, size, h, k - 1, size - 1);
      ImageHalf(b, n);
      assert At(h, h, h);
    }
  }

  /** Numbers and words determine each other, modulo the number of words. */
  lemma ValueIs<W(!new)>(b: Binary<W>, size: nat, w: W, n: nat)
    requires HasDigits(b, size)
    ensures Digits(b, Low(b, w, size)) == w && Low(b, w, size) < Power(size)
    ensures Low(b, Digits(b, n), size) == n % Power(size)
  {
    assert At(w, w, w);
    ImageLow(b, size, w, size);
    DigitsImage(b, Low(b, w, size));
    DigitsImage(b, n);
    ImageMod(b.ring, Power(size), n);
    LowImage(b, size, n % Power(size), size);
  }

  lemma HalfValue<W(!new)>(b: Binary<W>, size: nat, w: W)
    requires HasDigits(b, size) && size > 0
    ensures Low(b, b.half(w), size) == Low(b, w, size) / 2 && (b.odd(w) <==> Low(b, w, size) % 2 == 1)
  {
    assert At(w, w, w);
    ShortMore(b, size, b.half(w), size - 1);
  }

  lemma DigitsSum<W(!new)>(b: Binary<W>, m: nat, n: nat)
    requires Laws(b.ring)
    ensures Digits(b, m + n) == b.ring.plus(Digits(b, m), Digits(b, n))
  {
    DigitsImage(b, m);
    DigitsImage(b, n);
    DigitsImage(b, m + n);
    ImageSum(b.ring, m, n);
  }

  lemma DigitsProduct<W(!new)>(b: Binary<W>, m: nat, n: nat)
    requires Laws(b.ring)
    ensures Digits(b, m * n) == b.ring.times(Digits(b, m), Digits(b, n))
  {
    DigitsImage(b, m);
    DigitsImage(b, n);
    DigitsImage(b, m * n);
    ImageProduct(b.ring, m, n);
  }
}
