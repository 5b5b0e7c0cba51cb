/**
 Bounded random numbers by rejection: shift a 32-bit word down to the smallest sufficient power
 of two and try again while the result is too large.
 */
module BoundedRandom {
  import opened Bits
  import opened RandomMt
  import SR = ShiftRegister
  import IntMath
  import Words

  const WORDS: nat := 0x1_0000_0000

  // word >> shift
  function Cut(word: int, shift: nat): int {
    word / Pow2(shift)
  }

  // The shift that leaves just enough bits for the numbers 0..max.
  predicate ShiftFor(max: nat, shift: nat) {
    shift <= 31 && Pow2(31 - shift) <= max < Pow2(32 - shift)
  }

  // ---------------------------------------------------------------- counting words

  predicate Between(lo: int, w: int, hi: int) { lo <= w < hi }

  function Interval(lo: int, hi: int): set<int> {
    set w | lo <= w < hi && Between(lo, w, hi)
  }

  lemma {:induction false} IntervalSize(lo: int, hi: int)
    requires lo <= hi
    ensures |Interval(lo, hi)| == hi - lo
    decreases hi - lo
  {
    if lo < hi {
      IntervalSize(lo, hi - 1);
      assert Interval(lo, hi) == Interval(lo, hi - 1) + {hi - 1};
    } else {
      assert Interval(lo, hi) == {};
    }
  }

  lemma CutIs(w: nat, shift: nat, v: nat)
    ensures Cut(w, shift) == v <==> Pow2(shift) * v <= w < Pow2(shift) * (v + 1)
    ensures Cut(w, shift) <= v <==> w < Pow2(shift) * (v + 1)
    ensures Cut(w, shift) >= 0
  {
    var p, q := Pow2(shift), Cut(w, shift);
    assert w == p * q + w % p;
    assert p * (q + 1) == p * q + p;
    if q <= v {
      MulLe(p, q + 1, v + 1);
    } else {
      MulLe(p, v + 1, q);
    }
    if q >= v {
      MulLe(p, v, q);
    } else {
      MulLe(p, q + 1, v);
    }
  }

  // Which of the 2^32 words are shifted to v, and which to at most v.
  function Hits(shift: nat, v: int): set<int> {
    set w: int | 0 <= w < WORDS && Cut(w, shift) == v
  }

  function HitsUpTo(shift: nat, v: int): set<int> {
    set w: int | 0 <= w < WORDS && Cut(w, shift) <= v
  }

  lemma HitsAre(shift: nat, v: nat)
    requires Pow2(shift) * (v + 1) <= WORDS
    ensures Hits(shift, v) == Interval(Pow2(shift) * v, Pow2(shift) * (v + 1))
    ensures HitsUpTo(shift, v) == Interval(0, Pow2(shift) * (v + 1))
  {
    forall w: int | 0 <= w < WORDS
      ensures Cut(w, shift) == v <==> Between(Pow2(shift) * v, w, Pow2(shift) * (v + 1))
      ensures Cut(w, shift) <= v <==> Between(0, w, Pow2(shift) * (v + 1))
    {
      CutIs(w, shift, v);
    }
    MulLe(Pow2(shift), 0, v);
  }

  lemma SplitWords(shift: nat)
    requires shift <= 31
    ensures Pow2(shift) * Pow2(32 - shift) == WORDS
    ensures Pow2(shift) * Pow2(31 - shift) == WORDS / 2
  {
    Pow2Add(shift, 32 - shift);
    Pow2Add(shift, 31 - shift);
    Powers();
  }

  lemma ShiftFits(max: nat, shift: nat, v: nat)
    requires ShiftFor(max, shift) && v <= max
    ensures Pow2(shift) * (v + 1) <= WORDS
    ensures Pow2(shift) * (max + 1) > WORDS / 2
  {
    SplitWords(shift);
    Scaled(Pow2(shift), Pow2(31 - shift), Pow2(32 - shift), max, v);
  }

  lemma Scaled(p: nat, a: int, b: int, max: int, v: int)
    requires p > 0 && a <= max < b && v <= max
    ensures p * (v + 1) <= p * b && p * (max + 1) > p * a
  {
    MulLe(p, v + 1, b);
    MulLe(p, a + 1, max + 1);
    assert p * (a + 1) == p * a + p;
  }

  /** Every number 0..max comes from exactly 2^shift of the 2^32 words: the draw is uniform. */
  lemma Uniform(max: nat, shift: nat, v: nat)
    requires ShiftFor(max, shift) && v <= max
    ensures |Hits(shift, v)| == Pow2(shift)
  {
    var p := Pow2(shift);
    ShiftFits(max, shift, v);
    HitsAre(shift, v);
    assert p * (v + 1) == p * v + p;
    IntervalSize(p * v, p * (v + 1));
  }

  /** More than half of all words are accepted. */
  lemma MoreThanHalfAccepted(max: nat, shift: nat)
    requires ShiftFor(max, shift)
    ensures |HitsUpTo(shift, max)| == Pow2(shift) * (max + 1) > WORDS / 2
  {
    ShiftFits(max, shift, max);
    HitsAre(shift, max);
    IntervalSize(0, Pow2(shift) * (max + 1));
  }

  // There is only one such shift.
  lemma ShiftUnique(max: nat, s: nat, t: nat)
    requires ShiftFor(max, s) && ShiftFor(max, t)
    ensures s == t
  {
    if s < t {
      Pow2Mono(32 - t, 31 - s);
      assert false;
    } else if t < s {
      Pow2Mono(32 - s, 31 - t);
      assert false;
    }
  }

  // ---------------------------------------------------------------- drawing

  // The numbers a generator delivers, as unsigned integers.
  ghost function Outputs(r: Random<Words.Word>): nat -> nat {
    (n: nat) => Words.Value(r.ops.temper(r.x(SR.N + n)))
  }

  method Draw(r: Random<Words.Word>) returns (w: nat)
    requires r.Valid()
    modifies r, r.mt
    ensures r.Valid() && r.drawn == old(r.drawn) + 1
    ensures w == Outputs(r)(old(r.drawn)) && w < WORDS
  {
    var y := r.Genrand();
    Words.ValueWrap(y, 0);
    w := Words.Value(y);
  }

  // Draw number n would be taken.
  ghost predicate Accepts(out: nat -> nat, n: nat, max: nat, shift: nat) {
    Cut(out(n), shift) <= max
  }

  // v is the last one of the draws from..to, the only one of them to be taken.
  ghost predicate IsFirstDraw(out: nat -> nat, from: nat, to: nat, max: nat, shift: nat, v: int) {
    && from < to && Accepts(out, to - 1, max, shift) && v == Cut(out(to - 1), shift)
    && NoneBefore(out, from, to, max, shift)
  }

  ghost predicate NoneBefore(out: nat -> nat, from: nat, to: nat, max: nat, shift: nat) {
    forall n :: from <= n < to - 1 ==> !Accepts(out, n, max, shift)
  }

  method TryOnce(r: Random<Words.Word>, max: nat, shift: nat) returns (v: int, taken: bool)
    requires r.Valid()
    modifies r, r.mt
    ensures r.Valid() && r.drawn == old(r.drawn) + 1
    ensures v == Cut(Outputs(r)(old(r.drawn)), shift)
    ensures taken == Accepts(Outputs(r), old(r.drawn), max, shift)
  {
    var w := Draw(r);
    v := w / Pow2(shift);
    taken := v <= max;
  }

  method Reject(r: Random<Words.Word>, max: nat, shift: nat, ghost last: nat) returns (v: int)
    requires r.Valid()
    requires r.drawn <= last && Accepts(Outputs(r), last, max, shift)
    modifies r, r.mt
    ensures r.Valid() && IsFirstDraw(Outputs(r), old(r.drawn), r.drawn, max, shift, v)
  {
    ghost var out, from := Outputs(r), r.drawn;
    var taken;
    v, taken := TryOnce(r, max, shift);
    while !taken
      invariant r.Valid() && from < r.drawn <= last + 1 && Outputs(r) == out
      invariant v == Cut(out(r.drawn - 1), shift) && taken == Accepts(out, r.drawn - 1, max, shift)
      invariant NoneBefore(out, from, r.drawn, max, shift)
      decreases last + 1 - r.drawn
    {
      v, taken := TryOnce(r, max, shift);
    }
  }

  /** The result is the first acceptable draw, shifted.  The loop ends if and only if the generator
      ever produces one; last is the number of such a draw. */
  method GenrandMax(r: Random<Words.Word>, max: nat, ghost last: nat) returns (v: int)
    requires r.Valid() && max < WORDS
    requires 0 < max < WORDS - 1 ==> r.drawn <= last
    requires 0 < max < WORDS - 1 ==> forall shift :: ShiftFor(max, shift) ==> Accepts(Outputs(r), last, max, shift)
    modifies r, r.mt
    ensures r.Valid() && 0 <= v <= max
    ensures max == 0 ==> v == 0 && r.drawn == old(r.drawn)
    ensures max == WORDS - 1 ==> r.drawn == old(r.drawn) + 1 && v == Outputs(r)(old(r.drawn))
    ensures 0 < max < WORDS - 1 ==>
      exists shift :: ShiftFor(max, shift) && IsFirstDraw(Outputs(r), old(r.drawn), r.drawn, max, shift, v)
  {
    if max == 0 {
      return 0;
    }
    if max == WORDS - 1 {
      v := Draw(r);
      return;
    }
    var log := IntMath.CeilLog2(max + 1);
    var shift := 32 - log;
    assert ShiftFor(max, shift);
    v := Reject(r, max, shift, last);
    CutIs(Outputs(r)(r.drawn - 1), shift, 0);
  }
}
