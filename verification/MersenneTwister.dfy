/**
 MT19937: the word operations of the shift register, the tempering, and the two ways of seeding.
 */
module MersenneTwister {
  import opened Series
  import opened Words
  import SR = ShiftRegister

  const N: nat := SR.N
  const M: nat := SR.M
  const MATRIX_A: Word := 0x9908b0df
  const UPPER_MASK: Word := 0x80000000
  const LOWER_MASK: Word := 0x7fffffff

  function Joined(a: Word, b: Word): Word {
    (a & UPPER_MASK) | (b & LOWER_MASK)
  }

  function Mag01(y: Word): Word {
    if y & 1 == 1 then MATRIX_A else 0
  }

  function Feed(far: Word, y: Word): Word {
    far ^ (y >> 1) ^ Mag01(y)
  }

  function Shifted(y: Word): Word {
    (y >> 1) ^ Mag01(y)
  }

  // MATRIX_A has its top bit set, so the top bit tells which branch was taken.
  function Unshifted(w: Word): Word {
    if w & UPPER_MASK == UPPER_MASK then ((w ^ MATRIX_A) << 1) | 1 else w << 1
  }

  function SeedStep(p: Word, i: nat): Word {
    Add(Mul(1812433253, Folded(p)), Wrap(i))
  }

  function KeyStep(before: Word, last: Word, key: Word, j: nat): Word {
    Add(Add(Eor(before, Mul(1664525, Folded(last))), key), Wrap(j))
  }

  function SlotStep(before: Word, last: Word, i: nat): Word {
    Sub(Eor(before, Mul(1566083941, Folded(last))), Wrap(i))
  }

  const Xor: (Word, Word) -> Word := (a, b) => a ^ b

  const Mt: SR.Ops<Word> :=
    SR.Ops(Xor,
           (a, b) => Joined(a, b),
           a => a & UPPER_MASK,
           (far, y) => Feed(far, y),
           y => Shifted(y),
           w => Unshifted(w),
           y => Temper(y),
           (p, i) => SeedStep(p, i),
           (before, last, key, j) => KeyStep(before, last, key, j),
           (before, last, i) => SlotStep(before, last, i),
           19650218,
           UPPER_MASK)

  // ---------------------------------------------------------------- one step can be undone

  lemma XorCancel(a: Word, b: Word)
    ensures Mt.xor(Mt.xor(a, b), a) == b
    ensures Mt.xor(a, Mt.xor(b, a)) == b
  {}

  lemma BitsShifted(y: Word)
    ensures y & 1 == 1 ==>
      ((y >> 1) ^ 0x9908b0df) & 0x80000000 == 0x80000000 && ((((y >> 1) ^ 0x9908b0df) ^ 0x9908b0df) << 1) | 1 == y
    ensures y & 1 != 1 ==> (y >> 1) & 0x80000000 != 0x80000000 && (y >> 1) << 1 == y
  {}

  lemma BitsUnshifted(w: Word)
    ensures w & 0x80000000 == 0x80000000 ==>
      (((w ^ 0x9908b0df) << 1) | 1) & 1 == 1 && ((((w ^ 0x9908b0df) << 1) | 1) >> 1) ^ 0x9908b0df == w
    ensures w & 0x80000000 != 0x80000000 ==> (w << 1) & 1 != 1 && (w << 1) >> 1 == w
  {}

  // The two branches of the shift.
  lemma ShiftedOf(v: Word)
    ensures v & 1 == 1 ==> Shifted(v) == (v >> 1) ^ 0x9908b0df
    ensures v & 1 != 1 ==> Shifted(v) == v >> 1
  {}

  lemma UnshiftedOf(w: Word)
    ensures w & 0x80000000 == 0x80000000 ==> Unshifted(w) == ((w ^ 0x9908b0df) << 1) | 1
    ensures w & 0x80000000 != 0x80000000 ==> Unshifted(w) == w << 1
  {}

  lemma UnshiftedShifted(y: Word)
    ensures Unshifted(Shifted(y)) == y
  {
    var w := Shifted(y);
    ShiftedTop(y, w);
    UnshiftedOf(w);
  }

  lemma ShiftedTop(y: Word, w: Word)
    requires w == Shifted(y)
    ensures w & 0x80000000 == 0x80000000 ==> ((w ^ 0x9908b0df) << 1) | 1 == y
    ensures w & 0x80000000 != 0x80000000 ==> w << 1 == y
  {
    ShiftedOf(y);
    BitsShifted(y);
  }

  lemma UnshiftedParity(w: Word, v: Word)
    requires v == Unshifted(w)
    ensures v & 1 == 1 ==> (v >> 1) ^ 0x9908b0df == w
    ensures v & 1 != 1 ==> v >> 1 == w
  {
    UnshiftedOf(w);
    BitsUnshifted(w);
  }

  lemma ShiftedUnshifted(w: Word)
    ensures Shifted(Unshifted(w)) == w
  {
    var v := Unshifted(w);
    UnshiftedParity(w, v);
    ShiftedOf(v);
  }

  lemma ShiftUndone(y: Word)
    ensures Mt.unshift(Mt.shift(y)) == y
  {
    UnshiftedShifted(y);
    assert Mt.shift(y) == Shifted(y);
    assert Mt.unshift(Shifted(y)) == Unshifted(Shifted(y));
  }

  lemma UnshiftUndone(w: Word)
    ensures Mt.shift(Mt.unshift(w)) == w
  {
    ShiftedUnshifted(w);
    assert Mt.unshift(w) == Unshifted(w);
    assert Mt.shift(Unshifted(w)) == Shifted(Unshifted(w));
  }

  lemma FeedRaw(far: Word, y: Word)
    ensures Feed(far, y) == far ^ Shifted(y)
  {}

  lemma FeedIsXor(far: Word, y: Word)
    ensures Mt.feed(far, y) == Mt.xor(far, Mt.shift(y))
  {
    var s := Mt.shift(y);
    FeedApplied(far, y);
    XorApplied(far, s);
  }

  lemma FeedApplied(far: Word, y: Word)
    ensures Mt.feed(far, y) == far ^ Mt.shift(y)
  {
    FeedRaw(far, y);
    assert Mt.shift(y) == Shifted(y);
  }

  lemma XorApplied(a: Word, b: Word)
    ensures Mt.xor(a, b) == a ^ b
  {}

  lemma Halves(a: Word, b: Word)
    ensures Mt.upper(Mt.upper(a)) == Mt.upper(a)
    ensures Mt.upper(Mt.join(a, b)) == Mt.upper(a)
    ensures Mt.join(Mt.upper(a), b) == Mt.join(a, b)
    ensures Mt.join(b, Mt.join(a, b)) == b
  {}

  lemma MtLaws()
    ensures SR.Laws(Mt)
  {
    forall a: Word, b: Word {:trigger SR.At(a, b)}
      ensures SR.LawAt(Mt, a, b)
    {
      MtLawAt(a, b);
    }
  }

  lemma MtLawAt(a: Word, b: Word)
    ensures SR.LawAt(Mt, a, b)
  {
    XorCancel(a, b);
    FeedIsXor(a, b);
    ShiftUndone(a);
    UnshiftUndone(a);
    Halves(a, b);
  }

  ghost function ZeroState(): (z: seq<Word>)
    ensures |z| == N
  {
    SR.Constant(0)
  }

  // The 19937 bits that matter before word n is drawn.
  ghost function StateAt(seed: seq<Word>, n: nat): (s: seq<Word>)
    requires |seed| == N
    ensures |s| == N
  {
    SR.StateAt(Mt, seed, n)
  }

  lemma ZeroStepsBack()
    ensures SR.StepBack(Mt, ZeroState()) == ZeroState()
  {
    assert SR.Recover(Mt, 0, 0) == 0;
    assert Mt.upper(0) == 0 && Mt.join(0, 0) == 0;
  }

  // The all-zero state, in which the generator would be stuck, is never entered.
  lemma NeverZero(seed: seq<Word>, n: nat)
    requires |seed| == N && StateAt(seed, 0) != ZeroState()
    ensures StateAt(seed, n) != ZeroState()
  {
    MtLaws();
    ZeroStepsBack();
    SR.NeverEntered(Mt, seed, ZeroState(), n);
  }

  // Differently seeded runs never fall into step with each other.
  lemma NeverMerge(seed: seq<Word>, seed': seq<Word>, n: nat)
    requires |seed| == |seed'| == N && StateAt(seed, 0) != StateAt(seed', 0)
    ensures StateAt(seed, n) != StateAt(seed', n)
  {
    MtLaws();
    if StateAt(seed, n) == StateAt(seed', n) {
      SR.NeverMerge(Mt, seed, seed', n);
      assert false;
    }
  }

  // ---------------------------------------------------------------- tempering

  // Each of the four steps has the form y ^= g(y), where g is linear over xor and dies out
  // after a few applications.

  const G11: Word -> Word := y => y >> 11
  const G7: Word -> Word := y => (y << 7) & 0x9d2c5680
  const G15: Word -> Word := y => (y << 15) & 0xefc60000
  const G18: Word -> Word := y => y >> 18

  function Temper(y: Word): Word {
    Mix(Xor, G18, Mix(Xor, G15, Mix(Xor, G7, Mix(Xor, G11, y))))
  }

  function Untemper(z: Word): Word {
    Unmix(Xor, 0, G11, 3, Unmix(Xor, 0, G7, 5, Unmix(Xor, 0, G15, 3, Unmix(Xor, 0, G18, 2, z))))
  }

  lemma XorComm(a: Word, b: Word)
    ensures Xor(a, b) == Xor(b, a) && Xor(a, 0) == a && Xor(a, a) == 0
  {}

  lemma XorAssoc(a: Word, b: Word, c: Word)
    ensures Xor(Xor(a, b), c) == Xor(a, Xor(b, c))
  {}

  lemma XorLaws()
    ensures Xorlike(Xor, 0)
  {
    forall a: Word, b: Word, c: Word {:trigger At(a, b, c)}
      ensures Xor(a, b) == Xor(b, a) && Xor(Xor(a, b), c) == Xor(a, Xor(b, c))
      ensures Xor(a, 0) == a && Xor(a, a) == 0
    {
      XorComm(a, b);
      XorAssoc(a, b, c);
    }
  }

  lemma Linear11(a: Word, b: Word)
    ensures G11(Xor(a, b)) == Xor(G11(a), G11(b))
  {
    assert G11(Xor(a, b)) == ((a ^ b) >> 11);
    assert Xor(G11(a), G11(b)) == (a >> 11) ^ (b >> 11);
  }

  lemma Linear18(a: Word, b: Word)
    ensures G18(Xor(a, b)) == Xor(G18(a), G18(b))
  {
    assert G18(Xor(a, b)) == ((a ^ b) >> 18);
    assert Xor(G18(a), G18(b)) == (a >> 18) ^ (b >> 18);
  }

  lemma Linear7(a: Word, b: Word)
    ensures G7(Xor(a, b)) == Xor(G7(a), G7(b))
  {
    assert G7(Xor(a, b)) == (((a ^ b) << 7) & 0x9d2c5680);
    assert Xor(G7(a), G7(b)) == ((a << 7) & 0x9d2c5680) ^ ((b << 7) & 0x9d2c5680);
  }

  lemma Linear15(a: Word, b: Word)
    ensures G15(Xor(a, b)) == Xor(G15(a), G15(b))
  {
    assert G15(Xor(a, b)) == (((a ^ b) << 15) & 0xefc60000);
    assert Xor(G15(a), G15(b)) == ((a << 15) & 0xefc60000) ^ ((b << 15) & 0xefc60000);
  }

  lemma StepsLinear()
    ensures Linear(Xor, 0, G11) && Linear(Xor, 0, G7) && Linear(Xor, 0, G15) && Linear(Xor, 0, G18)
  {
    forall a: Word, b: Word {:trigger At(a, b, b)}
      ensures G11(Xor(a, b)) == Xor(G11(a), G11(b)) && G18(Xor(a, b)) == Xor(G18(a), G18(b))
      ensures G7(Xor(a, b)) == Xor(G7(a), G7(b)) && G15(Xor(a, b)) == Xor(G15(a), G15(b))
    {
      Linear11(a, b);
      Linear18(a, b);
      Linear7(a, b);
      Linear15(a, b);
    }
  }

  lemma StepsDieOut(y: Word)
    ensures Iterate(G11, 3, y) == 0 && Iterate(G7, 5, y) == 0
    ensures Iterate(G15, 3, y) == 0 && Iterate(G18, 2, y) == 0
  {
    assert G18(G18(y)) == 0;
    assert G11(G11(G11(y))) == 0;
    assert G15(G15(G15(y))) == 0;
    assert G7(G7(G7(G7(G7(y))))) == 0;
  }

  lemma Undone(g: Word -> Word, k: nat, y: Word)
    requires Linear(Xor, 0, g) && Iterate(g, k, y) == 0
    ensures Unmix(Xor, 0, g, k, Mix(Xor, g, y)) == y
    ensures Mix(Xor, g, Unmix(Xor, 0, g, k, y)) == y
  {
    XorLaws();
    UnmixMix(Xor, 0, g, k, y);
    MixUnmix(Xor, 0, g, k, y);
    XorComm(y, 0);
  }

  lemma StepsUndone(y: Word)
    ensures Unmix(Xor, 0, G11, 3, Mix(Xor, G11, y)) == y == Mix(Xor, G11, Unmix(Xor, 0, G11, 3, y))
    ensures Unmix(Xor, 0, G7, 5, Mix(Xor, G7, y)) == y == Mix(Xor, G7, Unmix(Xor, 0, G7, 5, y))
    ensures Unmix(Xor, 0, G15, 3, Mix(Xor, G15, y)) == y == Mix(Xor, G15, Unmix(Xor, 0, G15, 3, y))
    ensures Unmix(Xor, 0, G18, 2, Mix(Xor, G18, y)) == y == Mix(Xor, G18, Unmix(Xor, 0, G18, 2, y))
  {
    StepsLinear();
    StepsDieOut(y);
    Undone(G18, 2, y);
    Undone(G15, 3, y);
    Undone(G7, 5, y);
    Undone(G11, 3, y);
  }

  // Tempering loses nothing: it is a bijection with an explicit inverse.
  lemma TemperBijective(y: Word)
    ensures Untemper(Temper(y)) == y
    ensures Temper(Untemper(y)) == y
  {
    UntemperTemper(y, Mix(Xor, G11, y), Mix(Xor, G7, Mix(Xor, G11, y)));
    var a := Unmix(Xor, 0, G18, 2, y);
    TemperUntemper(y, a, Unmix(Xor, 0, G15, 3, a));
  }

  lemma UntemperTemper(y: Word, a: Word, b: Word)
    requires a == Mix(Xor, G11, y) && b == Mix(Xor, G7, a)
    ensures Untemper(Temper(y)) == y
  {
    StepsUndone(y);
    StepsUndone(a);
    StepsUndone(b);
    StepsUndone(Mix(Xor, G15, b));
  }

  lemma TemperUntemper(y: Word, a: Word, b: Word)
    requires a == Unmix(Xor, 0, G18, 2, y) && b == Unmix(Xor, 0, G15, 3, a)
    ensures Temper(Untemper(y)) == y
  {
    StepsUndone(y);
    StepsUndone(a);
    StepsUndone(b);
    StepsUndone(Unmix(Xor, 0, G7, 5, b));
  }

  // ---------------------------------------------------------------- seeding

  lemma SeedStepZero()
    ensures Mt.seedStep(0, 2) == 2
  {
    var n := Hex(0, 0, false, false, true, false);
    assert Folded(0) == 0;
    assert Mt.seedStep(0, 2) == Add(Mul(1812433253, Folded(0)), 2);
  }

  // No seed leads to the all-zero state: if word 1 is zero then word 2 is 2.
  lemma SeedNonZero(s: Word)
    ensures StateAt(SR.SeedWords(Mt, s), 0) != ZeroState()
  {
    SeedStepZero();
    SR.SeedNotConstant(Mt, s, 0);
  }

  // Nor does any key: the top bit of word 0 is set.
  lemma KeyNonZero(key: seq<Word>)
    requires key != []
    ensures StateAt(SR.KeyWords(Mt, key), 0) != ZeroState()
  {
    assert Mt.upper(Mt.topBit) == UPPER_MASK;
    SR.KeyNotConstant(Mt, key, 0);
  }

  /** From any seed or any non-empty key, in every run: the state is never zero. */
  lemma EveryRunNonZero(s: Word, key: seq<Word>, n: nat)
    requires key != []
    ensures StateAt(SR.SeedWords(Mt, s), n) != ZeroState()
    ensures StateAt(SR.KeyWords(Mt, key), n) != ZeroState()
  {
    SeedNonZero(s);
    KeyNonZero(key);
    NeverZero(SR.SeedWords(Mt, s), n);
    NeverZero(SR.KeyWords(Mt, key), n);
  }
}
