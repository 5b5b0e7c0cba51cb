/**
 What the word operations of MT19937 compute, in terms of numbers and single bits: the two ways of
 seeding, the recurrence, and the tempering.
 */
module MtReference {
  import opened MersenneTwister
  import opened Series
  import opened Words
  import SR = ShiftRegister

  // ---------------------------------------------------------------- seeding by a word

  lemma SeedStepIs(p: Word, i: nat)
    ensures Mt.seedStep(p, i) == Add(Mul(1812433253, Folded(p)), Wrap(i))
  {}

  lemma SeedScaled(p: Word)
    ensures Mul(1812433253, Folded(p)) == Wrap(1812433253 * Flipped(Value(p)))
  {
    SeedFactor();
    Scaled(p, 1812433253, 1812433253);
  }

  // Next is the word with number i that follows the word p.
  ghost predicate SeedNext(p: Word, i: nat, next: Word) {
    Value(next) == (1812433253 * Flipped(Value(p)) + i) % 0x1_0000_0000
  }

  lemma SeedStepValue(p: Word, i: nat, n: nat)
    requires n == 1812433253 * Flipped(Value(p))
    ensures Value(Mt.seedStep(p, i)) == (n + i) % 0x1_0000_0000
  {
    SeedStepIs(p, i);
    SeedScaled(p);
    SumIs(n, i, Mul(1812433253, Folded(p)));
  }

  lemma SeedStepNumber(p: Word, i: nat, next: Word, n: nat, v: nat)
    requires next == Mt.seedStep(p, i) && v == Value(p) && n == 1812433253 * Flipped(v)
    ensures SeedNext(p, i, next)
  {
    SeedStepValue(p, i, n);
  }

  /** Word 0 is the seed, and word i is 1812433253 q + i modulo 2^32, where q is word i - 1 with each of
      its last two bits flipped if the corresponding one of its first two bits is set. */
  lemma SeedNumbers(s: Word, mt: seq<Word>, i: nat)
    requires mt == SR.SeedWords(Mt, s) && 0 < i < 624
    ensures |mt| == 624 && mt[0] == s
    ensures SeedNext(mt[i - 1], i, mt[i])
  {
    SR.SeedChain(Mt, s, mt, i);
    var v := Value(mt[i - 1]);
    SeedStepNumber(mt[i - 1], i, mt[i], 1812433253 * Flipped(v), v);
  }

  lemma Step5489(i: nat, p: Word, q: Word)
    requires (i == 1 && p == 5489 && q == 1301868182) || (i == 2 && p == 1301868182 && q == 2938499221)
          || (i == 3 && p == 2938499221 && q == 2950281878)
    ensures Add(Mul(1812433253, Folded(p)), Small(i)) == q
  {}

  function Small(i: nat): Word { if i == 1 then 1 else if i == 2 then 2 else 3 }

  lemma SmallWrap()
    ensures Wrap(1) == 1 && Wrap(2) == 2 && Wrap(3) == 3
  {
    var n := Hex(0, 0, false, false, false, true);
    n := Hex(0, 0, false, false, true, false);
    n := Hex(0, 0, false, false, true, true);
  }

  /** The first words of the usual seed. */
  lemma SeedReference()
    ensures SR.SeedWords(Mt, 5489)[..4] == [5489, 1301868182, 2938499221, 2950281878]
  {
    var w := SR.SeedWords(Mt, 5489);
    SmallWrap();
    SeedStepIs(5489, 1);
    Step5489(1, 5489, 1301868182);
    assert w[1] == 1301868182;
    SeedStepIs(1301868182, 2);
    Step5489(2, 1301868182, 2938499221);
    assert w[2] == 2938499221;
    SeedStepIs(2938499221, 3);
    Step5489(3, 2938499221, 2950281878);
  }

  // ---------------------------------------------------------------- seeding by a key

  lemma KeyScaled(p: Word)
    ensures Mul(1664525, Folded(p)) == Wrap(1664525 * Flipped(Value(p)))
  {
    KeyFactor();
    Scaled(p, 1664525, 1664525);
  }

  lemma SlotScaled(p: Word)
    ensures Mul(1566083941, Folded(p)) == Wrap(1566083941 * Flipped(Value(p)))
  {
    SlotFactor();
    Scaled(p, 1566083941, 1566083941);
  }

  // Next takes the place of before, after last: in the first pass, and in the second.
  ghost predicate KeyNext(before: Word, last: Word, key: Word, j: nat, next: Word) {
    next == Add(Add(Eor(before, Wrap(1664525 * Flipped(Value(last)))), key), Wrap(j))
  }

  ghost predicate SlotNext(before: Word, last: Word, i: nat, next: Word) {
    next == Sub(Eor(before, Wrap(1566083941 * Flipped(Value(last)))), Wrap(i))
  }

  lemma KeyStepIs(before: Word, last: Word, key: Word, j: nat)
    ensures Mt.keyStep(before, last, key, j) == Add(Add(Eor(before, Mul(1664525, Folded(last))), key), Wrap(j))
  {}

  lemma SlotStepIs(before: Word, last: Word, i: nat)
    ensures Mt.slotStep(before, last, i) == Sub(Eor(before, Mul(1566083941, Folded(last))), Wrap(i))
  {}

  lemma KeyStepNumber(before: Word, last: Word, key: Word, j: nat, next: Word)
    requires next == Mt.keyStep(before, last, key, j)
    ensures KeyNext(before, last, key, j, next)
  {
    KeyScaled(last);
    KeyStepIs(before, last, key, j);
  }

  lemma SlotStepNumber(before: Word, last: Word, i: nat, next: Word)
    requires next == Mt.slotStep(before, last, i)
    ensures SlotNext(before, last, i, next)
  {
    SlotScaled(last);
    SlotStepIs(before, last, i);
  }

  /** Seeding by a key: write k, for k from 1 to the larger of 624 and the length of the key, mixes the
      word that was there, the last one written and word (k - 1) modulo the length of the key; 623 more
      writes mix in the number of the place. */
  lemma KeyNumbers(key: seq<Word>, base: seq<Word>, tr: seq<Word>, p: nat, k: nat, j: nat, i: nat, before: Word)
    requires key != [] && base == SR.SeedWords(Mt, 19650218) && tr == SR.Writes(Mt, key)
    requires p == (if |key| < 624 then 624 else |key|) && 0 < k < p + 624
    requires before == if k < 624 then base[k] else tr[k - 623]
    requires j == (k - 1) % |key| && i == 1 + (k - 1) % 623
    ensures |base| == 624 && |tr| == p + 624 && tr[0] == base[0]
    ensures k <= p ==> KeyNext(before, tr[k - 1], key[j], j, tr[k])
    ensures k > p ==> SlotNext(before, tr[k - 1], i, tr[k])
  {
    SR.KeyChain(Mt, key, base, tr, k, j, i, before);
    if k <= p {
      KeyStepNumber(before, tr[k - 1], key[j], j, tr[k]);
    } else {
      SlotStepNumber(before, tr[k - 1], i, tr[k]);
    }
  }

  /** The last 623 of these are what is left, each in its place, with the first bit alone in word 0. */
  lemma KeyRemains(key: seq<Word>, mt: seq<Word>, tr: seq<Word>, p: nat, k: nat, i: nat)
    requires key != [] && mt == SR.KeyWords(Mt, key) && tr == SR.Writes(Mt, key)
    requires p == (if |key| < 624 then 624 else |key|) && p < k < p + 624 && i == 1 + (k - 1) % 623
    ensures |mt| == 624 && |tr| == p + 624 && mt[0] == 0x80000000 && mt[i] == tr[k]
  {
    SR.KeyLeft(Mt, key, mt, tr, k, i);
  }

  // ---------------------------------------------------------------- the recurrence

  /** Every word is the 227th before it, xor the upper bit of the 624th before it and the 31 lower bits of
      the 623rd moved down by one place, xor 0x9908b0df if the last one of these bits is set. */
  lemma Recurrence(seed: seq<Word>, n: nat, a: Word, b: Word, y: Word)
    requires |seed| == 624 && a == SR.X(Mt, seed, n) && b == SR.X(Mt, seed, n + 1)
    requires y == (a & 0x80000000) | (b & 0x7fffffff)
    ensures n < 624 ==> a == seed[n]
    ensures SR.X(Mt, seed, n + 624) == SR.X(Mt, seed, n + 397) ^ (y >> 1) ^ if y & 1 == 1 then 0x9908b0df else 0
  {
    SR.Next(Mt, seed, n);
    TwistIs(a, b, SR.X(Mt, seed, n + 397), y);
  }

  lemma JoinIs(a: Word, b: Word)
    ensures Mt.join(a, b) == (a & 0x80000000) | (b & 0x7fffffff)
  {}

  lemma FeedIs(far: Word, y: Word)
    ensures Mt.feed(far, y) == far ^ (y >> 1) ^ if y & 1 == 1 then 0x9908b0df else 0
  {}

  lemma TwistIs(a: Word, b: Word, far: Word, y: Word)
    requires y == (a & 0x80000000) | (b & 0x7fffffff)
    ensures SR.Twist(Mt, a, b, far) == far ^ (y >> 1) ^ if y & 1 == 1 then 0x9908b0df else 0
  {
    JoinIs(a, b);
    FeedIs(far, y);
  }

  // ---------------------------------------------------------------- tempering

  /** Tempering the xor of two words is the xor of the two words tempered. */
  lemma TemperLinear(a: Word, b: Word)
    ensures Mt.temper(Xor(a, b)) == Xor(Mt.temper(a), Mt.temper(b))
  {
    XorLaws();
    StepsLinear();
    TemperApplied(a);
    TemperApplied(b);
    TemperApplied(Xor(a, b));
    MixLinear(Xor, 0, G11, a, b);
    var c, d := Mix(Xor, G11, a), Mix(Xor, G11, b);
    MixLinear(Xor, 0, G7, c, d);
    c, d := Mix(Xor, G7, c), Mix(Xor, G7, d);
    MixLinear(Xor, 0, G15, c, d);
    c, d := Mix(Xor, G15, c), Mix(Xor, G15, d);
    MixLinear(Xor, 0, G18, c, d);
  }

  lemma TemperApplied(y: Word)
    ensures Mt.temper(y) == Temper(y)
  {}

  lemma XorIs(a: Word, b: Word)
    ensures Xor(a, b) == a ^ b
  {}

  lemma Mix11(y: Word, z: Word, a: Word)
    requires z == y >> 11 && a == y ^ z
    ensures Mix(Xor, G11, y) == a
  {
    assert G11(y) == z;
    XorIs(y, z);
  }

  lemma Mix7(y: Word, z: Word, a: Word)
    requires z == (y << 7) & 0x9d2c5680 && a == y ^ z
    ensures Mix(Xor, G7, y) == a
  {
    assert G7(y) == z;
    XorIs(y, z);
  }

  lemma Mix15(y: Word, z: Word, a: Word)
    requires z == (y << 15) & 0xefc60000 && a == y ^ z
    ensures Mix(Xor, G15, y) == a
  {
    assert G15(y) == z;
    XorIs(y, z);
  }

  lemma Mix18(y: Word, z: Word, a: Word)
    requires z == y >> 18 && a == y ^ z
    ensures Mix(Xor, G18, y) == a
  {
    assert G18(y) == z;
    XorIs(y, z);
  }

  lemma TemperVia(y: Word, a: Word, b: Word, c: Word, d: Word)
    requires a == Mix(Xor, G11, y) && b == Mix(Xor, G7, a) && c == Mix(Xor, G15, b) && d == Mix(Xor, G18, c)
    ensures Mt.temper(y) == d
  {
    TemperApplied(y);
  }

  lemma TemperUnit(y: Word, y': Word, a: Word, a': Word, b: Word, b': Word, c: Word, c': Word, d: Word)
    requires y' == y >> 11 && a == y ^ y' && a' == (a << 7) & 0x9d2c5680 && b == a ^ a'
    requires b' == (b << 15) & 0xefc60000 && c == b ^ b' && c' == c >> 18 && d == c ^ c'
    ensures Mt.temper(y) == d
  {
    Mix11(y, y', a);
    Mix7(a, a', b);
    Mix15(b, b', c);
    Mix18(c, c', d);
    TemperVia(y, a, b, c, d);
  }

  /** What becomes of each bit alone, from the last to the first; the rest follows by TemperLinear. */
  lemma TemperUnits0()
    ensures Mt.temper(0x1) == 0x00400091 && Mt.temper(0x2) == 0x00000002 && Mt.temper(0x4) == 0x01020244
    ensures Mt.temper(0x8) == 0x02040489 && Mt.temper(0x10) == 0x00000010 && Mt.temper(0x20) == 0x08001220
    ensures Mt.temper(0x40) == 0x00000040 && Mt.temper(0x80) == 0x20404890
  {
    TemperUnit(0x1, 0x0, 0x1, 0x80, 0x81, 0x400000, 0x400081, 0x10, 0x00400091);
    TemperUnit(0x2, 0x0, 0x2, 0x0, 0x2, 0x0, 0x2, 0x0, 0x00000002);
    TemperUnit(0x4, 0x0, 0x4, 0x200, 0x204, 0x1020000, 0x1020204, 0x40, 0x01020244);
    TemperUnit(0x8, 0x0, 0x8, 0x400, 0x408, 0x2040000, 0x2040408, 0x81, 0x02040489);
    TemperUnit(0x10, 0x0, 0x10, 0x0, 0x10, 0x0, 0x10, 0x0, 0x00000010);
    TemperUnit(0x20, 0x0, 0x20, 0x1000, 0x1020, 0x8000000, 0x8001020, 0x200, 0x08001220);
    TemperUnit(0x40, 0x0, 0x40, 0x0, 0x40, 0x0, 0x40, 0x0, 0x00000040);
    TemperUnit(0x80, 0x0, 0x80, 0x4000, 0x4080, 0x20400000, 0x20404080, 0x810, 0x20404890);
  }

  lemma TemperUnits1()
    ensures Mt.temper(0x100) == 0x00800120 && Mt.temper(0x200) == 0x01000240 && Mt.temper(0x400) == 0x02000480
    ensures Mt.temper(0x800) == 0x04440990 && Mt.temper(0x1000) == 0x08081200 && Mt.temper(0x2000) == 0x01022244
    ensures Mt.temper(0x4000) == 0x22244c81 && Mt.temper(0x8000) == 0x40009010
  {
    TemperUnit(0x100, 0x0, 0x100, 0x0, 0x100, 0x800000, 0x800100, 0x20, 0x00800120);
    TemperUnit(0x200, 0x0, 0x200, 0x0, 0x200, 0x1000000, 0x1000200, 0x40, 0x01000240);
    TemperUnit(0x400, 0x0, 0x400, 0x0, 0x400, 0x2000000, 0x2000400, 0x80, 0x02000480);
    TemperUnit(0x800, 0x1, 0x801, 0x40080, 0x40881, 0x4400000, 0x4440881, 0x111, 0x04440990);
    TemperUnit(0x1000, 0x2, 0x1002, 0x80000, 0x81002, 0x8000000, 0x8081002, 0x202, 0x08081200);
    TemperUnit(0x2000, 0x4, 0x2004, 0x200, 0x2204, 0x1020000, 0x1022204, 0x40, 0x01022244);
    TemperUnit(0x4000, 0x8, 0x4008, 0x200400, 0x204408, 0x22040000, 0x22244408, 0x889, 0x22244c81);
    TemperUnit(0x8000, 0x10, 0x8010, 0x0, 0x8010, 0x40000000, 0x40008010, 0x1000, 0x40009010);
  }

  lemma TemperUnits2()
    ensures Mt.temper(0x10000) == 0x88013220 && Mt.temper(0x20000) == 0x01020000 && Mt.temper(0x40000) == 0x20444891
    ensures Mt.temper(0x80000) == 0x04880022 && Mt.temper(0x100000) == 0x09100044 && Mt.temper(0x200000) == 0x12200088
    ensures Mt.temper(0x400000) == 0x04440911 && Mt.temper(0x800000) == 0x08881222
  {
    TemperUnit(0x10000, 0x20, 0x10020, 0x1000, 0x11020, 0x88000000, 0x88011020, 0x2200, 0x88013220);
    TemperUnit(0x20000, 0x40, 0x20040, 0x1000000, 0x1020040, 0x0, 0x1020040, 0x40, 0x01020000);
    TemperUnit(0x40000, 0x80, 0x40080, 0x4000, 0x44080, 0x20400000, 0x20444080, 0x811, 0x20444891);
    TemperUnit(0x80000, 0x100, 0x80100, 0x4000000, 0x4080100, 0x800000, 0x4880100, 0x122, 0x04880022);
    TemperUnit(0x100000, 0x200, 0x100200, 0x8000000, 0x8100200, 0x1000000, 0x9100200, 0x244, 0x09100044);
    TemperUnit(0x200000, 0x400, 0x200400, 0x10000000, 0x10200400, 0x2000000, 0x12200400, 0x488, 0x12200088);
    TemperUnit(0x400000, 0x800, 0x400800, 0x40000, 0x440800, 0x4000000, 0x4440800, 0x111, 0x04440911);
    TemperUnit(0x800000, 0x1000, 0x801000, 0x80000, 0x881000, 0x8000000, 0x8881000, 0x222, 0x08881222);
  }

  lemma TemperUnits3()
    ensures Mt.temper(0x1000000) == 0x81000040 && Mt.temper(0x2000000) == 0x22204888 && Mt.temper(0x4000000) == 0x44009100
    ensures Mt.temper(0x8000000) == 0x88012200 && Mt.temper(0x10000000) == 0x11020440 && Mt.temper(0x20000000) == 0x20040801
    ensures Mt.temper(0x40000000) == 0x44081102 && Mt.temper(0x80000000) == 0x88102204
  {
    TemperUnit(0x1000000, 0x2000, 0x1002000, 0x80000000, 0x81002000, 0x0, 0x81002000, 0x2040, 0x81000040);
    TemperUnit(0x2000000, 0x4000, 0x2004000, 0x200000, 0x2204000, 0x20000000, 0x22204000, 0x888, 0x22204888);
    TemperUnit(0x4000000, 0x8000, 0x4008000, 0x0, 0x4008000, 0x40000000, 0x44008000, 0x1100, 0x44009100);
    TemperUnit(0x8000000, 0x10000, 0x8010000, 0x0, 0x8010000, 0x80000000, 0x88010000, 0x2200, 0x88012200);
    TemperUnit(0x10000000, 0x20000, 0x10020000, 0x1000000, 0x11020000, 0x0, 0x11020000, 0x440, 0x11020440);
    TemperUnit(0x20000000, 0x40000, 0x20040000, 0x0, 0x20040000, 0x0, 0x20040000, 0x801, 0x20040801);
    TemperUnit(0x40000000, 0x80000, 0x40080000, 0x4000000, 0x44080000, 0x0, 0x44080000, 0x1102, 0x44081102);
    TemperUnit(0x80000000, 0x100000, 0x80100000, 0x8000000, 0x88100000, 0x0, 0x88100000, 0x2204, 0x88102204);
  }
}
