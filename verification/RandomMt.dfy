/**
 The generator object: an array of 624 words regenerated in place, and an index into it.
 Whatever the array holds, it is always a window of the infinite sequence X of its seed words.
 The word arithmetic is a parameter, MersenneTwister.Mt for the real generator.
 */
module RandomMt {
  import opened ShiftRegister
  import Bits

  class Random<W(0)> {
    const ops: Ops<W>
    const mt: array<W>
    var mti: nat
    // The infinite sequence of words, and how many numbers were drawn from it.
    ghost const x: nat -> W
    ghost var drawn: nat

    ghost predicate Valid()
      reads this, mt
    {
      && mt.Length == N && mti <= N && Recurs(ops, x)
      && mt[..] == Block(x, drawn + N - mti)
    }

    constructor (ops: Ops<W>, s: W)
      ensures Valid() && fresh(mt) && this.ops == ops && drawn == 0 && x == Sequence(ops, SeedWords(ops, s))
    {
      this.ops := ops;
      mt := new W[N];
      mti := 0;
      drawn := 0;
      x := Sequence(ops, SeedWords(ops, s));
      new;
      InitSeed(s);
      SequenceRecurs(ops, SeedWords(ops, s));
      assert Block(x, 0) == SeedWords(ops, s);
    }

    constructor FromKey(ops: Ops<W>, key: seq<W>)
      requires key != []
      ensures Valid() && fresh(mt) && this.ops == ops && drawn == 0 && x == Sequence(ops, KeyWords(ops, key))
    {
      this.ops := ops;
      mt := new W[N];
      mti := 0;
      drawn := 0;
      x := Sequence(ops, KeyWords(ops, key));
      new;
      InitKey(key);
      SequenceRecurs(ops, KeyWords(ops, key));
      assert Block(x, 0) == KeyWords(ops, key);
    }

    method InitSeed(s: W)
      requires mt.Length == N
      modifies this`mti, mt
      ensures mti == N && mt[..] == SeedWords(ops, s)
    {
      mt[0] := s;
      mti := 1;
      while mti < N
        invariant 1 <= mti <= N
        invariant forall k :: 0 <= k < mti ==> mt[k] == Lcg(ops, s, k)
      {
        mt[mti] := ops.seedStep(mt[mti - 1], mti);
        mti := mti + 1;
      }
    }

    // After round + i - 1 writes, the next one going to slot i.
    ghost predicate Written(base: seq<W>, tr: seq<W>, q: nat, i: nat)
      reads mt
    {
      var round := (N - 1) * q;
      && mt.Length == |base| == N && 1 <= i < N && round + i <= |tr|
      && mt[0] == tr[round]
      && forall s :: 1 <= s < N ==> mt[s] == Slot(base, tr, round, i, s)
    }

    // Store the next write, copying the last slot to slot 0 on wrapping round.
    method Store(w: W, i: nat, ghost base: seq<W>, ghost tr: seq<W>, ghost q: nat)
        returns (i': nat, ghost q': nat)
      requires Written(base, tr, q, i) && (N - 1) * q + i < |tr| && w == tr[(N - 1) * q + i]
      modifies mt
      ensures Written(base, tr, q', i') && (N - 1) * q' + i' == (N - 1) * q + i + 1
    {
      mt[i] := w;
      i', q' := i + 1, q;
      if i' >= N {
        mt[0] := mt[N - 1];
        i', q' := 1, q + 1;
      }
    }

    method InitKey(key: seq<W>)
      requires key != [] && mt.Length == N
      modifies this`mti, mt
      ensures mti == N && mt[..] == KeyWords(ops, key)
    {
      InitSeed(ops.keyBase);
      ghost var base, tr := SeedWords(ops, ops.keyBase), Writes(ops, key);
      WritesTrace(ops, key);
      var i;
      ghost var q;
      i, q := MixKey(key, base, tr);
      i, q := MixSlots(key, base, tr, i, q);
      mt[0] := ops.topBit;
      FinalRow(Passes(key), base, tr, q, i);
    }

    lemma FinalRow(p: nat, base: seq<W>, tr: seq<W>, q: nat, i: nat)
      requires mt.Length == |base| == N && |tr| == p + N && (N - 1) * q + i == p + N && 1 <= i < N
      requires forall s :: 1 <= s < N ==> mt[s] == Slot(base, tr, (N - 1) * q, i, s)
      ensures mt[..] == KeyRow(mt[0], p, base, tr)
    {
      Bits.ModUnique(p + N - 1, N - 1, q, i - 1);
    }

    // What the next write reads: its slot's old content, and the slot to the left.
    lemma BeforeWrite(base: seq<W>, tr: seq<W>, q: nat, i: nat)
      requires Written(base, tr, q, i)
      ensures var k := (N - 1) * q + i;
        && mt[i - 1] == tr[k - 1]
        && mt[i] == if k < N then base[k] else tr[k - (N - 1)]
    {
      var round := (N - 1) * q;
      assert mt[i] == Slot(base, tr, round, i, i);
      if i > 1 {
        assert mt[i - 1] == Slot(base, tr, round, i, i - 1);
      }
    }

    method MixKey(key: seq<W>, ghost base: seq<W>, ghost tr: seq<W>) returns (i: nat, ghost q: nat)
      requires Traces(ops, key, base, tr) && mt.Length == N && mt[..] == base
      modifies mt
      ensures Written(base, tr, q, i) && (N - 1) * q + i == Passes(key) + 1
    {
      var j := 0;
      i, q := 1, 0;
      var k := if N > |key| then N else |key|;
      while k > 0
        invariant 0 <= k <= Passes(key)
        invariant (N - 1) * q + i + k == Passes(key) + 1 && Written(base, tr, q, i)
        invariant j == Cycle(|key|, (N - 1) * q + i - 1)
      {
        ghost var at := (N - 1) * q + i;
        BeforeWrite(base, tr, q, i);
        assert tr[at] == WriteAt(ops, key, base, tr, at);
        i, q := Store(ops.keyStep(mt[i], mt[i - 1], key[j], j), i, base, tr, q);
        j := j + 1;
        if j >= |key| {
          j := 0;
        }
        k := k - 1;
      }
    }

    method MixSlots(key: seq<W>, ghost base: seq<W>, ghost tr: seq<W>, i0: nat, ghost q0: nat)
        returns (i: nat, ghost q: nat)
      requires Traces(ops, key, base, tr)
      requires Written(base, tr, q0, i0) && (N - 1) * q0 + i0 == Passes(key) + 1
      modifies mt
      ensures Written(base, tr, q, i) && (N - 1) * q + i == Passes(key) + N
    {
      i, q := i0, q0;
      var k := N - 1;
      while k > 0
        invariant 0 <= k <= N - 1
        invariant (N - 1) * q + i + k == Passes(key) + N && Written(base, tr, q, i)
      {
        ghost var at := (N - 1) * q + i;
        BeforeWrite(base, tr, q, i);
        assert tr[at] == WriteAt(ops, key, base, tr, at);
        Bits.ModUnique(at - 1, N - 1, q, i - 1);
        i, q := Store(ops.slotStep(mt[i], mt[i - 1], i), i, base, tr, q);
        k := k - 1;
      }
    }

    // Replace a block of words by the one that follows it, in place.
    method Regenerate(ghost nxt: seq<W>)
      requires mt.Length == N && Follows(ops, mt[..], nxt)
      modifies mt
      ensures mt[..] == nxt
    {
      ghost var cur := mt[..];
      var kk := 0;
      while kk < N - M
        invariant 0 <= kk <= N - M && Partly(cur, nxt, kk)
      {
        assert nxt[kk] == NextAt(ops, cur, nxt, kk);
        mt[kk] := ops.feed(mt[kk + M], ops.join(mt[kk], mt[kk + 1]));
        kk := kk + 1;
      }
      while kk < N - 1
        invariant N - M <= kk <= N - 1 && Partly(cur, nxt, kk)
      {
        assert nxt[kk] == NextAt(ops, cur, nxt, kk);
        mt[kk] := ops.feed(mt[kk + M - N], ops.join(mt[kk], mt[kk + 1]));
        kk := kk + 1;
      }
      assert nxt[kk] == NextAt(ops, cur, nxt, kk);
      mt[N - 1] := ops.feed(mt[M - 1], ops.join(mt[N - 1], mt[0]));
    }

    // The first kk words are new, the rest still old.
    ghost predicate Partly(cur: seq<W>, nxt: seq<W>, kk: nat)
      requires |cur| == |nxt| == N
      reads mt
    {
      mt.Length == N && forall i :: 0 <= i < N ==> mt[i] == if i < kk then nxt[i] else cur[i]
    }

    // Have at least one unused word.
    method Refill()
      requires Valid()
      modifies this`mti, mt
      ensures Valid() && mti < N
    {
      if mti >= N {
        BlocksFollow(ops, x, drawn);
        Regenerate(Block(x, drawn + N));
        mti := 0;
      }
    }

    /** The n-th number drawn after seeding is the tempered word 624 + n of the sequence. */
    method Genrand() returns (y: W)
      requires Valid()
      modifies this, mt
      ensures Valid() && drawn == old(drawn) + 1
      ensures y == ops.temper(x(N + old(drawn)))
    {
      Refill();
      y := mt[mti];
      BlockAt(x, drawn + N - mti, mti);
      mti := mti + 1;
      drawn := drawn + 1;
      y := ops.temper(y);
    }
  }

  lemma BlockAt<W>(x: nat -> W, n: nat, i: nat)
    requires i < N
    ensures Block(x, n)[i] == x(n + i)
  {}
}
