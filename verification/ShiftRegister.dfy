/**
 The sequence-level half of a twisted feedback shift register: 624 words, each new word mixed
 from the two oldest and the 397th.  The word operations are parameters, known only by the
 laws that make one step invertible; MersenneTwister supplies the real ones.
 */
module ShiftRegister {
  import Bits

  const N: nat := 624
  const M: nat := 397

  /** The arithmetic on machine words that the generator is made of. */
  datatype Ops<!W> = Ops(
    xor: (W, W) -> W,
    join: (W, W) -> W,              // upper part of one word, lower part of another
    upper: W -> W,
    feed: (W, W) -> W,              // far ^ (y >> 1) ^ mag01[y & 1]
    shift: W -> W,                  // the part of feed that depends on y
    unshift: W -> W,                // undoes shift
    temper: W -> W,
    seedStep: (W, nat) -> W,        // next seed word from the previous one and its index
    keyStep: (W, W, W, nat) -> W,   // old content, last write, key word, key index
    slotStep: (W, W, nat) -> W,     // old content, last write, slot number
    keyBase: W,
    topBit: W)

  // Names the words at which the laws are to be applied.
  predicate At<W>(a: W, b: W) { true }

  ghost predicate LawAt<W>(ops: Ops<W>, a: W, b: W) {
    && ops.xor(ops.xor(a, b), a) == b && ops.xor(a, ops.xor(b, a)) == b
    && ops.feed(a, b) == ops.xor(a, ops.shift(b))
    && ops.unshift(ops.shift(a)) == a && ops.shift(ops.unshift(a)) == a
    && ops.upper(ops.upper(a)) == ops.upper(a)
    && ops.upper(ops.join(a, b)) == ops.upper(a)
    && ops.join(ops.upper(a), b) == ops.join(a, b)
    && ops.join(b, ops.join(a, b)) == b
  }

  ghost predicate Laws<W(!new)>(ops: Ops<W>) {
    forall a, b {:trigger At(a, b)} :: At(a, b) ==> LawAt(ops, a, b)
  }

  // The new word made from the two oldest and a far one.
  function Twist<W>(ops: Ops<W>, a: W, b: W, far: W): W {
    ops.feed(far, ops.join(a, b))
  }

  // The joined word, from the word it went into.
  function Recover<W>(ops: Ops<W>, last: W, far: W): W {
    ops.unshift(ops.xor(last, far))
  }

  lemma RecoverTwist<W(!new)>(ops: Ops<W>, a: W, b: W, far: W)
    requires Laws(ops)
    ensures var y := Recover(ops, Twist(ops, a, b, far), far);
            ops.upper(y) == ops.upper(a) && ops.join(ops.upper(b), y) == b
  {
    var j := ops.join(a, b);
    assert At(far, j) && At(far, ops.shift(j)) && At(j, j) && At(a, b) && At(b, j);
  }

  lemma TwistRecover<W(!new)>(ops: Ops<W>, t0: W, last: W, far: W)
    requires Laws(ops)
    ensures var y := Recover(ops, last, far);
            Twist(ops, ops.upper(y), ops.join(t0, y), far) == last && ops.upper(ops.join(t0, y)) == ops.upper(t0)
  {
    var y := Recover(ops, last, far);
    assert At(far, y) && At(far, last) && At(ops.xor(last, far), last) && At(t0, y) && At(y, ops.join(t0, y));
  }

  // The infinite sequence started by 624 seed words.
  function X<W>(ops: Ops<W>, seed: seq<W>, n: nat): W
    requires |seed| == N
  {
    if n < N then seed[n]
    else Twist(ops, X(ops, seed, n - N), X(ops, seed, n - N + 1), X(ops, seed, n - N + M))
  }

  // The upper part of the oldest word and the 623 words after it.
  ghost predicate IsState<W>(ops: Ops<W>, s: seq<W>) {
    |s| == N && ops.upper(s[0]) == s[0]
  }

  // The state that starts at word n of the sequence.
  ghost function StateAt<W>(ops: Ops<W>, seed: seq<W>, n: nat): (s: seq<W>)
    requires |seed| == N
    ensures |s| == N
  {
    seq(N, i requires 0 <= i => if i == 0 then ops.upper(X(ops, seed, n)) else X(ops, seed, n + i))
  }

  ghost function Step<W>(ops: Ops<W>, s: seq<W>): (t: seq<W>)
    requires |s| == N
    ensures |t| == N
  {
    [ops.upper(s[1])] + s[2..] + [Twist(ops, s[0], s[1], s[M])]
  }

  ghost function StepBack<W>(ops: Ops<W>, t: seq<W>): (s: seq<W>)
    requires |t| == N
    ensures |s| == N
  {
    var y := Recover(ops, t[N - 1], t[M - 1]);
    [ops.upper(y), ops.join(t[0], y)] + t[1..N - 1]
  }

  lemma StepForthAndBack<W(!new)>(ops: Ops<W>, s: seq<W>)
    requires Laws(ops) && IsState(ops, s)
    ensures StepBack(ops, Step(ops, s)) == s
  {
    var t := Step(ops, s);
    RecoverTwist(ops, s[0], s[1], s[M]);
    assert t[M - 1] == s[M] && t[1..N - 1] == s[2..];
    assert s == [s[0], s[1]] + s[2..];
  }

  lemma StepBackAndForth<W(!new)>(ops: Ops<W>, t: seq<W>)
    requires Laws(ops) && IsState(ops, t)
    ensures Step(ops, StepBack(ops, t)) == t
  {
    var s := StepBack(ops, t);
    TwistRecover(ops, t[0], t[N - 1], t[M - 1]);
    assert s[M] == t[M - 1] && s[2..] == t[1..N - 1];
    assert t == [t[0]] + t[1..N - 1] + [t[N - 1]];
  }

  // Moving one word along the sequence is one step of the state.
  lemma StateStep<W(!new)>(ops: Ops<W>, seed: seq<W>, n: nat)
    requires Laws(ops) && |seed| == N
    ensures IsState(ops, StateAt(ops, seed, n))
    ensures StateAt(ops, seed, n + 1) == Step(ops, StateAt(ops, seed, n))
  {
    var s, t := StateAt(ops, seed, n), StateAt(ops, seed, n + 1);
    assert At(X(ops, seed, n), X(ops, seed, n + 1));
    assert t[N - 1] == X(ops, seed, n + N);
    assert forall i :: 1 <= i < N - 1 ==> t[i] == s[i + 1] == Step(ops, s)[i];
  }

  lemma CameFrom<W(!new)>(ops: Ops<W>, seed: seq<W>, n: nat, z: seq<W>)
    requires Laws(ops) && |seed| == N && z == StateAt(ops, seed, n + 1)
    ensures StateAt(ops, seed, n) == StepBack(ops, z)
  {
    StateStep(ops, seed, n);
    StepForthAndBack(ops, StateAt(ops, seed, n));
  }

  // A state that steps back to itself is never entered from elsewhere.
  lemma {:induction false} NeverEntered<W(!new)>(ops: Ops<W>, seed: seq<W>, z: seq<W>, n: nat)
    requires Laws(ops) && |seed| == |z| == N && StepBack(ops, z) == z
    requires StateAt(ops, seed, 0) != z
    ensures StateAt(ops, seed, n) != z
  {
    if n > 0 {
      NeverEntered(ops, seed, z, n - 1);
      CameFrom(ops, seed, n - 1, StateAt(ops, seed, n));
    }
  }

  // Two runs that ever meet in a state came from the same state.
  lemma {:induction false} NeverMerge<W(!new)>(ops: Ops<W>, seed: seq<W>, seed': seq<W>, n: nat)
    requires Laws(ops) && |seed| == |seed'| == N && StateAt(ops, seed, n) == StateAt(ops, seed', n)
    ensures StateAt(ops, seed, 0) == StateAt(ops, seed', 0)
  {
    if n > 0 {
      var z := StateAt(ops, seed, n);
      CameFrom(ops, seed, n - 1, z);
      CameFrom(ops, seed', n - 1, z);
      NeverMerge(ops, seed, seed', n - 1);
    }
  }

  // ---------------------------------------------------------------- seeding

  // Word i of the array filled from a single seed.
  function Lcg<W>(ops: Ops<W>, s: W, i: nat): W {
    if i == 0 then s else ops.seedStep(Lcg(ops, s, i - 1), i)
  }

  function SeedWords<W>(ops: Ops<W>, s: W): (mt: seq<W>)
    ensures |mt| == N
  {
    seq(N, i requires 0 <= i => Lcg(ops, s, i))
  }

  // How many writes mix in the key.
  function Passes<W>(key: seq<W>): nat {
    if N > |key| then N else |key|
  }

  /** The words written by the keyed seeding, in the order in which they are written.  The k-th
      write goes to slot 1 + (k-1) % 623, whose previous content is the write 623 earlier; the
      first Passes(key) writes mix in the key, the last 623 mix in the slot number. */
  function Write<W>(ops: Ops<W>, key: seq<W>, k: nat): W
    requires key != []
  {
    if k == 0 then Lcg(ops, ops.keyBase, 0)
    else
      var before := if k < N then Lcg(ops, ops.keyBase, k) else Write(ops, key, k - (N - 1));
      NextWrite(ops, key, k, before, Write(ops, key, k - 1))
  }

  // Everything the keyed seeding writes.
  function Writes<W>(ops: Ops<W>, key: seq<W>): (tr: seq<W>)
    requires key != []
    ensures |tr| == Passes(key) + N
  {
    seq(Passes(key) + N, k requires 0 <= k => Write(ops, key, k))
  }

  // The k-th index into a key used over and over: k % len.
  function Cycle(len: nat, k: nat): (j: nat)
    requires len > 0
    ensures j < len
  {
    if k == 0 || Cycle(len, k - 1) + 1 >= len then 0 else Cycle(len, k - 1) + 1
  }

  lemma {:induction false} CycleIsMod(len: nat, k: nat)
    requires len > 0
    ensures Cycle(len, k) == k % len
  {
    if k == 0 {
      Bits.ModUnique(0, len, 0, 0);
    } else {
      CycleIsMod(len, k - 1);
      NextMod(k - 1, len);
      CycleNext(len, k, (k - 1) % len);
    }
  }

  lemma CycleNext(len: nat, k: nat, r: nat)
    requires len > 0 && k > 0 && Cycle(len, k - 1) == r
    ensures Cycle(len, k) == if r + 1 >= len then 0 else r + 1
  {}

  // (k + 1) % len, by cases.
  lemma NextMod(k: nat, len: nat)
    requires len > 0
    ensures (k + 1) % len == if k % len + 1 >= len then 0 else k % len + 1
  {
    var q, r := k / len, k % len;
    assert k == len * q + r;
    if r + 1 < len {
      Bits.ModUnique(k + 1, len, q, r + 1);
    } else {
      assert k + 1 == len * (q + 1);
      Bits.ModUnique(k + 1, len, q + 1, 0);
    }
  }

  // The k-th write, from what its slot held before and what was written last.
  function NextWrite<W>(ops: Ops<W>, key: seq<W>, k: nat, before: W, last: W): W
    requires key != [] && k > 0
  {
    if k <= Passes(key) then ops.keyStep(before, last, key[Cycle(|key|, k - 1)], Cycle(|key|, k - 1))
    else ops.slotStep(before, last, 1 + (k - 1) % (N - 1))
  }

  function WriteAt<W>(ops: Ops<W>, key: seq<W>, base: seq<W>, tr: seq<W>, k: nat): W
    requires key != [] && |base| == N && 0 < k < |tr|
  {
    NextWrite(ops, key, k, if k < N then base[k] else tr[k - (N - 1)], tr[k - 1])
  }

  // tr is what the keyed seeding writes over an array that holds base.
  ghost predicate Traces<W>(ops: Ops<W>, key: seq<W>, base: seq<W>, tr: seq<W>) {
    && key != [] && |base| == N && |tr| == Passes(key) + N && tr[0] == base[0]
    && forall k {:trigger WriteAt(ops, key, base, tr, k)} :: 0 < k < |tr| ==> tr[k] == WriteAt(ops, key, base, tr, k)
  }

  lemma WriteStep<W>(ops: Ops<W>, key: seq<W>, k: nat)
    requires key != [] && k > 0
    ensures var before := if k < N then Lcg(ops, ops.keyBase, k) else Write(ops, key, k - (N - 1));
            Write(ops, key, k) == NextWrite(ops, key, k, before, Write(ops, key, k - 1))
  {}

  lemma WritesTrace<W>(ops: Ops<W>, key: seq<W>)
    requires key != []
    ensures Traces(ops, key, SeedWords(ops, ops.keyBase), Writes(ops, key))
  {
    var base, tr := SeedWords(ops, ops.keyBase), Writes(ops, key);
    forall k {:trigger WriteAt(ops, key, base, tr, k)} | 0 < k < |tr|
      ensures tr[k] == WriteAt(ops, key, base, tr, k)
    {
      WriteStep(ops, key, k);
      assert tr[k] == Write(ops, key, k) && tr[k - 1] == Write(ops, key, k - 1);
      if k >= N {
        assert tr[k - (N - 1)] == Write(ops, key, k - (N - 1));
      }
    }
  }

  // What slot s holds when the round-th write ended a round and slot i is to be written next.
  function Slot<W>(base: seq<W>, tr: seq<W>, round: nat, i: nat, s: nat): W
    requires |base| == N && 1 <= i < N && 1 <= s < N
    requires round + i <= |tr| && (round == 0 || round >= N - 1)
  {
    if s < i then tr[round + s]
    else if round == 0 then base[s]
    else tr[round - (N - 1) + s]
  }

  // The array left behind by p + 623 writes, once word 0 has been overwritten.
  function KeyRow<W>(top: W, p: nat, base: seq<W>, tr: seq<W>): (mt: seq<W>)
    requires |base| == N && |tr| == p + N
    ensures |mt| == N
  {
    var r := (p + N - 1) % (N - 1);
    seq(N, s requires 0 <= s < N => if s == 0 then top else Slot(base, tr, p + N - 1 - r, 1 + r, s))
  }

  function KeyWords<W>(ops: Ops<W>, key: seq<W>): (mt: seq<W>)
    requires key != []
    ensures |mt| == N
  {
    KeyRow(ops.topBit, Passes(key), SeedWords(ops, ops.keyBase), Writes(ops, key))
  }

  // Write number k goes to slot 1 + (k - 1) % 623; the last 623 of them are what is left.
  lemma LastWrites<W>(top: W, p: nat, base: seq<W>, tr: seq<W>, k: nat)
    requires |base| == N && |tr| == p + N && p < k < p + N
    ensures KeyRow(top, p, base, tr)[0] == top && KeyRow(top, p, base, tr)[1 + (k - 1) % (N - 1)] == tr[k]
  {
    var n := p + N - 1;
    var q, r := n / (N - 1), n % (N - 1);
    if k - 1 >= n - r {
      Bits.ModUnique(k - 1, N - 1, q, k - 1 - (n - r));
    } else {
      Bits.ModUnique(k - 1, N - 1, q - 1, k - 1 - (n - r - (N - 1)));
    }
  }

  /** The keyed seeding, write by write: k is the number of a write, and before what was there. */
  lemma KeyChain<W>(ops: Ops<W>, key: seq<W>, base: seq<W>, tr: seq<W>, k: nat, j: nat, i: nat, before: W)
    requires key != [] && base == SeedWords(ops, ops.keyBase) && tr == Writes(ops, key)
    requires 0 < k < Passes(key) + N && before == if k < N then base[k] else tr[k - (N - 1)]
    requires j == (k - 1) % |key| && i == 1 + (k - 1) % (N - 1)
    ensures |tr| == Passes(key) + N && tr[0] == base[0]
    ensures k <= Passes(key) ==> tr[k] == ops.keyStep(before, tr[k - 1], key[j], j)
    ensures k > Passes(key) ==> tr[k] == ops.slotStep(before, tr[k - 1], i)
  {
    WritesTrace(ops, key);
    assert tr[k] == WriteAt(ops, key, base, tr, k);
    CycleIsMod(|key|, k - 1);
  }

  // What is left in place i after write number k of the second pass, and in place 0.
  lemma KeyLeft<W>(ops: Ops<W>, key: seq<W>, mt: seq<W>, tr: seq<W>, k: nat, i: nat)
    requires key != [] && mt == KeyWords(ops, key) && tr == Writes(ops, key)
    requires Passes(key) < k < Passes(key) + N && i == 1 + (k - 1) % (N - 1)
    ensures mt[0] == ops.topBit && mt[i] == tr[k]
  {
    LastWrites(ops.topBit, Passes(key), SeedWords(ops, ops.keyBase), tr, k);
  }

  // Word i of the block after cur: it depends on old words and, further along, on new ones.
  ghost function NextAt<W>(ops: Ops<W>, cur: seq<W>, nxt: seq<W>, i: nat): W
    requires |cur| == |nxt| == N && i < N
  {
    Twist(ops, cur[i], if i < N - 1 then cur[i + 1] else nxt[0], if i < N - M then cur[i + M] else nxt[i + M - N])
  }

  // nxt is the block of 624 words that follows the block cur.
  ghost predicate Follows<W>(ops: Ops<W>, cur: seq<W>, nxt: seq<W>) {
    && |cur| == |nxt| == N
    && forall i {:trigger NextAt(ops, cur, nxt, i)} :: 0 <= i < N ==> nxt[i] == NextAt(ops, cur, nxt, i)
  }

  // The sequence as a function.
  ghost function Sequence<W>(ops: Ops<W>, seed: seq<W>): nat -> W
    requires |seed| == N
  {
    (n: nat) => X(ops, seed, n)
  }

  lemma Next<W>(ops: Ops<W>, seed: seq<W>, n: nat)
    requires |seed| == N
    ensures X(ops, seed, n + N) == Twist(ops, X(ops, seed, n), X(ops, seed, n + 1), X(ops, seed, n + M))
    ensures n < N ==> X(ops, seed, n) == seed[n]
  {}

  // Names a position at which the recurrence is to be applied.
  predicate Here(n: nat) { true }

  ghost predicate Recurs<W>(ops: Ops<W>, x: nat -> W) {
    forall n: nat {:trigger Here(n)} :: Here(n) ==> x(n + N) == Twist(ops, x(n), x(n + 1), x(n + M))
  }

  lemma SequenceRecurs<W>(ops: Ops<W>, seed: seq<W>)
    requires |seed| == N
    ensures Recurs(ops, Sequence(ops, seed))
  {}

  // The 624 words of x from the n-th on.
  ghost function Block<W>(x: nat -> W, n: nat): (b: seq<W>)
    ensures |b| == N
  {
    seq(N, i requires 0 <= i => x(n + i))
  }

  lemma BlocksFollow<W>(ops: Ops<W>, x: nat -> W, n: nat)
    requires Recurs(ops, x)
    ensures Follows(ops, Block(x, n), Block(x, n + N))
  {
    var cur, nxt := Block(x, n), Block(x, n + N);
    forall i {:trigger NextAt(ops, cur, nxt, i)} | 0 <= i < N
      ensures nxt[i] == NextAt(ops, cur, nxt, i)
    {
      assert Here(n + i);
    }
  }

  ghost function Constant<W>(z: W): (s: seq<W>)
    ensures |s| == N
  {
    seq(N, _ => z)
  }

  // Each word comes from the one before it.
  lemma SeedChain<W>(ops: Ops<W>, s: W, mt: seq<W>, i: nat)
    requires mt == SeedWords(ops, s) && 0 < i < N
    ensures mt[0] == s && mt[i] == ops.seedStep(mt[i - 1], i)
  {}

  lemma SeedNotConstant<W(!new)>(ops: Ops<W>, s: W, z: W)
    requires ops.seedStep(z, 2) != z
    ensures StateAt(ops, SeedWords(ops, s), 0) != Constant(z)
  {
    var t := StateAt(ops, SeedWords(ops, s), 0);
    assert t[1] == Lcg(ops, s, 1) && t[2] == Lcg(ops, s, 2);
    assert Constant(z)[1] == z && Constant(z)[2] == z;
  }

  lemma KeyNotConstant<W(!new)>(ops: Ops<W>, key: seq<W>, z: W)
    requires key != [] && ops.upper(ops.topBit) != z
    ensures StateAt(ops, KeyWords(ops, key), 0) != Constant(z)
  {
    assert StateAt(ops, KeyWords(ops, key), 0)[0] == ops.upper(ops.topBit);
    assert Constant(z)[0] == z;
  }
}
