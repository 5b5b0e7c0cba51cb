/**
 The real generator, seeded either way and drawn from any number of times.
 */
module RandomRun {
  import opened MersenneTwister
  import opened Words
  import opened RandomMt
  import SR = ShiftRegister

  // Tempered word n after the seed words.
  function Output(seed: seq<Word>, n: nat): Word
    requires |seed| == N
  {
    Temper(SR.X(Mt, seed, N + n))
  }

  // What the generator delivers from these seed words, without ever being stuck at zero.
  ghost predicate Delivers(seed: seq<Word>, out: seq<Word>) {
    && |seed| == N && (forall i :: 0 <= i < |out| ==> out[i] == Output(seed, i))
    && (forall n: nat :: StateAt(seed, n) != ZeroState())
  }

  method DrawAll(r: Random<Word>, n: nat, ghost seed: seq<Word>) returns (out: seq<Word>)
    requires r.Valid() && r.drawn == 0 && r.ops == Mt && |seed| == N && r.x == SR.Sequence(Mt, seed)
    modifies r, r.mt
    ensures |out| == n && forall i :: 0 <= i < n ==> out[i] == Output(seed, i)
  {
    out := [];
    while |out| < n
      invariant r.Valid() && r.drawn == |out| <= n
      invariant forall i :: 0 <= i < |out| ==> out[i] == Output(seed, i)
    {
      var y := DrawNext(r, seed);
      out := out + [y];
    }
  }

  method DrawNext(r: Random<Word>, ghost seed: seq<Word>) returns (y: Word)
    requires r.Valid() && r.ops == Mt && |seed| == N && r.x == SR.Sequence(Mt, seed)
    modifies r, r.mt
    ensures r.Valid() && r.drawn == old(r.drawn) + 1 && y == Output(seed, old(r.drawn))
  {
    TemperIs(r.x(N + r.drawn));
    y := r.Genrand();
  }

  lemma TemperIs(y: Word)
    ensures Mt.temper(y) == Temper(y)
  {}

  /** Seeded with one word: draw i is the tempered word 624 + i of the sequence of the seed words,
      and no state is zero. */
  method DrawFromSeed(s: Word, n: nat) returns (out: seq<Word>)
    ensures |out| == n && Delivers(SR.SeedWords(Mt, s), out)
  {
    var r := new Random(Mt, s);
    out := DrawAll(r, n, SR.SeedWords(Mt, s));
    forall k: nat
      ensures StateAt(SR.SeedWords(Mt, s), k) != ZeroState()
    {
      EveryRunNonZero(s, [s], k);
    }
  }

  /** Seeded with a key of any length. */
  method DrawFromKey(key: seq<Word>, n: nat) returns (out: seq<Word>)
    requires key != []
    ensures |out| == n && Delivers(SR.KeyWords(Mt, key), out)
  {
    var r := new Random.FromKey(Mt, key);
    out := DrawAll(r, n, SR.KeyWords(Mt, key));
    forall k: nat
      ensures StateAt(SR.KeyWords(Mt, key), k) != ZeroState()
    {
      EveryRunNonZero(key[0], key, k);
    }
  }
}
