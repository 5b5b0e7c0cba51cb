/** Cutting a memory region into aligned chunks. */
module Chunks {
  import opened Bits
  import opened ChunkSpec
  import opened ChunkTheorems
  import opened IntMath

  class ChunkGenerator {
    var curAddr: nat
    var nextAddr: nat
    var curSize: nat
    var sizeLeft: nat
    const startAddr: nat
    const chunkSize: nat
    const addrBits: nat

    ghost function State(): Cursor
      reads this
    {
      Cursor(curAddr, nextAddr, curSize, sizeLeft)
    }

    ghost predicate Valid()
      reads this
    {
      Bounded(State(), chunkSize, addrBits)
    }

    /** A chunk size of zero means a single chunk. */
    constructor (w: nat, start: nat, totalSize: nat, size: nat)
      requires UNSIGNED < Pow2(w) && size <= 0x8000_0000 && start < Pow2(w) && totalSize < UNSIGNED
      ensures Valid() && startAddr == start && chunkSize == size && addrBits == w
      ensures State() == Started(start, totalSize, size, w)
    {
      addrBits, startAddr, chunkSize := w, start, size;
      curAddr := start;
      var next;
      if size == 0 {
        next := Wrap(start + totalSize, w);
      } else {
        next := RoundUp(start, AsInt(size), w);
        if start == next {
          next := Wrap(next + size, w);
        }
        SecondInSpace(start, size, w);
      }
      nextAddr := next;
      var leftInChunk := Distance(next, start, w);
      var first := if totalSize <= leftInChunk then totalSize else leftInChunk;
      curSize := first;
      sizeLeft := totalSize - first;
    }

    predicate Done()
      reads this
    {
      curSize == 0
    }

    method Next() returns (ok: bool)
      requires Valid()
      modifies this
      ensures Valid() && State() == Stepped(old(State()), chunkSize, addrBits)
      ensures ok == (old(sizeLeft) > 0)
    {
      if sizeLeft == 0 {
        curSize := 0;
        return false;
      }
      curAddr := nextAddr;
      curSize := if sizeLeft <= chunkSize then sizeLeft else chunkSize;
      sizeLeft := sizeLeft - curSize;
      nextAddr := Wrap(nextAddr + curSize, addrBits);
      return true;
    }
  }

  // The loop every user of the generator runs.
  method Collect(gen: ChunkGenerator) returns (chunks: seq<Chunk>)
    requires gen.Valid()
    modifies gen
    ensures chunks == Remaining(old(gen.State()), gen.chunkSize, gen.addrBits)
  {
    chunks := [];
    while !gen.Done()
      invariant gen.Valid()
      invariant chunks + Remaining(gen.State(), gen.chunkSize, gen.addrBits)
             == Remaining(old(gen.State()), gen.chunkSize, gen.addrBits)
      decreases gen.sizeLeft, gen.curSize
    {
      chunks := chunks + [Chunk(gen.curAddr, gen.curSize)];
      var ok := gen.Next();
    }
  }

  /** The loop cuts the region up exactly, for every power of two up to 2^30, also where the region
      goes round the end of the address space; and for 2^31 if and only if the start is right. */
  method Chop(w: nat, start: nat, totalSize: nat, size: nat, ghost k: nat) returns (chunks: seq<Chunk>)
    requires Sizes(k, w) && size == Pow2(k) && start < Pow2(w) && totalSize < UNSIGNED
    ensures Covers(chunks, start, start + totalSize, k, w) <==> Right(start, totalSize, k, w)
    ensures start + totalSize <= Pow2(w) && Right(start, totalSize, k, w) ==> Partition(chunks, start, start + totalSize, k)
  {
    var gen := new ChunkGenerator(w, start, totalSize, size);
    chunks := Collect(gen);
    ChunksCover(start, totalSize, k, w);
    if start + totalSize <= Pow2(w) && Right(start, totalSize, k, w) {
      CoversPlain(chunks, start, start + totalSize, k, w);
    }
  }

  /** Without a chunk size, the whole region is one chunk. */
  method ChopWhole(w: nat, start: nat, totalSize: nat) returns (chunks: seq<Chunk>)
    requires UNSIGNED < Pow2(w) && start < Pow2(w) && totalSize < UNSIGNED
    ensures chunks == if totalSize == 0 then [] else [Chunk(start, totalSize)]
  {
    var gen := new ChunkGenerator(w, start, totalSize, 0);
    chunks := Collect(gen);
  }
}
