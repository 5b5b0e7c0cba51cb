/** Where aligned chunks begin and end, and how the loop over them goes on. */
module ChunkTheorems {
  import opened Bits
  import opened ChunkSpec
  import opened IntMath

  // ---------------------------------------------------------------- boundaries

  lemma BoundaryAligned(addr: nat, k: nat)
    ensures Down(Boundary(addr, k), k) == Boundary(addr, k)
  {
    DownTwice(addr, k, k);
    DownShift(Down(addr, k), k, k);
  }

  // No boundary lies beyond the end of the address space.
  lemma BoundaryInSpace(addr: nat, k: nat, w: nat)
    requires k <= w && addr < Pow2(w)
    ensures Boundary(addr, k) <= Pow2(w)
  {
    DownShift(0, k, w);
    DownSmall(0, k);
    DownBounds(addr, k);
    BoundaryAligned(addr, k);
    if Boundary(addr, k) > Pow2(w) {
      CloseMultiples(Boundary(addr, k), Pow2(w), k);
      assert false;
    }
  }

  // Rounding up gives the address itself or the boundary.
  lemma CeilIs(addr: nat, k: nat)
    ensures Ceil(addr, k) == if Down(addr, k) == addr then addr else Boundary(addr, k)
  {
    CeilMeaning(addr, k);
  }

  lemma StaysInBlock(c: Chunk, k: nat)
    requires 0 < c.size && c.addr + c.size <= Boundary(c.addr, k)
    ensures InOneBlock(c, k)
  {
    DownBounds(c.addr, k);
    DownTwice(c.addr, k, k);
    NoMultipleBetween(c.addr + c.size - 1, Down(c.addr, k), k);
  }

  // ---------------------------------------------------------------- the first chunk

  /** Up to 2^30 the second chunk begins at the boundary, and even when its address wraps round to
      0, the distance to it comes out right. */
  lemma FirstStop(start: nat, k: nat, w: nat)
    requires start < Pow2(w) && Sizes(k, w) && k <= 30
    ensures Boundary(start, k) <= Pow2(w) && SecondAddr(start, Pow2(k), w) == Wrap(Boundary(start, k), w)
    ensures Distance(Wrap(Boundary(start, k), w), start, w) == Boundary(start, k) - start
  {
    SmallPower(k);
    RoundUpMeaning(start, k, w);
    CeilIs(start, k);
    BoundaryInSpace(start, k, w);
    DownBounds(start, k);
    BoundaryNear(start, k, w);
  }

  lemma BoundaryNear(start: nat, k: nat, w: nat)
    requires start < Pow2(w) && UNSIGNED < Pow2(w) && Pow2(k) < UNSIGNED && start < Boundary(start, k) <= Pow2(w)
    requires Boundary(start, k) <= start + Pow2(k)
    ensures Distance(Wrap(Boundary(start, k), w), start, w) == Boundary(start, k) - start
  {}

  // With 2^31 rounding up keeps bit 31 alone.
  lemma HugeRound(start: nat, w: nat)
    requires start < Pow2(w) && Sizes(31, w)
    ensures Ceil(start, 31) <= Pow2(w)
    ensures RoundUp(start, AsInt(0x8000_0000), w) == Ceil(start, 31) - Down(Ceil(start, 31), 32)
  {
    Powers();
    MaskedBit(start, Pow2(w) - Pow2(31) - 1, 31, w);
    BoundaryInSpace(start, 31, w);
    CeilIs(start, 31);
  }

  // From low addresses the second chunk is right.
  lemma HugeLow(start: nat, w: nat)
    requires start <= 0x8000_0000 && Sizes(31, w)
    ensures SecondAddr(start, 0x8000_0000, w) == Boundary(start, 31) <= UNSIGNED
    ensures Distance(SecondAddr(start, 0x8000_0000, w), start, w) == Boundary(start, 31) - start
  {
    HugeRound(start, w);
    CeilIs(start, 31);
    LowCeil(start);
    DownBounds(start, 31);
  }

  lemma LowCeil(start: nat)
    requires start <= 0x8000_0000
    ensures Ceil(start, 31) <= 0x8000_0000 == Pow2(31) && Down(Ceil(start, 31), 32) == 0
  {
    Powers();
    CeilAtMost(start, 31);
    DownSmall(Ceil(start, 31), 32);
  }

  // Whole multiples of 2^32 do not matter for an unsigned.
  lemma DropHigh(d: nat, a: nat, w: nat)
    requires d < UNSIGNED && 32 < w && Down(a, 32) <= Pow2(w)
    ensures (d + Pow2(w) - Down(a, 32)) % UNSIGNED == d
  {
    Powers();
    DownIsMod(a, 32);
    DownIsMod(Pow2(w), 32);
    DownShift(0, 32, w);
    DownSmall(0, 32);
    var x, y := a / UNSIGNED, Pow2(w) / UNSIGNED;
    ModUnique(d + Pow2(w) - Down(a, 32), UNSIGNED, y - x, d);
  }

  lemma HugeBit(c: nat)
    requires Down(c, 31) == c
    ensures c - Down(c, 32) <= 0x8000_0000
  {
    Powers();
    DownBounds(c, 32);
    DownTwice(c, 31, 32);
    var b := Down(c, 32);
    if c - b > 0x8000_0000 {
      DownShift(b, 31, 31);
      CloseMultiples(c, b + Pow2(31), 31);
      assert false;
    }
  }

  lemma HugeDistance(start: nat, c: nat, w: nat)
    requires 0x8000_0000 < start <= c < start + 0x8000_0000 && start < Pow2(w) && c <= Pow2(w) && Sizes(31, w)
    requires Down(c, 31) == c
    ensures 0 <= c - Down(c, 32) <= 0x8000_0000
    ensures Distance(c - Down(c, 32), start, w) == c - start
  {
    HugeBit(c);
    DownBounds(c, 32);
    DropHigh(c - start, c, w);
    FarBack(start, c - Down(c, 32), c - start, Down(c, 32), w);
  }

  lemma FarBack(start: nat, next: nat, d: nat, h: nat, w: nat)
    requires next < start < Pow2(w) && next + h == start + d && h <= d + Pow2(w)
    requires (d + Pow2(w) - h) % UNSIGNED == d
    ensures Distance(next, start, w) == d
  {
    assert next - start + Pow2(w) == d + Pow2(w) - h;
  }

  // From high addresses only the first length can be right, and the second address is below 2^32.
  lemma HugeHigh(start: nat, w: nat)
    requires 0x8000_0000 < start < Pow2(w) && Sizes(31, w)
    ensures var next, c := SecondAddr(start, 0x8000_0000, w), Ceil(start, 31);
      next == c - Down(c, 32) < UNSIGNED && Distance(next, start, w) == c - start < UNSIGNED
  {
    Powers();
    HugeRound(start, w);
    CeilMeaning(start, 31);
    HugeDistance(start, Ceil(start, 31), w);
  }

  // And the second address is right only where the address space ends.
  lemma HugeWrong(start: nat, w: nat)
    requires 0x8000_0000 < start < Pow2(w) && Sizes(31, w) && Down(start, 31) != start
    ensures Ceil(start, 31) == Boundary(start, 31) <= Pow2(w)
    ensures SecondAddr(start, 0x8000_0000, w) == Wrap(Boundary(start, 31), w) <==> Boundary(start, 31) == Pow2(w)
  {
    HugeHigh(start, w);
    CeilIs(start, 31);
    BoundaryInSpace(start, 31, w);
    AtLeastOne(start, w);
  }

  lemma AtLeastOne(start: nat, w: nat)
    requires 0x8000_0000 < start && 32 < w
    ensures Down(Ceil(start, 31), 32) > 0 && Down(Pow2(w), 32) == Pow2(w)
  {
    Powers();
    CeilAtMost(start, 31);
    DownShift(0, 32, w);
    DownShift(0, 32, 32);
    DownSmall(0, 32);
    DownMono(UNSIGNED, Ceil(start, 31), 32);
  }

  lemma FirstFits(start: nat, total: nat, size: nat, k: nat)
    requires total > 0 && start <= Boundary(start, k) && size == Least(total, Boundary(start, k) - start)
    ensures Fits([], start, size, total - size, k) && Partition([], start, start, k)
  {
    DownBounds(start, k);
  }

  lemma NextFits(chunks: seq<Chunk>, c: Chunk, left: nat, size: nat, k: nat)
    requires left > 0 && Fits(chunks, c.addr, c.size, left, k) && size == Least(left, Pow2(k))
    ensures Fits(chunks + [c], c.addr + c.size, size, left - size, k)
  {
    BoundaryAligned(c.addr, k);
  }

  lemma Extend(chunks: seq<Chunk>, c: Chunk, start: nat, left: nat, k: nat)
    requires Partition(chunks, start, c.addr, k) && Fits(chunks, c.addr, c.size, left, k)
    ensures Partition(chunks + [c], start, c.addr + c.size, k)
  {
    StaysInBlock(c, k);
    var all := chunks + [c];
    forall i | 0 <= i < |all| - 1
      ensures Touch(all, i)
    {
      assert i < |chunks| - 1 ==> Touch(chunks, i);
    }
  }

  // ---------------------------------------------------------------- the start

  // With 2^31: the first length, and the second address where it matters.
  lemma HugeStart(start: nat, total: nat, w: nat)
    requires start < Pow2(w) && Sizes(31, w) && Right(start, total, 31, w) && total > 0
    ensures Boundary(start, 31) <= Pow2(w)
    ensures SecondAddr(start, 0x8000_0000, w) < Pow2(w)
    ensures Distance(SecondAddr(start, 0x8000_0000, w), start, w) == Boundary(start, 31) - start
    ensures total > Boundary(start, 31) - start ==> SecondAddr(start, 0x8000_0000, w) == Wrap(Boundary(start, 31), w)
  {
    BoundaryInSpace(start, 31, w);
    if start <= 0x8000_0000 {
      HugeLow(start, w);
    } else {
      HugeHigh(start, w);
      HugeWrong(start, w);
    }
  }

  lemma StartDistance(start: nat, total: nat, k: nat, w: nat)
    requires start < Pow2(w) && Sizes(k, w) && Right(start, total, k, w) && total > 0
    ensures Boundary(start, k) <= Pow2(w) && SecondAddr(start, Pow2(k), w) < Pow2(w)
    ensures Distance(SecondAddr(start, Pow2(k), w), start, w) == Boundary(start, k) - start
    ensures total > Boundary(start, k) - start ==> SecondAddr(start, Pow2(k), w) == Wrap(Boundary(start, k), w)
  {
    if k < 31 {
      FirstStop(start, k, w);
    } else {
      Powers();
      HugeStart(start, total, w);
    }
  }

  // The first chunk and the second address, where they are right.
  lemma StartsRight(start: nat, total: nat, k: nat, w: nat, next: nat, first: nat)
    requires start < Pow2(w) && Sizes(k, w) && Right(start, total, k, w) && total > 0
    requires next == SecondAddr(start, Pow2(k), w) < Pow2(w) && first == Least(total, Distance(next, start, w))
    ensures start <= Boundary(start, k) && first == Least(total, Boundary(start, k) - start)
    ensures start + first < 2 * Pow2(w) && (first < total ==> next == Wrap(start + first, w))
  {
    DownBounds(start, k);
    StartDistance(start, total, k, w);
  }

  // Where they are not, there is no first chunk, or the second does not follow it.
  lemma HugeStartsWrong(start: nat, total: nat, w: nat, next: nat, first: nat)
    requires start < Pow2(w) && Sizes(31, w) && !Right(start, total, 31, w)
    requires next == SecondAddr(start, 0x8000_0000, w) < Pow2(w) && first == Least(total, Distance(next, start, w))
    ensures first < total && start + first < 2 * Pow2(w) && (first == 0 || next != Wrap(start + first, w))
  {
    CeilIs(start, 31);
    HugeHigh(start, w);
    if Down(start, 31) != start {
      HugeWrong(start, w);
    }
  }

  lemma StartsWrong(start: nat, total: nat, k: nat, w: nat, next: nat, first: nat)
    requires start < Pow2(w) && Sizes(k, w) && !Right(start, total, k, w)
    requires next == SecondAddr(start, Pow2(k), w) < Pow2(w) && first == Least(total, Distance(next, start, w))
    ensures first < total && start + first < 2 * Pow2(w) && (first == 0 || next != Wrap(start + first, w))
  {
    Powers();
    HugeStartsWrong(start, total, w, next, first);
  }

  // ---------------------------------------------------------------- the whole loop

  lemma PartitionIntact(chunks: seq<Chunk>, plain: seq<Chunk>, start: nat, end: nat, k: nat, w: nat)
    requires Partition(plain, start, end, k) && Around(chunks, plain, w) && start < end
    ensures !Broken(chunks, start, w)
  {
    if |chunks| > 1 {
      assert Touch(plain, 0) && SameAddress(chunks[0], plain[0], w) && SameAddress(chunks[1], plain[1], w);
    }
  }

  lemma CoversIntact(chunks: seq<Chunk>, start: nat, end: nat, k: nat, w: nat)
    requires start < end
    ensures Covers(chunks, start, end, k, w) ==> !Broken(chunks, start, w)
  {
    if Covers(chunks, start, end, k, w) {
      var plain :| Partition(plain, start, end, k) && Around(chunks, plain, w);
      PartitionIntact(chunks, plain, start, end, k, w);
    }
  }

  // A region that stays in the address space.
  lemma {:induction false} AroundPlain(chunks: seq<Chunk>, plain: seq<Chunk>, start: nat, end: nat, k: nat, w: nat, i: nat)
    requires Around(chunks, plain, w) && Partition(plain, start, end, k) && end <= Pow2(w) && i < |plain|
    ensures plain[i].addr < end && chunks[i] == plain[i]
    decreases |plain| - i
  {
    assert InOneBlock(plain[i], k) && SameAddress(chunks[i], plain[i], w);
    if i + 1 < |plain| {
      AroundPlain(chunks, plain, start, end, k, w, i + 1);
      assert Touch(plain, i);
    }
  }

  lemma AroundStays(chunks: seq<Chunk>, plain: seq<Chunk>, start: nat, end: nat, k: nat, w: nat)
    requires Around(chunks, plain, w) && Partition(plain, start, end, k) && end <= Pow2(w)
    ensures chunks == plain
  {
    forall i | 0 <= i < |plain|
      ensures chunks[i] == plain[i]
    {
      AroundPlain(chunks, plain, start, end, k, w, i);
    }
  }

  lemma GoesRight(start: nat, total: nat, k: nat, w: nat, next: nat, first: nat)
    requires start < Pow2(w) && Sizes(k, w) && Right(start, total, k, w)
    requires next == SecondAddr(start, Pow2(k), w) < Pow2(w) && first == Least(total, Distance(next, start, w))
    ensures Going([], [], start, first, total - first, start, start + total, k, w)
    ensures start + first < 2 * Pow2(w) && (first < total ==> first > 0 && next == Wrap(start + first, w))
  {
    if total > 0 {
      StartsRight(start, total, k, w, next, first);
      FirstFits(start, total, first, k);
    }
  }

  lemma AroundMore(chunks: seq<Chunk>, plain: seq<Chunk>, c: Chunk, p: Chunk, w: nat)
    requires Around(chunks, plain, w) && SameAddress(c, p, w)
    ensures Around(chunks + [c], plain + [p], w)
  {}

  lemma GoesOn(chunks: seq<Chunk>, plain: seq<Chunk>, addr: nat, at: nat, size: nat, left: nat, size': nat,
               start: nat, end: nat, k: nat, w: nat)
    requires Going(chunks, plain, at, size, left, start, end, k, w) && size > 0 && at + size + left == end
    requires at < 2 * Pow2(w) && addr == Wrap(at, w) && size' == Least(left, Pow2(k))
    ensures Going(chunks + [Chunk(addr, size)], plain + [Chunk(at, size)], at + size, size', left - size', start, end, k, w)
  {
    var c := Chunk(at, size);
    AroundMore(chunks, plain, Chunk(addr, size), c, w);
    Extend(plain, c, start, left, k);
    if left > 0 {
      NextFits(plain, c, left, size', k);
      assert size' > 0;
    }
  }

  lemma StepsOnTrack(c: Cursor, at: nat, end: nat, size: nat, w: nat, d: Cursor)
    requires OnTrack(c, at, end, w) && Bounded(c, size, w) && c.size > 0 && d == Stepped(c, size, w)
    ensures OnTrack(d, at + c.size, end, w) && Bounded(d, size, w)
    ensures at < end && d.size == Least(c.left, size) && d.left == c.left - d.size
  {}

  lemma StepGoes(c: Cursor, at: nat, chunks: seq<Chunk>, plain: seq<Chunk>, start: nat, end: nat, k: nat, w: nat, d: Cursor)
    requires Bounded(c, Pow2(k), w) && OnTrack(c, at, end, w) && Going(chunks, plain, at, c.size, c.left, start, end, k, w)
    requires c.size > 0 && d == Stepped(c, Pow2(k), w)
    ensures Bounded(d, Pow2(k), w) && OnTrack(d, at + c.size, end, w)
    ensures Going(chunks + [Chunk(c.addr, c.size)], plain + [Chunk(at, c.size)], at + c.size, d.size, d.left, start, end, k, w)
    ensures d.left < c.left || (d.left == c.left && d.size < c.size)
  {
    StepsOnTrack(c, at, end, Pow2(k), w, d);
    GoesOn(chunks, plain, c.addr, at, c.size, c.left, d.size, start, end, k, w);
  }

  lemma RemainingNext(c: Cursor, size: nat, w: nat, chunks: seq<Chunk>, d: Cursor)
    requires Bounded(c, size, w) && c.size > 0 && d == Stepped(c, size, w)
    ensures chunks + Remaining(c, size, w) == (chunks + [Chunk(c.addr, c.size)]) + Remaining(d, size, w)
  {}

  lemma RemainingNone(c: Cursor, size: nat, w: nat, chunks: seq<Chunk>)
    requires Bounded(c, size, w) && c.size == 0
    ensures chunks + Remaining(c, size, w) == chunks
  {}

  lemma {:induction false} RemainingCovers(c: Cursor, at: nat, chunks: seq<Chunk>, plain: seq<Chunk>,
                                           start: nat, end: nat, k: nat, w: nat)
    requires Bounded(c, Pow2(k), w) && OnTrack(c, at, end, w) && Going(chunks, plain, at, c.size, c.left, start, end, k, w)
    ensures Covers(chunks + Remaining(c, Pow2(k), w), start, end, k, w)
    decreases c.left, c.size
  {
    if c.size == 0 {
      RemainingNone(c, Pow2(k), w, chunks);
    } else {
      var d := Stepped(c, Pow2(k), w);
      StepGoes(c, at, chunks, plain, start, end, k, w, d);
      RemainingCovers(d, at + c.size, chunks + [Chunk(c.addr, c.size)], plain + [Chunk(at, c.size)], start, end, k, w);
      RemainingNext(c, Pow2(k), w, chunks, d);
    }
  }

  // Going wrong from the beginning.
  lemma RemainingBroken(c: Cursor, size: nat, w: nat)
    requires Bounded(c, size, w) && c.left > 0 && c.addr + c.size < 2 * Pow2(w)
    requires c.size == 0 || c.next != Wrap(c.addr + c.size, w)
    ensures Broken(Remaining(c, size, w), c.addr, w)
  {
    if c.size > 0 {
      var d := Stepped(c, size, w);
      var rest := Remaining(Stepped(d, size, w), size, w);
      assert Remaining(c, size, w) == [Chunk(c.addr, c.size)] + ([Chunk(d.addr, d.size)] + rest);
    }
  }

  // Going right from the beginning.
  lemma RightTrack(start: nat, total: nat, k: nat, w: nat, c: Cursor)
    requires Sizes(k, w) && start < Pow2(w) && total < UNSIGNED && Right(start, total, k, w)
    requires c == Started(start, total, Pow2(k), w) && SecondAddr(start, Pow2(k), w) < Pow2(w)
    ensures OnTrack(c, start, start + total, w) && Going([], [], start, c.size, c.left, start, start + total, k, w)
  {
    GoesRight(start, total, k, w, c.next, c.size);
  }

  lemma TrackCovers(c: Cursor, start: nat, end: nat, k: nat, w: nat)
    requires Bounded(c, Pow2(k), w) && OnTrack(c, start, end, w) && Going([], [], start, c.size, c.left, start, end, k, w)
    ensures Covers(Remaining(c, Pow2(k), w), start, end, k, w)
  {
    RemainingCovers(c, start, [], [], start, end, k, w);
    assert [] + Remaining(c, Pow2(k), w) == Remaining(c, Pow2(k), w);
  }

  /** All chunks of a region make it up exactly, for every power of two up to 2^30, also where the
      region goes round the end of the address space; and for 2^31 if and only if the start is
      right. */
  lemma ChunksCover(start: nat, total: nat, k: nat, w: nat)
    requires Sizes(k, w) && start < Pow2(w) && total < UNSIGNED
    ensures Bounded(Started(start, total, Pow2(k), w), Pow2(k), w)
    ensures Covers(Remaining(Started(start, total, Pow2(k), w), Pow2(k), w), start, start + total, k, w)
            <==> Right(start, total, k, w)
  {
    var c := Started(start, total, Pow2(k), w);
    SecondInSpace(start, Pow2(k), w);
    if Right(start, total, k, w) {
      RightTrack(start, total, k, w, c);
      TrackCovers(c, start, start + total, k, w);
    } else {
      StartsWrong(start, total, k, w, c.next, c.size);
      RemainingBroken(c, Pow2(k), w);
      CoversIntact(Remaining(c, Pow2(k), w), start, start + total, k, w);
    }
  }

  /** In a region that stays in the address space the addresses are the plain ones. */
  lemma CoversPlain(chunks: seq<Chunk>, start: nat, end: nat, k: nat, w: nat)
    requires Covers(chunks, start, end, k, w) && end <= Pow2(w)
    ensures Partition(chunks, start, end, k)
  {
    var plain :| Partition(plain, start, end, k) && Around(chunks, plain, w);
    AroundStays(chunks, plain, start, end, k, w);
  }

  lemma CeilAt32()
    ensures Ceil(UNSIGNED, 31) == UNSIGNED
  {
    Powers();
    DownShift(0, 31, 32);
    DownSmall(0, 31);
    CeilIs(UNSIGNED, 31);
  }

  lemma Sizes31()
    ensures Sizes(31, 64)
  {
    Powers();
    Pow2Mono(33, 64);
  }

  /** A chunk size of 2^31 delivers nothing of a region at 2^32. */
  lemma HugeLost()
    ensures Sizes(31, 64) && Bounded(Started(UNSIGNED, 1, 0x8000_0000, 64), 0x8000_0000, 64)
    ensures Remaining(Started(UNSIGNED, 1, 0x8000_0000, 64), 0x8000_0000, 64) == []
  {
    Sizes31();
    SecondInSpace(UNSIGNED, 0x8000_0000, 64);
    HugeHigh(UNSIGNED, 64);
    CeilAt32();
  }
}
