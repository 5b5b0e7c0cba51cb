/** Aligned chunks of a memory region: where they end, and what a whole run of them must be. */
module ChunkSpec {
  import opened Bits
  import opened IntMath

  const UNSIGNED: nat := 0x1_0000_0000

  datatype Chunk = Chunk(addr: nat, size: nat)

  // Subtraction of w-bit addresses, kept to 32 bits on assignment to an unsigned.
  function Distance(to: nat, from: nat, w: nat): nat
    requires to < Pow2(w) && from < Pow2(w)
  {
    (if to >= from then to - from else to - from + Pow2(w)) % UNSIGNED
  }

  function Least(a: nat, b: nat): nat {
    if a <= b then a else b
  }

  // Where the aligned block that contains addr ends.
  function Boundary(addr: nat, k: nat): nat {
    Down(addr, k) + Pow2(k)
  }

  // Addresses are wider than unsigned ints, and the chunk size is an unsigned int.
  ghost predicate Sizes(k: nat, w: nat) {
    k <= 31 && k <= w && 32 < w && Pow2(k) <= 0x8000_0000 && UNSIGNED < Pow2(w)
  }

  // The address of the second chunk, as the constructor computes it: the size is passed as an int.
  function SecondAddr(start: nat, size: nat, w: nat): (a: nat)
    requires start < Pow2(w) && 0 < size <= 0x8000_0000 && UNSIGNED < Pow2(w)
  {
    var r := RoundUp(start, AsInt(size), w);
    if r == start then Wrap(start + size, w) else r
  }

  lemma MaskedInSpace(val: nat, mask: nat, w: nat)
    requires val < Pow2(w) && mask < Pow2(w)
    ensures Masked(val, mask, w) < Pow2(w)
  {
    AndAtMost(Wrap(val + mask, w), Not(mask, w));
  }

  lemma SecondInSpace(start: nat, size: nat, w: nat)
    requires start < Pow2(w) && 0 < size <= 0x8000_0000 && UNSIGNED < Pow2(w)
    ensures SecondAddr(start, size, w) < Pow2(w)
  {
    var align := AsInt(size);
    MaskedInSpace(start, if align >= 1 then align - 1 else align - 1 + Pow2(w), w);
  }

  // ---------------------------------------------------------------- the generator

  // The current chunk, where the next one begins, and how much is left after the current one.
  datatype Cursor = Cursor(addr: nat, next: nat, size: nat, left: nat)

  // Chunks of the given size, or a single one for zero.
  function Started(start: nat, total: nat, size: nat, w: nat): Cursor
    requires start < Pow2(w) && total < UNSIGNED < Pow2(w) && size <= 0x8000_0000
  {
    if size == 0 then Cursor(start, Wrap(start + total, w), total, 0)
    else
      SecondInSpace(start, size, w);
      var next := SecondAddr(start, size, w);
      var first := Least(total, Distance(next, start, w));
      Cursor(start, next, first, total - first)
  }

  predicate Bounded(c: Cursor, size: nat, w: nat) {
    c.next < Pow2(w) && size < Pow2(w) && (size == 0 ==> c.left == 0)
  }

  function Stepped(c: Cursor, size: nat, w: nat): Cursor
    requires Bounded(c, size, w)
  {
    if c.left == 0 then c.(size := 0)
    else
      var s := Least(c.left, size);
      Cursor(c.next, Wrap(c.next + s, w), s, c.left - s)
  }

  // All chunks from here on.
  function Remaining(c: Cursor, size: nat, w: nat): seq<Chunk>
    requires Bounded(c, size, w)
    decreases c.left, c.size
  {
    if c.size == 0 then [] else [Chunk(c.addr, c.size)] + Remaining(Stepped(c, size, w), size, w)
  }

  // What a chunk size of 2^31, which becomes negative as an int, still gets right.
  predicate Right(start: nat, total: nat, k: nat, w: nat) {
    || k < 31 || start <= 0x8000_0000 || total == 0
    || (Down(start, k) != start && (total <= Boundary(start, k) - start || Boundary(start, k) == Pow2(w)))
  }

  // ---------------------------------------------------------------- what a run delivers

  // The chunks run from start to end without gap, each inside one aligned block; all but the
  // first begin on a boundary, and all but the first and the last fill their block.
  ghost predicate Partition(chunks: seq<Chunk>, start: nat, end: nat, k: nat) {
    && (chunks == [] ==> start == end)
    && (chunks != [] ==> chunks[0].addr == start && Last(chunks).addr + Last(chunks).size == end)
    && (forall i :: 0 <= i < |chunks| - 1 ==> Touch(chunks, i))
    && (forall i :: 0 <= i < |chunks| ==> InOneBlock(chunks[i], k))
    && (forall i :: 0 < i < |chunks| ==> Down(chunks[i].addr, k) == chunks[i].addr)
    && (forall i :: 0 < i < |chunks| - 1 ==> chunks[i].size == Pow2(k))
  }

  function Last(chunks: seq<Chunk>): Chunk
    requires chunks != []
  {
    chunks[|chunks| - 1]
  }

  predicate Touch(chunks: seq<Chunk>, i: nat)
    requires i + 1 < |chunks|
  {
    chunks[i + 1].addr == chunks[i].addr + chunks[i].size
  }

  predicate InOneBlock(c: Chunk, k: nat) {
    c.size > 0 && Down(c.addr, k) == Down(c.addr + c.size - 1, k)
  }

  // The same address, where the address space begins again at 0 after its end.
  predicate SameAddress(c: Chunk, p: Chunk, w: nat) {
    p.addr < 2 * Pow2(w) && c == Chunk(Wrap(p.addr, w), p.size)
  }

  predicate Around(chunks: seq<Chunk>, plain: seq<Chunk>, w: nat) {
    |chunks| == |plain| && forall i :: 0 <= i < |chunks| ==> SameAddress(chunks[i], plain[i], w)
  }

  /** The chunks are a partition of the region, which may go on at 0 after the end of the address
      space. */
  ghost predicate Covers(chunks: seq<Chunk>, start: nat, end: nat, k: nat, w: nat) {
    exists plain :: Partition(plain, start, end, k) && Around(chunks, plain, w)
  }

  // A chunk of the given size at addr may follow the chunks so far, with left bytes after it.
  ghost predicate Fits(chunks: seq<Chunk>, addr: nat, size: nat, left: nat, k: nat) {
    && 0 < size && addr + size <= Boundary(addr, k)
    && (left > 0 ==> addr + size == Boundary(addr, k))
    && (chunks != [] ==> Down(addr, k) == addr)
    && (|chunks| > 1 ==> Last(chunks).size == Pow2(k))
  }

  // The current chunk and the next are where they should be.
  ghost predicate OnTrack(c: Cursor, at: nat, end: nat, w: nat) {
    && at <= end < 2 * Pow2(w)
    && (c.size > 0 ==> c.addr == Wrap(at, w) && at + c.size + c.left == end)
    && (c.size == 0 ==> c.left == 0)
    && (c.left > 0 ==> c.next == Wrap(at + c.size, w))
  }

  // The loop is at a chunk of the given size and has left bytes after it, or is done: the chunks so
  // far are right.
  ghost predicate Going(chunks: seq<Chunk>, plain: seq<Chunk>, at: nat, size: nat, left: nat,
                        start: nat, end: nat, k: nat, w: nat)
  {
    && Around(chunks, plain, w)
    && (size == 0 ==> Partition(plain, start, end, k))
    && (size > 0 ==> Partition(plain, start, at, k) && Fits(plain, at, size, left, k))
  }

  // The first two chunks do not touch, or there are none.
  ghost predicate Broken(chunks: seq<Chunk>, start: nat, w: nat) {
    || chunks == []
    || (|chunks| > 1 && start + chunks[0].size < 2 * Pow2(w) && chunks[1].addr != Wrap(start + chunks[0].size, w))
  }
}
