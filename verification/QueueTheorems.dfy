/**
 What queueing, dequeueing and resizing do to the bytes in the queues.
 */
module QueueTheorems {
  import opened AnnotateLog
  import opened AnnotateQueue
  import opened ByteQueue

  // ---------------------------------------------------------------- one queue

  // Contents depend on the counts of the entries only.
  lemma RunsFrame(items: seq<nat>, records: seq<Rec>, after: seq<Rec>)
    requires forall i :: 0 <= i < |items| ==> Count(after, items[i]) == Count(records, items[i])
    ensures Runs(items, after) == Runs(items, records)
  {}

  lemma EntriesPart(items: seq<nat>, lo: nat, hi: nat, q: int, records: seq<Rec>)
    requires Entries(items, q, records) && lo <= hi <= |items|
    ensures Entries(items[lo..hi], q, records)
    ensures Runs(items[lo..hi], records) == Runs(items, records)[lo..hi]
  {}

  // Shortening one entry changes no other.
  lemma ShortenedEntry(items: seq<nat>, i: nat, q: int, records: seq<Rec>, n: int)
    requires Entries(items, q, records) && i < |items| && 0 < n < records[items[i]].data
    ensures var after := Shortened(records, items[i], n);
      && Entries(items, q, after) && Touched(records, after, items)
      && Runs(items, after) == Runs(items, records)[i := Shorter(Runs(items, records)[i], n)]
  {}

  lemma TouchedMore(before: seq<Rec>, after: seq<Rec>, part: seq<nat>, whole: seq<nat>)
    requires Touched(before, after, part) && forall k :: k in part ==> k in whole
    ensures Touched(before, after, whole)
  {}

  // What is left of the entries between lo and hi.
  lemma CutLeaves(items: seq<nat>, lo: nat, hi: nat, i: int, n: int, q: int, records: seq<Rec>, part: seq<nat>,
                  after: seq<Rec>, runs: seq<Run>)
    requires Entries(items, q, records) && lo <= hi <= |items| && 0 <= n
    requires n > 0 ==> lo <= i < hi && n < records[items[i]].data
    requires part == items[lo..hi] && after == Cropped(records, items, i, n) && runs == Runs(items, records)[lo..hi]
    ensures Touched(records, after, items) && Entries(part, q, after)
    ensures Runs(part, after) == if n > 0 then runs[i - lo := Shorter(runs[i - lo], n)] else runs
  {
    EntriesPart(items, lo, hi, q, records);
    if n > 0 {
      ShortenedEntry(part, i - lo, q, records, n);
      TouchedMore(records, after, part, items);
    }
  }

  lemma EntriesNotNegative(items: seq<nat>, q: int, records: seq<Rec>)
    requires Entries(items, q, records)
    ensures NotNegative(Runs(items, records)) && Within(items, records)
  {}

  /** Dequeueing drops exactly the first bytes. */
  lemma DequeueMeaning(items: seq<nat>, q: int, records: seq<Rec>, need: int)
    requires Entries(items, q, records) && 0 <= need <= |Content(items, records)|
    ensures var c := FrontCut(Runs(items, records), 0, need);
      var after := Cropped(records, items, c.at, c.part);
      && Touched(records, after, items) && Entries(items[c.at..], q, after)
      && Content(items[c.at..], after) == Content(items, records)[need..]
  {
    var runs := Runs(items, records);
    var c := FrontCut(runs, 0, need);
    EntriesNotNegative(items, q, records);
    FrontCutFlat(runs, need);
    FrontLeaves(items, q, records, c, Cropped(records, items, c.at, c.part));
  }

  lemma FrontLeaves(items: seq<nat>, q: int, records: seq<Rec>, c: Cut, after: seq<Rec>)
    requires Entries(items, q, records) && c.at <= |items| && 0 <= c.part && after == Cropped(records, items, c.at, c.part)
    requires c.part > 0 ==> c.at < |items| && c.part < records[items[c.at]].data
    ensures Touched(records, after, items) && Entries(items[c.at..], q, after)
    ensures Runs(items[c.at..], after) == AfterFront(Runs(items, records), c)
  {
    var part, runs := items[c.at..], Runs(items, records);
    assert part == items[c.at..|items|];
    CutLeaves(items, c.at, |items|, c.at, c.part, q, records, part, after, runs[c.at..|items|]);
    FrontSame(runs, c);
  }

  lemma FrontSame(runs: seq<Run>, c: Cut)
    requires c.at <= |runs| && (c.part > 0 ==> c.at < |runs|)
    ensures var s := runs[c.at..|runs|]; AfterFront(runs, c) == if c.part > 0 then s[0 := Shorter(s[0], c.part)] else s
  {}

  /** Resizing drops exactly the last bytes. */
  lemma ResizeMeaning(items: seq<nat>, q: int, records: seq<Rec>, need: int)
    requires Entries(items, q, records) && 0 <= need <= |Content(items, records)|
    ensures var c := BackCut(Runs(items, records), |items|, need);
      var after := Cropped(records, items, c.at - 1, c.part);
      && Touched(records, after, items) && Entries(items[..c.at], q, after)
      && Content(items[..c.at], after) == Content(items, records)[..|Content(items, records)| - need]
  {
    var runs := Runs(items, records);
    var c := BackCut(runs, |items|, need);
    EntriesNotNegative(items, q, records);
    BackCutFlat(runs, need);
    BackLeaves(items, q, records, c, Cropped(records, items, c.at - 1, c.part));
  }

  lemma BackLeaves(items: seq<nat>, q: int, records: seq<Rec>, c: Cut, after: seq<Rec>)
    requires Entries(items, q, records) && c.at <= |items| && 0 <= c.part
    requires after == Cropped(records, items, c.at - 1, c.part)
    requires c.part > 0 ==> 0 < c.at && c.part < records[items[c.at - 1]].data
    ensures Touched(records, after, items) && Entries(items[..c.at], q, after)
    ensures Runs(items[..c.at], after) == BeforeBack(Runs(items, records), c)
  {
    var part, runs := items[..c.at], Runs(items, records);
    assert part == items[0..c.at];
    CutLeaves(items, 0, c.at, c.at - 1, c.part, q, records, part, after, runs[0..c.at]);
    BackSame(runs, c);
  }

  lemma BackSame(runs: seq<Run>, c: Cut)
    requires c.at <= |runs| && (c.part > 0 ==> 0 < c.at)
    ensures var s := runs[0..c.at];
      BeforeBack(runs, c) == if c.part > 0 then s[c.at - 1 := Shorter(s[c.at - 1], c.part)] else s
  {}

  // ---------------------------------------------------------------- all queues

  // Changes to the entries of one queue leave another alone: their records differ.
  lemma OtherQueue(items: seq<nat>, size: int, bytes: int, q: int, mine: seq<nat>, p: int,
                   records: seq<Rec>, after: seq<Rec>)
    requires Counted(items, size, bytes, q, records) && Entries(mine, p, records) && p != q
    requires Touched(records, after, mine)
    ensures Counted(items, size, bytes, q, after) && Content(items, after) == Content(items, records)
  {
    forall i | 0 <= i < |items|
      ensures after[items[i]] == records[items[i]]
    {
      assert items[i] !in mine;
    }
    RunsFrame(items, records, after);
  }

  // New records leave every queue alone.
  lemma GrownRecords(items: seq<nat>, size: int, bytes: int, q: int, records: seq<Rec>, r: Rec)
    requires Counted(items, size, bytes, q, records)
    ensures Counted(items, size, bytes, q, records + [r])
    ensures Content(items, records + [r]) == Content(items, records)
  {
    RunsFrame(items, records, records + [r]);
  }

  lemma GrowKeeps(qs: Queues, records: seq<Rec>, r: Rec, after: seq<Rec>)
    requires Consistent(qs, records) && after == records + [r]
    ensures Consistent(qs, after) && SameBytes(qs, records, after)
  {
    forall q
      ensures CountedAt(qs, q, after) && Bytes(qs, q, after) == Bytes(qs, q, records)
    {
      assert CountedAt(qs, q, records);
      if 1 <= q <= |qs.data| {
        GrownRecords(qs.data[q - 1], qs.size[q - 1], qs.bytes[q - 1], q, records, r);
      }
    }
  }

  /** Replacing one queue, with changes to its own entries only, keeps all queues consistent and
      the bytes of the others. */
  lemma ReplaceKeeps(qs: Queues, q: int, items: seq<nat>, size: int, bytes: int, records: seq<Rec>, after: seq<Rec>)
    requires Consistent(qs, records) && 1 <= q <= |qs.data|
    requires Touched(records, after, qs.data[q - 1]) && Counted(items, size, bytes, q, after)
    ensures Consistent(With(qs, q, items, size, bytes), after)
    ensures SameOthers(qs, records, With(qs, q, items, size, bytes), after, q)
    ensures Bytes(With(qs, q, items, size, bytes), q, after) == Content(items, after)
  {
    var w := With(qs, q, items, size, bytes);
    assert CountedAt(qs, q, records);
    forall p
      ensures CountedAt(w, p, after)
      ensures p != q ==> Bytes(w, p, after) == Bytes(qs, p, records)
    {
      assert CountedAt(qs, p, records);
      if 1 <= p <= |qs.data| && p != q {
        OtherQueue(qs.data[p - 1], qs.size[p - 1], qs.bytes[p - 1], p, qs.data[q - 1], q, records, after);
      }
    }
  }

  /** A new queue is empty. */
  lemma OneMoreKeeps(qs: Queues, records: seq<Rec>)
    requires Consistent(qs, records)
    ensures Consistent(OneMore(qs), records)
    ensures forall p :: Bytes(OneMore(qs), p, records) == Bytes(qs, p, records)
  {
    var more := OneMore(qs);
    forall q
      ensures CountedAt(more, q, records) && Bytes(more, q, records) == Bytes(qs, q, records)
    {
      assert CountedAt(qs, q, records);
      if q == |more.data| {
        EmptyCounted(q, records);
      }
    }
  }

  // An empty queue.
  lemma EmptyCounted(q: int, records: seq<Rec>)
    ensures Counted([], 0, 0, q, records)
  {}

  lemma EnterEntries(items: seq<nat>, q: int, records: seq<Rec>, r: Rec)
    requires Entries(items, q, records) && r.op == OpQueue && r.stq == q && r.data >= 0
    ensures Entries(items + [|records|], q, records + [r]) && Entries([|records|] + items, q, records + [r])
  {}

  lemma EnterRuns(items: seq<nat>, records: seq<Rec>, r: Rec)
    requires forall i :: 0 <= i < |items| ==> items[i] < |records|
    ensures var k, after := |records|, records + [r];
      && Runs(items + [k], after) == Runs(items, records) + [Run(k, r.data)]
      && Runs([k] + items, after) == [Run(k, r.data)] + Runs(items, records)
  {}

  /** A new entry adds its bytes behind the others, or in front of them. */
  lemma EnqueueMeaning(items: seq<nat>, size: int, bytes: int, q: int, records: seq<Rec>, r: Rec, front: bool,
                       more: seq<nat>, after: seq<Rec>)
    requires Counted(items, size, bytes, q, records) && r.op == OpQueue && r.stq == q && r.data >= 0
    requires more == Extended(items, |records|, front) && after == records + [r]
    ensures Counted(more, size + 1, bytes + r.data, q, after)
    ensures Gains(items, records, more, after, Run(|records|, r.data), front)
  {
    EnterEntries(items, q, records, r);
    EnterRuns(items, records, r);
    FlatFirst(Run(|records|, r.data), Runs(items, records));
    FlatLast(Runs(items, records), Run(|records|, r.data));
  }

  lemma TouchedSelf(records: seq<Rec>, items: seq<nat>)
    ensures Touched(records, records, items)
  {}

  lemma SameOthersAfter(qs: Queues, records: seq<Rec>, after: seq<Rec>, qs': Queues, q: int)
    requires SameBytes(qs, records, after) && SameOthers(qs, after, qs', after, q)
    ensures SameOthers(qs, records, qs', after, q)
  {
    forall p | p != q
      ensures Bytes(qs', p, after) == Bytes(qs, p, records)
    {
      assert Bytes(qs, p, after) == Bytes(qs, p, records);
    }
  }

  // The queue the entry goes to, once the record exists.
  lemma EnqueueInto(qs: Queues, q: int, records: seq<Rec>, after: seq<Rec>, items: seq<nat>, size: int, bytes: int,
                    qs': Queues)
    requires Consistent(qs, after) && SameBytes(qs, records, after) && 1 <= q <= |qs.data|
    requires Counted(items, size, bytes, q, after) && qs' == With(qs, q, items, size, bytes)
    ensures Consistent(qs', after) && SameOthers(qs, records, qs', after, q)
    ensures Bytes(qs', q, after) == Content(items, after)
  {
    TouchedSelf(after, qs.data[q - 1]);
    ReplaceKeeps(qs, q, items, size, bytes, after, after);
    SameOthersAfter(qs, records, after, qs', q);
  }

  lemma BytesOf(qs: Queues, q: int, records: seq<Rec>)
    requires Consistent(qs, records) && 1 <= q <= |qs.data|
    ensures Counted(qs.data[q - 1], qs.size[q - 1], qs.bytes[q - 1], q, records)
    ensures Bytes(qs, q, records) == Content(qs.data[q - 1], records)
  {
    assert CountedAt(qs, q, records);
  }

  // The record exists and the entry is counted: the queue it goes to has its bytes.
  lemma EnqueueOne(qs: Queues, q: int, records: seq<Rec>, after: seq<Rec>, more: seq<nat>, size: int, bytes: int,
                   qs': Queues, r: Run, front: bool)
    requires Consistent(qs, after) && SameBytes(qs, records, after) && 1 <= q <= |qs.data|
    requires Counted(more, size, bytes, q, after) && Gains(qs.data[q - 1], records, more, after, r, front)
    requires qs' == With(qs, q, more, size, bytes)
    ensures Consistent(qs', after) && Enqueued(qs, records, qs', after, q, r, front)
  {
    EnqueueInto(qs, q, records, after, more, size, bytes, qs');
  }

  lemma EnteredIs(qs: Queues, q: int, k: nat, count: int, front: bool, qs': Queues)
      returns (more: seq<nat>, size: int, bytes: int)
    requires Parallel(qs) && 1 <= q <= |qs.data| && qs' == Entered(qs, q, k, count, front)
    ensures more == Extended(qs.data[q - 1], k, front) && size == qs.size[q - 1] + 1 && bytes == qs.bytes[q - 1] + count
    ensures qs' == With(qs, q, more, size, bytes)
  {
    more, size, bytes := Extended(qs.data[q - 1], k, front), qs.size[q - 1] + 1, qs.bytes[q - 1] + count;
  }

  /** Queueing keeps all queues consistent, and adds to one of them. */
  lemma EnqueueKeeps(qs: Queues, q: int, records: seq<Rec>, r: Rec, front: bool, after: seq<Rec>, qs': Queues)
    requires Consistent(qs, records) && 1 <= q <= |qs.data| && r.op == OpQueue && r.stq == q && r.data >= 0
    requires after == records + [r] && qs' == Entered(qs, q, |records|, r.data, front)
    ensures Consistent(qs', after) && Enqueued(qs, records, qs', after, q, Run(|records|, r.data), front)
  {
    var more, size, bytes := EnteredIs(qs, q, |records|, r.data, front, qs');
    BytesOf(qs, q, records);
    EnqueueMeaning(qs.data[q - 1], qs.size[q - 1], qs.bytes[q - 1], q, records, r, front, more, after);
    GrowKeeps(qs, records, r, after);
    EnqueueOne(qs, q, records, after, more, size, bytes, qs', Run(|records|, r.data), front);
  }

  // ---------------------------------------------------------------- taking bytes away

  /** Take bytes away in front, entry by entry; there is always an entry to take from. */
  method RemoveFront(was: seq<nat>, shared: seq<Rec>, count: int)
    returns (items: seq<nat>, size: int, records: seq<Rec>)
    requires Within(was, shared) && NotNegative(Runs(was, shared)) && 0 < count <= |Content(was, shared)|
    ensures var c := FrontCut(Runs(was, shared), 0, count);
      items == was[c.at..] && size == |items| && records == Cropped(shared, was, c.at, c.part)
  {
    ghost var runs := Runs(was, shared);
    ghost var all := FrontCut(runs, 0, count);
    var need := count;
    items, size, records := was, |was|, shared;
    ghost var j := 0;
    assert was[0..] == was && runs[0..] == runs;
    while need > 0
      invariant 0 <= j <= |was| && 0 <= need && items == was[j..] && size == |items|
      invariant need > 0 ==> records == shared && FrontCut(runs, j, need) == all && need <= |Flat(runs[j..])|
      invariant need == 0 ==> j == all.at && records == Cropped(shared, was, all.at, all.part)
      decreases need, size
    {
      FrontEnough(runs, j, need);
      assert size > 0;
      var head := records[items[0]].data;
      if head > need {
        records := Shortened(records, items[0], need);
        need := 0;
      } else {
        items := items[1..];
        size := size - 1;
        need := need - head;
        j := j + 1;
      }
    }
  }

  lemma ShrinkStart(was: seq<nat>, shared: seq<Rec>, count: int)
    requires 0 < count <= |Content(was, shared)|
    ensures Shrinking(was, shared, count, |was|, shared, count)
  {
    assert Runs(was, shared)[..|was|] == Runs(was, shared);
  }

  lemma ShrinkPossible(was: seq<nat>, shared: seq<Rec>, count: int, size: int, records: seq<Rec>, need: int)
    requires Within(was, shared) && NotNegative(Runs(was, shared))
    requires need > 0 && Shrinking(was, shared, count, size, records, need)
    ensures 0 < size <= |was| && was[size - 1] < |records| && records[was[size - 1]].data >= 0
  {
    BackEnough(Runs(was, shared), size, need);
    assert Runs(was, shared)[size - 1].n >= 0;
  }

  lemma ShrinkPart(was: seq<nat>, shared: seq<Rec>, count: int, size: int, need: int, last: nat)
    requires need > 0 && Shrinking(was, shared, count, size, shared, need)
    requires 0 < size <= |was| && last == was[size - 1] && last < |shared| && shared[last].data > need
    ensures Shrinking(was, shared, count, size, Shortened(shared, last, need), 0)
  {
    assert Runs(was, shared)[size - 1].n == shared[last].data;
    assert BackCut(Runs(was, shared), size, need) == Cut(size, need);
  }

  lemma ShrinkEntry(was: seq<nat>, shared: seq<Rec>, count: int, size: int, need: int, last: nat)
    requires need > 0 && Shrinking(was, shared, count, size, shared, need)
    requires 0 < size <= |was| && last == was[size - 1] && last < |shared| && 0 <= shared[last].data <= need
    ensures Shrinking(was, shared, count, size - 1, shared, need - shared[last].data)
  {
    var runs := Runs(was, shared);
    assert runs[size - 1].n == shared[last].data;
    BackEnough(runs, size, need);
    assert BackCut(runs, size, need) == BackCut(runs, size - 1, need - shared[last].data);
  }

  lemma ShrinkStep(was: seq<nat>, shared: seq<Rec>, count: int, size: int, records: seq<Rec>, need: int, last: nat)
    requires need > 0 && Shrinking(was, shared, count, size, records, need)
    requires 0 < size <= |was| && last == was[size - 1] && last < |records| && records[last].data >= 0
    ensures records[last].data > need ==> Shrinking(was, shared, count, size, Shortened(records, last, need), 0)
    ensures records[last].data <= need ==> Shrinking(was, shared, count, size - 1, records, need - records[last].data)
  {
    assert records == shared;
    if records[last].data > need {
      ShrinkPart(was, shared, count, size, need, last);
    } else {
      ShrinkEntry(was, shared, count, size, need, last);
    }
  }

  lemma ShrinkDone(was: seq<nat>, shared: seq<Rec>, count: int, size: int, records: seq<Rec>, need: int)
    requires need <= 0 && Shrinking(was, shared, count, size, records, need)
    ensures var c := BackCut(Runs(was, shared), |was|, count);
      size == c.at && records == Cropped(shared, was, c.at - 1, c.part)
  {}

  lemma PopBack(was: seq<nat>, size: nat)
    requires 0 < size <= |was|
    ensures was[..size][..size - 1] == was[..size - 1] && was[..size][size - 1] == was[size - 1]
  {}

  /** Take bytes away at the back, entry by entry. */
  method RemoveBack(was: seq<nat>, shared: seq<Rec>, count: int)
    returns (items: seq<nat>, size: int, records: seq<Rec>)
    requires Within(was, shared) && NotNegative(Runs(was, shared)) && 0 < count <= |Content(was, shared)|
    ensures var c := BackCut(Runs(was, shared), |was|, count);
      items == was[..c.at] && size == |items| && records == Cropped(shared, was, c.at - 1, c.part)
  {
    var need := count;
    items, size, records := was, |was|, shared;
    ShrinkStart(was, shared, count);
    while need > 0
      invariant size == |items| <= |was| && items == was[..size]
      invariant Shrinking(was, shared, count, size, records, need)
      decreases need, size
    {
      ShrinkPossible(was, shared, count, size, records, need);
      PopBack(was, size);
      assert size > 0;
      var last := items[size - 1];
      var tail := records[last].data;
      ShrinkStep(was, shared, count, size, records, need, last);
      if tail > need {
        records, need := Shortened(records, last, need), 0;
      } else {
        size, need := size - 1, need - tail;
        items := items[..size];
      }
    }
    ShrinkDone(was, shared, count, size, records, need);
  }
}
