/**
 The annotator's queues: each is a list of records with byte counts, kept together with the number
 of entries and the number of bytes.  The records are shared with the log.
 */
module AnnotateQueue {
  import opened AnnotateLog
  import opened ByteQueue

  // The bytes that remain of a record.
  function Count(records: seq<Rec>, k: nat): int {
    if k < |records| then records[k].data else 0
  }

  // The entries with the counts that remain in their records.
  function Runs(items: seq<nat>, records: seq<Rec>): (r: seq<Run>)
    ensures |r| == |items|
  {
    seq(|items|, i requires 0 <= i < |items| => Run(items[i], Count(records, items[i])))
  }

  // The bytes in a queue.
  function Content(items: seq<nat>, records: seq<Rec>): seq<nat> {
    Flat(Runs(items, records))
  }

  predicate Distinct(items: seq<nat>) {
    forall i, j :: 0 <= i < j < |items| ==> items[i] != items[j]
  }

  predicate Within(items: seq<nat>, records: seq<Rec>) {
    forall i :: 0 <= i < |items| ==> items[i] < |records|
  }

  // The entries of queue q are distinct queue records for q with counts that are not negative.
  predicate Entries(items: seq<nat>, q: int, records: seq<Rec>) {
    && Distinct(items)
    && (forall i :: 0 <= i < |items| ==>
          && items[i] < |records| && records[items[i]].op == OpQueue
          && records[items[i]].stq == q && records[items[i]].data >= 0)
  }

  // Everything about a record but its remaining count.
  predicate SameButData(a: Rec, b: Rec) {
    a == b.(data := a.data)
  }

  // Only records from the given list may have changed, and only in their remaining count.
  ghost predicate Touched(before: seq<Rec>, after: seq<Rec>, items: seq<nat>) {
    && |after| == |before|
    && (forall k :: 0 <= k < |before| ==> SameButData(after[k], before[k]))
    && (forall k :: 0 <= k < |before| && after[k] != before[k] ==> k in items)
  }

  // The records when n bytes have been taken away from one.
  function Shortened(records: seq<Rec>, k: nat, n: int): seq<Rec> {
    if k < |records| then records[k := records[k].(data := records[k].data - n)] else records
  }

  // The records when n bytes of entry i have been taken away.
  function Cropped(records: seq<Rec>, items: seq<nat>, i: int, n: int): seq<Rec> {
    if n > 0 && 0 <= i < |items| then Shortened(records, items[i], n) else records
  }

  datatype Queues = Queues(size: seq<int>, bytes: seq<int>, data: seq<seq<nat>>)

  const NoQueues := Queues([], [], [])

  // One queue and its counters.
  ghost predicate Counted(items: seq<nat>, size: int, bytes: int, q: int, records: seq<Rec>) {
    Entries(items, q, records) && size == |items| && bytes == |Content(items, records)|
  }

  predicate Parallel(qs: Queues) {
    |qs.size| == |qs.data| && |qs.bytes| == |qs.data|
  }

  ghost predicate CountedAt(qs: Queues, q: int, records: seq<Rec>) {
    Parallel(qs) && 1 <= q <= |qs.data| ==> Counted(qs.data[q - 1], qs.size[q - 1], qs.bytes[q - 1], q, records)
  }

  /** Every queue's counters agree with its contents. */
  ghost predicate Consistent(qs: Queues, records: seq<Rec>) {
    Parallel(qs) && forall q :: CountedAt(qs, q, records)
  }

  // The bytes of queue q.
  function Bytes(qs: Queues, q: int, records: seq<Rec>): seq<nat> {
    if 1 <= q <= |qs.data| then Content(qs.data[q - 1], records) else []
  }

  ghost predicate SameBytes(qs: Queues, records: seq<Rec>, after: seq<Rec>) {
    forall p :: Bytes(qs, p, after) == Bytes(qs, p, records)
  }

  // All queues but q have the bytes they had.
  ghost predicate SameOthers(qs: Queues, records: seq<Rec>, qs': Queues, records': seq<Rec>, q: int) {
    |qs'.data| == |qs.data| && forall p :: p != q ==> Bytes(qs', p, records') == Bytes(qs, p, records)
  }

  // Put one queue in place.
  function With(qs: Queues, q: int, items: seq<nat>, size: int, bytes: int): Queues
    requires Parallel(qs) && 1 <= q <= |qs.data|
  {
    Queues(qs.size[q - 1 := size], qs.bytes[q - 1 := bytes], qs.data[q - 1 := items])
  }

  // All queues, and a new one.
  function OneMore(qs: Queues): Queues {
    Queues(qs.size + [0], qs.bytes + [0], qs.data + [[]])
  }

  function Extended(items: seq<nat>, k: nat, front: bool): seq<nat> {
    if front then [k] + items else items + [k]
  }

  function Joined(was: seq<nat>, r: Run, front: bool): seq<nat> {
    if front then Tagged(r) + was else was + Tagged(r)
  }

  // Queue q with a new entry.
  function Entered(qs: Queues, q: int, k: nat, count: int, front: bool): Queues
    requires Parallel(qs) && 1 <= q <= |qs.data|
  {
    With(qs, q, Extended(qs.data[q - 1], k, front), qs.size[q - 1] + 1, qs.bytes[q - 1] + count)
  }

  // The bytes of more are those of items, with the run r at one end.
  ghost predicate Gains(items: seq<nat>, records: seq<Rec>, more: seq<nat>, after: seq<Rec>, r: Run, front: bool) {
    Content(more, after) == Joined(Content(items, records), r, front)
  }

  // Queue r, and nothing else, has been added to queue q.
  ghost predicate Enqueued(qs: Queues, records: seq<Rec>, qs': Queues, after: seq<Rec>, q: int, r: Run, front: bool) {
    SameOthers(qs, records, qs', after, q) && Bytes(qs', q, after) == Joined(Bytes(qs, q, records), r, front)
  }

  // Taking bytes away at the back, with need bytes still to take.
  ghost predicate Shrinking(was: seq<nat>, shared: seq<Rec>, count: int, size: int, records: seq<Rec>, need: int)
  {
    var runs := Runs(was, shared);
    var all := BackCut(runs, |was|, count);
    && 0 <= need && 0 <= size <= |was|
    && (need > 0 ==> records == shared && BackCut(runs, size, need) == all && need <= |Flat(runs[..size])|)
    && (need == 0 ==> size == all.at && records == Cropped(shared, was, all.at - 1, all.part))
  }
}
