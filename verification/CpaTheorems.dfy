/**
 Why each kind of change to the log and the queues keeps them sound together, and what it does to
 the plain lines and queues they stand for.
 */
module CpaTheorems {
  import opened AnnotateLog
  import opened AnnotateNames
  import opened AnnotateQueue
  import opened ByteQueue
  import opened CpaSpec
  import opened QueueTheorems

  // ---------------------------------------------------------------- plain lines and queues

  lemma PlainSame(qs: Queues, records: seq<Rec>, after: seq<Rec>)
    requires SameBytes(qs, records, after)
    ensures Plain(qs, after) == Plain(qs, records)
  {
    forall i | 0 <= i < |qs.data|
      ensures Plain(qs, after)[i] == Plain(qs, records)[i]
    {
      assert Bytes(qs, i + 1, after) == Bytes(qs, i + 1, records);
    }
  }

  lemma PlainOne(qs: Queues, records: seq<Rec>, qs': Queues, after: seq<Rec>, q: int)
    requires SameOthers(qs, records, qs', after, q) && 1 <= q <= |qs.data|
    ensures Plain(qs', after) == Plain(qs, records)[q - 1 := Bytes(qs', q, after)]
  {
    forall i | 0 <= i < |qs.data|
      ensures Plain(qs', after)[i] == Plain(qs, records)[q - 1 := Bytes(qs', q, after)][i]
    {
      assert i + 1 != q ==> Bytes(qs', i + 1, after) == Bytes(qs, i + 1, records);
    }
  }

  lemma LinesAdd(records: seq<Rec>, r: Rec)
    ensures Lines(records + [r]) == Lines(records) + [LineOf(r)]
  {}

  lemma LinesTouched(records: seq<Rec>, after: seq<Rec>, items: seq<nat>)
    requires Touched(records, after, items)
    ensures Lines(after) == Lines(records)
  {
    forall k | 0 <= k < |records|
      ensures LineOf(after[k]) == LineOf(records[k])
    {
      assert SameButData(after[k], records[k]);
    }
  }

  // ---------------------------------------------------------------- the log

  /** A new record: one more line, and every queue as it was. */
  lemma SoundAdd(log: Log, qs: Queues, r: Rec)
    requires Sound(log, qs) && r.dump && !Unresolved(r)
    ensures Fits(log) && Sound(Added(log, r), qs) && Grows(log, Added(log, r))
    ensures Added(log, r).records == log.records + [r]
    ensures Lines(Added(log, r).records) == Lines(log.records) + [LineOf(r)]
    ensures Plain(qs, Added(log, r).records) == Plain(qs, log.records)
  {
    AddedKeeps(log, r);
    AddedGrows(log, r);
    LinesAdd(log.records, r);
    GrowKeeps(qs, log.records, r, log.records + [r]);
    PlainSame(qs, log.records, log.records + [r]);
  }

  /** A link that waits for its target: it is held back. */
  lemma SoundWait(log: Log, qs: Queues, r: Rec)
    requires Sound(log, qs) && Unresolved(r) && !r.dump
    ensures Fits(log) && Sound(Appended(log, r), qs) && Grows(log, Appended(log, r))
    ensures Lines(Appended(log, r).records) == Lines(log.records) + [LineOf(r)]
    ensures Plain(qs, Appended(log, r).records) == Plain(qs, log.records)
  {
    AppendedKeeps(log, r);
    LinesAdd(log.records, r);
    GrowKeeps(qs, log.records, r, log.records + [r]);
    PlainSame(qs, log.records, log.records + [r]);
  }

  /** The target of a waiting link has begun: its line leads there. */
  lemma SoundResolve(log: Log, qs: Queues, k: int, target: int, after: Log)
    requires Sound(log, qs) && 0 <= k < |log.records| && Unresolved(log.records[k]) && target != Unknown
    requires after == log.(records := Directed(log.records, k, target))
    ensures Sound(after, qs) && Grows(log, after)
    ensures Lines(after.records) == Lines(log.records)[k := LineOf(log.records[k]).(stq := target)]
    ensures Plain(qs, after.records) == Plain(qs, log.records)
  {
    var r := log.records[k].(stq := target, dump := true);
    UpdateKeeps(log, k, r);
    OutsideKeeps(qs, log.records, k, r);
    PlainSame(qs, log.records, after.records);
  }

  // A record that is in no queue may change.
  lemma OutsideKeeps(qs: Queues, records: seq<Rec>, k: nat, r: Rec)
    requires Consistent(qs, records) && k < |records| && records[k].op != OpQueue
    ensures Consistent(qs, records[k := r]) && SameBytes(qs, records, records[k := r])
  {
    var after := records[k := r];
    forall q
      ensures CountedAt(qs, q, after) && Bytes(qs, q, after) == Bytes(qs, q, records)
    {
      assert CountedAt(qs, q, records);
      if 1 <= q <= |qs.data| {
        RunsFrame(qs.data[q - 1], records, after);
      }
    }
  }

  lemma LogTouched(log: Log, after: seq<Rec>, items: seq<nat>)
    requires InOrder(log) && Clean(log) && Touched(log.records, after, items)
    ensures InOrder(log.(records := after)) && Clean(log.(records := after)) && Grows(log, log.(records := after))
  {
    forall k | 0 <= k < |after|
      ensures LineOf(after[k]) == LineOf(log.records[k])
      ensures Unresolved(after[k]) == Unresolved(log.records[k]) && after[k].dump == log.records[k].dump
    {
      assert SameButData(after[k], log.records[k]);
    }
  }

  // ---------------------------------------------------------------- queues

  lemma SoundQueue(log: Log, qs: Queues, q: int)
    requires Sound(log, qs) && 1 <= q <= |qs.data|
    ensures Parallel(qs) && Entries(qs.data[q - 1], q, log.records) && qs.size[q - 1] == |qs.data[q - 1]|
    ensures NotNegative(Runs(qs.data[q - 1], log.records)) && Within(qs.data[q - 1], log.records)
    ensures Plain(qs, log.records)[q - 1] == Content(qs.data[q - 1], log.records)
    ensures qs.bytes[q - 1] == |Content(qs.data[q - 1], log.records)|
  {
    BytesOf(qs, q, log.records);
    EntriesNotNegative(qs.data[q - 1], q, log.records);
  }

  /** One queue is replaced, with changes to the remaining counts of its own records only: no line
      changes, and no other queue. */
  lemma SoundReplace(log: Log, qs: Queues, q: int, items: seq<nat>, bytes: int, after: Log, qs': Queues)
    requires Sound(log, qs) && 1 <= q <= |qs.data| && Parallel(qs)
    requires Touched(log.records, after.records, qs.data[q - 1]) && after == log.(records := after.records)
    requires Counted(items, |items|, bytes, q, after.records) && qs' == With(qs, q, items, |items|, bytes)
    ensures Sound(after, qs') && Grows(log, after) && Lines(after.records) == Lines(log.records)
    ensures Plain(qs', after.records) == Plain(qs, log.records)[q - 1 := Content(items, after.records)]
  {
    LogTouched(log, after.records, qs.data[q - 1]);
    LinesTouched(log.records, after.records, qs.data[q - 1]);
    ReplaceKeeps(qs, q, items, |items|, bytes, log.records, after.records);
    PlainOne(qs, log.records, qs', after.records, q);
  }

  lemma SoundClear(log: Log, qs: Queues, q: int, qs': Queues)
    requires Sound(log, qs) && 1 <= q <= |qs.data| && Parallel(qs) && qs' == With(qs, q, [], 0, 0)
    ensures Sound(log, qs') && Plain(qs', log.records) == Plain(qs, log.records)[q - 1 := []]
  {
    EmptyCounted(q, log.records);
    TouchedSelf(log.records, qs.data[q - 1]);
    SoundReplace(log, qs, q, [], 0, log, qs');
  }

  lemma SoundFits(log: Log, qs: Queues)
    requires Sound(log, qs)
    ensures Fits(log) && Parallel(qs)
  {
    InOrderFits(log);
  }

  /** A new record is entered into a queue: one more line, and its bytes at one end. */
  lemma SoundEnter(log: Log, qs: Queues, q: int, r: Rec, front: bool, after: Log, qs': Queues)
    requires Sound(log, qs) && 1 <= q <= |qs.data| && Parallel(qs) && Fits(log)
    requires r.dump && r.op == OpQueue && r.stq == q && r.data >= 0
    requires after == Added(log, r) && qs' == Entered(qs, q, |log.records|, r.data, front)
    ensures Sound(after, qs') && Grows(log, after) && Lines(after.records) == Lines(log.records) + [LineOf(r)]
    ensures Plain(qs', after.records) ==
            Plain(qs, log.records)[q - 1 := Joined(Plain(qs, log.records)[q - 1], Run(|log.records|, r.data), front)]
  {
    SoundAdd(log, qs, r);
    EnterPlain(log.records, qs, q, r, front, after.records, qs');
  }

  lemma EnterPlain(records: seq<Rec>, qs: Queues, q: int, r: Rec, front: bool, after: seq<Rec>, qs': Queues)
    requires Consistent(qs, records) && 1 <= q <= |qs.data| && Parallel(qs)
    requires r.op == OpQueue && r.stq == q && r.data >= 0
    requires after == records + [r] && qs' == Entered(qs, q, |records|, r.data, front)
    ensures Consistent(qs', after)
    ensures Plain(qs', after) == Plain(qs, records)[q - 1 := Joined(Plain(qs, records)[q - 1], Run(|records|, r.data), front)]
  {
    EnqueueKeeps(qs, q, records, r, front, after, qs');
    PlainEnqueued(qs, records, qs', after, q, Run(|records|, r.data), front, Plain(qs, records)[q - 1]);
  }

  lemma PlainEnqueued(qs: Queues, records: seq<Rec>, qs': Queues, after: seq<Rec>, q: int, r: Run, front: bool, was: seq<nat>)
    requires 1 <= q <= |qs.data| && Enqueued(qs, records, qs', after, q, r, front) && was == Plain(qs, records)[q - 1]
    ensures Plain(qs', after) == Plain(qs, records)[q - 1 := Joined(was, r, front)]
  {
    PlainOne(qs, records, qs', after, q);
  }

  lemma DequeueLeaves(was: seq<nat>, q: int, records: seq<Rec>, need: int, items: seq<nat>, after: seq<Rec>)
    requires Entries(was, q, records) && 0 <= need <= |Content(was, records)|
    requires var c := FrontCut(Runs(was, records), 0, need);
      items == was[c.at..] && after == Cropped(records, was, c.at, c.part)
    ensures Touched(records, after, was)
    ensures Counted(items, |items|, |Content(was, records)| - need, q, after)
    ensures Content(items, after) == Content(was, records)[need..]
  {
    DequeueMeaning(was, q, records, need);
  }

  lemma ResizeLeaves(was: seq<nat>, q: int, records: seq<Rec>, need: int, items: seq<nat>, after: seq<Rec>)
    requires Entries(was, q, records) && 0 <= need <= |Content(was, records)|
    requires var c := BackCut(Runs(was, records), |was|, need);
      items == was[..c.at] && after == Cropped(records, was, c.at - 1, c.part)
    ensures Touched(records, after, was)
    ensures Counted(items, |items|, |Content(was, records)| - need, q, after)
    ensures Content(items, after) == Content(was, records)[..|Content(was, records)| - need]
  {
    ResizeMeaning(was, q, records, need);
  }

  /** A new queue is empty, and no other changes. */
  lemma SoundNew(log: Log, qs: Queues)
    requires Sound(log, qs)
    ensures Sound(log, OneMore(qs)) && Plain(OneMore(qs), log.records) == Plain(qs, log.records) + [[]]
  {
    OneMoreKeeps(qs, log.records);
    assert Content([], log.records) == [];
  }

  lemma NumbersMore(numQ: seq<int>, t: Table, sys: int, id: Id)
    requires Numbers(numQ, t) && 1 <= sys <= |t.cache| && id !in t.cache[sys - 1]
    ensures Numbers(numQ[sys - 1 := numQ[sys - 1] + 1], Enter(t, sys, id))
  {
    var m := t.cache[sys - 1];
    assert m[id := t.num + 1].Keys == m.Keys + {id};
  }
}
