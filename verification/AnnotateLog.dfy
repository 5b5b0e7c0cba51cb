/**
 The record log of the critical-path annotator: records are created in order, wait in a pending
 list while a system-call link among them is unresolved, and are written to a binary file with an
 index of offsets.
 */
module AnnotateLog {

  const OpBegin := 1
  const OpQueue := 4
  const OpDequeue := 5
  const OpSizeQueue := 8
  const OpLink := 10
  const Unknown := 0xFFFF

  // Records wait until there are this many.
  const Batch := 10000
  // Every so many records the file offset is noted.
  const Stride := 100000
  const HeaderBytes := 40
  const RecordBytes := 19

  datatype Rec = Rec(time: nat, data: int, orig: int, op: int, flag: int, sm: int, stq: int, cpu: int, dump: bool)

  // One record of the file.
  datatype Line = Line(time: nat, data: int, sm: int, stq: int, op: int, flag: int, cpu: int)

  function LineOf(r: Rec): Line {
    Line(r.time, r.orig, r.sm, r.stq, r.op, r.flag, r.cpu)
  }

  // A link whose target machine has not begun yet.
  predicate Unresolved(r: Rec) {
    r.op == OpLink && r.stq == Unknown
  }

  predicate OpenLine(l: Line) {
    l.op == OpLink && l.stq == Unknown
  }

  // Records are named by their number in order of creation: the pending list, the queues and the
  // link tables share them.
  datatype Log = Log(records: seq<Rec>, pending: seq<nat>, file: seq<Line>, numRecs: nat, index: seq<nat>)

  const NewLog := Log([], [], [], 0, [])

  predicate Fits(log: Log) {
    forall i :: 0 <= i < |log.pending| ==> log.pending[i] < |log.records|
  }

  // The file position after n records.
  function Position(n: nat): nat {
    HeaderBytes + RecordBytes * n
  }

  function Noted(index: seq<nat>, numRecs: nat, n: nat): seq<nat> {
    if numRecs % Stride == 0 then index + [Position(n)] else index
  }

  // Write the first pending record.
  function Written(log: Log): (r: Log)
    requires Fits(log) && log.pending != []
    ensures Fits(r)
  {
    Log(log.records, log.pending[1..], log.file + [LineOf(log.records[log.pending[0]])], log.numRecs + 1,
        Noted(log.index, log.numRecs + 1, |log.file|))
  }

  function Drain(log: Log, all: bool): (r: Log)
    requires Fits(log)
    ensures Fits(r)
    decreases |log.pending|
  {
    if log.pending == [] || !(log.records[log.pending[0]].dump || all) then log else Drain(Written(log), all)
  }

  function Dumped(log: Log, all: bool): (r: Log)
    requires Fits(log)
    ensures Fits(r)
  {
    if log.pending == [] || (!all && |log.pending| < Batch) then log else Drain(log, all)
  }

  function Appended(log: Log, r: Rec): (l: Log)
    requires Fits(log)
    ensures Fits(l)
  {
    log.(records := log.records + [r], pending := log.pending + [|log.records|])
  }

  // Links are not dumped at once: they may turn out to be unresolved.
  function Added(log: Log, r: Rec): Log
    requires Fits(log)
  {
    if r.op == OpLink then Appended(log, r) else Dumped(Appended(log, r), false)
  }

  // ---------------------------------------------------------------- what every run keeps

  function Range(a: nat, b: nat): seq<nat>
    requires a <= b
  {
    seq(b - a, i requires 0 <= i => a + i)
  }

  // The offsets noted while writing n records.
  function Offsets(n: nat): seq<nat> {
    if n == 0 then [] else Noted(Offsets(n - 1), n, n - 1)
  }

  // Written records followed by pending ones are all records in order of creation, and each was
  // written as it is, with its original count.
  ghost predicate InOrder(log: Log) {
    && |log.file| <= |log.records|
    && log.pending == Range(|log.file|, |log.records|)
    && log.numRecs == |log.file|
    && log.index == Offsets(|log.file|)
    && (forall k :: 0 <= k < |log.file| ==> log.file[k] == LineOf(log.records[k]))
  }

  // Exactly the unresolved links are held back, and none has been written.
  ghost predicate Clean(log: Log) {
    && (forall k :: 0 <= k < |log.records| ==> log.records[k].dump == !Unresolved(log.records[k]))
    && (forall k :: 0 <= k < |log.file| && k < |log.records| ==> !Unresolved(log.records[k]))
  }

  lemma InOrderFits(log: Log)
    requires InOrder(log)
    ensures Fits(log)
  {}

  lemma WrittenKeeps(log: Log)
    requires InOrder(log) && log.pending != []
    ensures Fits(log) && InOrder(Written(log))
    ensures Clean(log) && log.records[log.pending[0]].dump ==> Clean(Written(log))
    ensures log.pending[0] == |log.file|
  {
    assert log.pending[0] == |log.file|;
    var w := Written(log);
    assert w.pending == Range(|w.file|, |w.records|);
  }

  lemma {:induction false} DrainKeeps(log: Log, all: bool)
    requires InOrder(log)
    ensures Fits(log)
    ensures InOrder(Drain(log, all)) && Drain(log, all).records == log.records
    ensures !all && Clean(log) ==> Clean(Drain(log, all))
    decreases |log.pending|
  {
    InOrderFits(log);
    if log.pending != [] && (log.records[log.pending[0]].dump || all) {
      WrittenKeeps(log);
      DrainKeeps(Written(log), all);
    }
  }

  // Dumping everything empties the pending list; otherwise it stops at the first unresolved link.
  lemma {:induction false} DrainStops(log: Log, all: bool)
    requires InOrder(log) && (all || Clean(log))
    ensures Fits(log)
    ensures var d := Drain(log, all);
      d.pending == [] || (!all && |d.file| < |d.records| && Unresolved(d.records[|d.file|]))
    decreases |log.pending|
  {
    InOrderFits(log);
    if log.pending != [] {
      WrittenKeeps(log);
      if log.records[log.pending[0]].dump || all {
        DrainStops(Written(log), all);
      }
    }
  }

  lemma AppendedKeeps(log: Log, r: Rec)
    requires InOrder(log)
    ensures Fits(log) && InOrder(Appended(log, r))
    ensures Clean(log) && r.dump == !Unresolved(r) ==> Clean(Appended(log, r))
  {
    var l := Appended(log, r);
    assert l.pending == Range(|l.file|, |l.records|);
  }

  /** Adding a record keeps the order and the held links; the log then has it as its last one. */
  lemma AddedKeeps(log: Log, r: Rec)
    requires InOrder(log)
    ensures Fits(log) && InOrder(Added(log, r)) && Added(log, r).records == log.records + [r]
    ensures Clean(log) && r.dump == !Unresolved(r) ==> Clean(Added(log, r))
  {
    AppendedKeeps(log, r);
    DrainKeeps(Appended(log, r), false);
  }

  /** A record whose written form does not change, or a held link that is resolved, can be
      changed behind the log's back. */
  lemma UpdateKeeps(log: Log, k: nat, r: Rec)
    requires InOrder(log) && Clean(log) && k < |log.records| && r.dump == !Unresolved(r)
    requires LineOf(r) == LineOf(log.records[k]) || Unresolved(log.records[k])
    ensures InOrder(log.(records := log.records[k := r])) && Clean(log.(records := log.records[k := r]))
  {}

  /** What is on disk: a batch is written up to the first unresolved link, and no unresolved link
      is ever in the file. */
  lemma DumpedMeaning(log: Log)
    requires InOrder(log) && Clean(log)
    ensures Fits(log)
    ensures var d := Dumped(log, false);
      && InOrder(d) && Clean(d) && d.records == log.records && log.file <= d.file
      && (|log.pending| < 10000 ==> d == log)
      && (|log.pending| >= 10000 ==> d.pending == [] || Unresolved(d.records[|d.file|]))
      && (forall k :: 0 <= k < |d.file| ==> !OpenLine(d.file[k]))
  {
    InOrderFits(log);
    DrainKeeps(log, false);
    DrainStops(log, false);
    FileGrows(log, false);
  }

  /** When a record is added, a link writes nothing; any other writes nothing below a batch, and otherwise
      leaves less than a batch pending unless an unresolved link comes first. */
  lemma AddedMeaning(log: Log, r: Rec)
    requires InOrder(log) && Clean(log) && r.dump == !Unresolved(r)
    ensures Fits(log) && InOrder(Added(log, r))
    ensures r.op == 10 || |log.pending| < 9999 ==>
      Added(log, r).file == log.file && Added(log, r).pending == log.pending + [|log.records|]
    ensures r.op != 10 ==>
      var l := Added(log, r); |l.pending| < 10000 || Unresolved(l.records[|l.file|])
  {
    InOrderFits(log);
    AppendedKeeps(log, r);
    DumpedMeaning(Appended(log, r));
    AddedKeeps(log, r);
  }

  lemma {:induction false} FileGrows(log: Log, all: bool)
    requires Fits(log)
    ensures log.file <= Drain(log, all).file
    decreases |log.pending|
  {
    if log.pending != [] && (log.records[log.pending[0]].dump || all) {
      FileGrows(Written(log), all);
    }
  }

  /** The final dump writes every record there is. */
  lemma FinalDump(log: Log)
    requires InOrder(log)
    ensures Fits(log)
    ensures var d := Dumped(log, true);
      d.pending == [] && d.numRecs == |log.records| && d.file == Lines(log.records) && log.file <= d.file
  {
    DrainKeeps(log, true);
    DrainStops(log, true);
    FileGrows(log, true);
    assert Dumped(log, true).file == Lines(log.records);
  }

  function Lines(records: seq<Rec>): (l: seq<Line>)
    ensures |l| == |records|
  {
    seq(|records|, k requires 0 <= k < |records| => LineOf(records[k]))
  }

  function PendingLines(log: Log): seq<Line>
    requires Fits(log)
  {
    seq(|log.pending|, i requires 0 <= i < |log.pending| => LineOf(log.records[log.pending[i]]))
  }

  /** The file and the pending records are all records in order of creation. */
  lemma WholeInOrder(log: Log)
    requires InOrder(log)
    ensures Fits(log) && log.file + PendingLines(log) == Lines(log.records)
    ensures Clean(log) ==> forall k :: 0 <= k < |log.file| ==> !OpenLine(log.file[k])
  {
    InOrderFits(log);
    assert log.file + PendingLines(log) == Lines(log.records);
  }

  lemma {:induction false} OffsetsAt(q: nat, r: nat)
    requires r < Stride
    ensures var o := Offsets(Stride * q + r);
      |o| == q && forall k :: 0 <= k < q ==> o[k] == Position(Stride * (k + 1) - 1)
    decreases q, r
  {
    var n := Stride * q + r;
    if r > 0 {
      OffsetsAt(q, r - 1);
      assert n % Stride != 0;
    } else if q > 0 {
      OffsetsAt(q - 1, Stride - 1);
      assert n % Stride == 0 && n - 1 == Stride * (q - 1) + (Stride - 1);
    }
  }

  /** Entry k of the index is the offset of record number 100000 (k + 1), counted from one. */
  lemma IndexMeaning(log: Log)
    requires InOrder(log)
    ensures |log.index| == log.numRecs / 100000
    ensures forall k :: 0 <= k < |log.index| ==> log.index[k] == 40 + 19 * (100000 * (k + 1) - 1)
  {
    var n := log.numRecs;
    assert n == Stride * (n / Stride) + n % Stride;
    OffsetsAt(n / Stride, n % Stride);
  }

  // ---------------------------------------------------------------- what an operation may change

  // A record keeps what is written of it, or it is an unresolved link that is given its target.
  predicate KeepsLine(a: Rec, b: Rec) {
    || LineOf(b) == LineOf(a)
    || (Unresolved(a) && !Unresolved(b) && LineOf(b) == LineOf(a).(stq := b.stq))
  }

  /** Nothing is taken out of the file, no record is removed, and none is changed in what is
      written of it, but for unresolved links that are given their target. */
  ghost predicate Grows(a: Log, b: Log) {
    && a.file <= b.file && |a.records| <= |b.records|
    && (forall k :: 0 <= k < |a.records| ==> KeepsLine(a.records[k], b.records[k]))
  }

  lemma GrowsTwice(a: Log, b: Log, c: Log)
    requires Grows(a, b) && Grows(b, c)
    ensures Grows(a, c)
  {
    forall k | 0 <= k < |a.records|
      ensures KeepsLine(a.records[k], c.records[k])
    {
      assert KeepsLine(a.records[k], b.records[k]) && KeepsLine(b.records[k], c.records[k]);
    }
  }

  lemma AddedGrows(log: Log, r: Rec)
    requires InOrder(log)
    ensures Fits(log) && Grows(log, Added(log, r))
  {
    AddedKeeps(log, r);
    FileGrows(Appended(log, r), false);
  }

  lemma DumpedGrows(log: Log, all: bool)
    requires InOrder(log)
    ensures Fits(log) && Grows(log, Dumped(log, all)) && Dumped(log, all).records == log.records
  {
    DrainKeeps(log, all);
    FileGrows(log, all);
  }
}
