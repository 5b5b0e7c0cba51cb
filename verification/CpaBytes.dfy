/**
 Whoever reads the bytes of the file after the last dump knows what is in every queue.
 */
module CpaBytes {
  import opened AnnotateFile
  import opened AnnotateLog
  import opened AnnotateNames
  import opened AnnotateQueue
  import opened AnnotateStacks
  import opened ByteQueue
  import opened CpaLines
  import opened CpaModel
  import opened CpaRuns
  import opened CpaTidy

  // ---------------------------------------------------------------- the reader

  // A record as a reader takes it: the count is an int, the other fields are not signed.
  function ReadLine(s: seq<Byte>): Line
    requires |s| == RecordBytes
  {
    var l := Decode(s);
    l.(data := Signed(l.data))
  }

  // The first records of a file, whatever follows them.
  function ReadLines(file: seq<Byte>, n: nat): (lines: seq<Line>)
    requires Position(n) <= |file|
    ensures |lines| == n
  {
    seq(n, k requires 0 <= k < n => ReadLine(file[Position(k)..Position(k) + RecordBytes]))
  }

  lemma Quarter(flags: nat, high: nat, mid: nat, low: nat)
    requires flags == 256 * high + 4 * mid + low && low < 4
    ensures flags / 4 == 64 * high + mid && (64 * high + mid) % 2 == mid % 2
  {}

  // Eight bits of the flags are enough.
  lemma FlagComesBack(flags: nat)
    ensures HasFlag(flags % 256, FlagOpposite) == HasFlag(flags, FlagOpposite)
  {
    var high, byte := flags / 256, flags % 256;
    Quarter(flags, high, byte / 4, byte % 4);
  }

  lemma Powers()
    ensures Pow256(4) == 0x1_0000_0000 && Pow256(2) == 0x1_0000 && Pow256(1) == 0x100
  {
    assert Pow256(4) == 256 * (256 * (256 * (256 * Pow256(0))));
    assert Pow256(2) == 256 * (256 * Pow256(0));
  }

  // What is said about queues comes back.
  lemma LegibleRead(l: Line, r: Line)
    requires Legible(l) && r == ReadLine(Encode(l))
    ensures r.op == l.op
    ensures QueueOp(l.op) ==>
      r.stq == l.stq && r.data == l.data && r.flag >= 0 && HasFlag(r.flag, FlagOpposite) == HasFlag(l.flag, FlagOpposite)
  {
    Powers();
    DecodeEncode(l);
    Small(l.op, 256);
    if QueueOp(l.op) {
      Small(l.stq, 65536);
      SignedMod(l.data);
      FlagComesBack(l.flag);
    }
  }

  // A legible line that has been written and read does to a queue what it did.
  lemma RebuildRead(was: seq<nat>, k: nat, l: Line, q: int)
    requires Legible(l)
    ensures Rebuild(was, k, ReadLine(Encode(l)), q) == Rebuild(was, k, l, q)
  {
    LegibleRead(l, ReadLine(Encode(l)));
  }

  lemma {:induction false} RebuiltRead(lines: seq<Line>, read: seq<Line>, q: int)
    requires |read| == |lines|
    requires forall k :: 0 <= k < |lines| ==> Legible(lines[k]) && read[k] == ReadLine(Encode(lines[k]))
    ensures Rebuilt(read, q) == Rebuilt(lines, q)
    decreases |lines|
  {
    if lines != [] {
      var n := |lines| - 1;
      RebuiltRead(lines[..n], read[..n], q);
      RebuildRead(Rebuilt(lines[..n], q), n, lines[n], q);
    }
  }

  lemma ReadBack(header: seq<Byte>, lines: seq<Line>, rest: seq<Byte>)
    requires |header| == HeaderBytes
    ensures Position(|lines|) <= |Contents(header, lines) + rest|
    ensures forall k :: 0 <= k < |lines| ==>
      ReadLines(Contents(header, lines) + rest, |lines|)[k] == ReadLine(Encode(lines[k]))
  {
    var records := Contents(header, lines);
    RecordAt(header, lines, |lines|);
    forall k | 0 <= k < |lines|
      ensures ReadLines(records + rest, |lines|)[k] == ReadLine(Encode(lines[k]))
    {
      RecordAt(header, lines, k);
      assert (records + rest)[Position(k)..Position(k) + RecordBytes] == records[Position(k)..Position(k) + RecordBytes];
    }
  }

  // ---------------------------------------------------------------- every line is legible

  lemma LegibleQuiet(m: Model, after: Model)
    requires AllLegible(m) && Quiet(m, after)
    ensures AllLegible(after)
  {
    forall k | 0 <= k < |after.lines|
      ensures Legible(after.lines[k])
    {
      if k < |m.lines| {
        assert LineKept(m.lines[k], after.lines[k]);
      }
    }
  }

  lemma LegibleLine(m: Model, q: int, s: seq<nat>, l: Line)
    requires AllLegible(m) && Legible(l)
    ensures AllLegible(Recorded(WithBytes(m, q, s), l))
  {}

  lemma LegiblePut(m: Model, now: nat, flags: nat, cpu: int, sm: int, q: int, count: int)
    requires AllLegible(m) && 1 <= q <= |m.queues| && IsInt(count)
    ensures AllLegible(Put(m, now, flags, cpu, sm, q, count))
  {
    LegibleLine(m, q, Joined(QueueOf(m, q), Run(|m.lines|, count), HasFlag(flags, FlagOpposite)),
                QueueLine(now, OpQueue, flags, cpu, sm, q, count));
  }

  lemma LegibleDrawn(m: Model, now: nat, flags: nat, cpu: int, sm: int, q: int, count: int)
    requires AllLegible(m) && 1 <= q <= |m.queues| && IsInt(count)
    ensures AllLegible(Drawn(m, now, flags, cpu, sm, q, count).m)
  {
    var s := QueueOf(m, q);
    LegibleLine(m, q, if 0 <= count <= |s| then s[count..] else [],
                QueueLine(now, OpDequeue, flags, cpu, sm, q, count));
  }

  lemma LegibleSize(m: Model, now: nat, cpu: int, sm: int, q: int, size: int)
    requires AllLegible(m) && 1 <= q <= |m.queues| && IsInt(size)
    ensures AllLegible(SizeSet(m, now, cpu, sm, q, size))
  {
    var s := QueueOf(m, q);
    if |s| < size {
      LegiblePut(m, now, 0, cpu, sm, q, size - |s|);
    } else if |s| > size {
      LegibleLine(m, q, s[..if size > 0 then size else 0], QueueLine(now, OpSizeQueue, 0, cpu, sm, q, size));
    }
  }

  lemma LegibleResized(m: Model, now: nat, cpu: int, sm: int, q: int, size: int, flags: nat)
    requires AllLegible(m) && 1 <= q <= |m.queues| && IsInt(size)
    ensures AllLegible(Resized(m, now, cpu, sm, q, size, flags))
  {
    LegibleLine(m, q, [], QueueLine(now, OpSizeQueue, 0, cpu, sm, q, 0));
    if HasFlag(flags, FlagReset) {
      LegibleSize(Cleared(m, now, cpu, sm, q, 0), now, cpu, sm, q, size);
    } else {
      LegibleSize(m, now, cpu, sm, q, size);
    }
  }

  lemma LegibleQueue(m: Model, sys: int, id: Id, after: Model)
    requires AllLegible(m) && QueueReady(m, sys, id) && RoomFor(m.qns, sys, id) && |m.queues| == m.qns.num
    requires after.lines == m.lines && after.queues == WithQueue(m, sys, id).queues
    ensures AllLegible(after) && 1 <= NumberOf(m.qns, sys, id) <= |after.queues|
  {}

  // Calls on queues of the running machine.
  lemma LegibleUse(m: Model, c: Call, sid: Sid, after: Outcome)
    requires Tidy(m) && AllLegible(m) && IntArguments(c) && (c.Q? || c.Dq? || c.Sq?)
    requires QueueReady(m, sid.sys, c.id) && MayUse(m, sid, c.id, true)
    requires after == match c
      case Q(now, _, cpu, id, _, count) => Alive(Queued(m, now, cpu, id, sid, count))
      case Dq(now, _, cpu, id, _, count) => Dequeued(m, now, cpu, id, sid, count)
      case Sq(now, _, cpu, id, _, size, flags) => Alive(SizedTo(m, now, cpu, id, sid, size, flags))
    ensures AllLegible(after.m)
  {
    var stack, q := StackOf(m.stacks, sid), NumberOf(m.qns, sid.sys, c.id);
    if stack != [] {
      if c.Q? {
        var m1 := WithQueue(Calm(m, sid), sid.sys, c.id);
        LegibleQueue(m, sid.sys, c.id, m1);
        LegiblePut(m1, c.now, 0, c.cpu, Top(stack), q, c.count);
      } else if c.Dq? {
        var m1 := Calm(WithQueue(m, sid.sys, c.id), sid);
        LegibleQueue(m, sid.sys, c.id, m1);
        LegibleDrawn(m1, c.now, 0, c.cpu, Top(stack), q, c.count);
      } else {
        var m1 := WithQueue(m, sid.sys, c.id);
        LegibleQueue(m, sid.sys, c.id, m1);
        LegibleResized(m1, c.now, c.cpu, Top(stack), q, c.size, c.flags);
      }
    }
  }

  lemma LegibleQueueCall(m: Model, c: Call)
    requires Tidy(m) && Possible(m, c) && AllLegible(m) && IntArguments(c) && (c.Q? || c.Dq? || c.Sq?)
    ensures AllLegible(Performed(m, c).m)
  {
    var m1, sid := WithSystem(m, c.sys), Sid(SystemOf(m, c.sys), c.frame);
    SystemKeeps(m, c.sys, m1);
    TidySystem(m, c.sys);
    TidySwSq(m, c.now, c.sys, c.cpu, c.id, c.frame, 0, 0);
    LegibleUse(m1, c, sid, Performed(m, c));
  }

  // The queue of a hardware call, on systems that have numbers.
  lemma LegibleBoth(m: Model, sys: int, machine: Id, qsys: int, id: Id, both: Model)
    requires Tidy(m) && AllLegible(m) && 1 <= qsys <= m.numSys && 1 <= sys <= m.numSys
    requires RoomFor(m.sms, sys, machine) && RoomFor(m.qns, qsys, id)
    requires both == WithMachine(WithQueue(m, qsys, id), sys, machine)
    ensures AllLegible(both) && 1 <= NumberOf(m.qns, qsys, id) <= |both.queues|
  {
    TidyQueueMachine(m, qsys, id, sys, machine);
    LegibleQueue(m, qsys, id, both);
  }

  lemma LegibleHardware(c: Call, both: Model, q: int, sm: int, after: Model)
    requires AllLegible(both) && 1 <= q <= |both.queues| && IntArguments(c)
    requires (c.HwQ? && after == Put(both, c.now, Hardware(c.flags), 0, sm, q, c.count))
          || (c.HwDq? && after == Drawn(both, c.now, Hardware(c.flags), 0, sm, q, c.count).m)
    ensures AllLegible(after)
  {
    if c.HwQ? {
      LegiblePut(both, c.now, Hardware(c.flags), 0, sm, q, c.count);
    } else {
      LegibleDrawn(both, c.now, Hardware(c.flags), 0, sm, q, c.count);
    }
  }

  lemma LegibleSystems(m: Model, sys: nat, qsys: nat, m1: Model, m2: Model)
    requires Tidy(m) && AllLegible(m) && m1 == WithSystem(m, sys) && m2 == WithSystem(m1, qsys)
    ensures Tidy(m2) && AllLegible(m2)
    ensures 1 <= SystemOf(m2, sys) <= m2.numSys && 1 <= SystemOf(m2, qsys) <= m2.numSys
    ensures SystemOf(m2, sys) == SystemOf(m, sys) && SystemOf(m2, qsys) == SystemOf(m1, qsys)
  {
    SystemKeeps(m, sys, m1);
    SystemKeeps(m1, qsys, m2);
    TidySystem(m, sys);
    TidySystem(m1, qsys);
  }

  lemma LegibleHardwareCall(m: Model, c: Call)
    requires Tidy(m) && Possible(m, c) && AllLegible(m) && IntArguments(c) && (c.HwQ? || c.HwDq?)
    ensures AllLegible(Performed(m, c).m)
  {
    var m1 := WithSystem(m, c.sys);
    var m2 := WithSystem(m1, c.qsys);
    var both, q := Both(m, c.sys, c.machine, c.qsys, c.id), HwQueue(m, c.sys, c.qsys, c.id);
    LegibleSystems(m, c.sys, c.qsys, m1, m2);
    LegibleBoth(m2, SystemOf(m2, c.sys), c.machine, SystemOf(m2, c.qsys), c.id, both);
    LegibleHardware(c, both, q, HwMachine(m, c.sys, c.machine, c.qsys), Performed(m, c).m);
  }

  lemma LegibleCall(m: Model, c: Call)
    requires Tidy(m) && Possible(m, c) && AllLegible(m) && IntArguments(c)
    ensures AllLegible(Performed(m, c).m)
  {
    if c.HwQ? || c.HwDq? {
      LegibleHardwareCall(m, c);
    } else if c.Q? || c.Dq? || c.Sq? {
      LegibleQueueCall(m, c);
    } else {
      QuietCall(m, c);
      LegibleQuiet(m, Performed(m, c).m);
    }
  }

  lemma {:induction false} LegibleRun(m: Model, calls: seq<Call>)
    requires Tidy(m) && AllPossible(m, calls) && AllLegible(m)
    requires forall i :: 0 <= i < |calls| ==> IntArguments(calls[i])
    ensures AllLegible(Played(m, calls).m)
    decreases |calls|
  {
    if calls != [] {
      var o := Performed(m, calls[0]);
      LegibleCall(m, calls[0]);
      EveryCall(m, calls[0]);
      Onward(m, calls, o);
      if o.Alive? {
        LegibleRun(o.m, calls[1..]);
      }
    }
  }

  /** From the start: the bytes of the records, whatever comes before and after them in the file, tell
      what is in every queue, byte by byte. */
  lemma BytesTellQueues(calls: seq<Call>, end: Model, header: seq<Byte>, rest: seq<Byte>, q: int)
    requires AllPossible(Nothing, calls) && end == Played(Nothing, calls).m && |header| == HeaderBytes
    requires forall i :: 0 <= i < |calls| ==> IntArguments(calls[i])
    ensures Position(|end.lines|) <= |Contents(header, end.lines) + rest|
    ensures QueueOf(end, q) == Rebuilt(ReadLines(Contents(header, end.lines) + rest, |end.lines|), q)
  {
    NothingTidy();
    LegibleRun(Nothing, calls);
    LinesTellQueues(calls, q);
    ReadBack(header, end.lines, rest);
    RebuiltRead(end.lines, ReadLines(Contents(header, end.lines) + rest, |end.lines|), q);
  }

  lemma BytesTellAll(calls: seq<Call>, lines: seq<Line>, header: seq<Byte>, rest: seq<Byte>)
    requires AllPossible(Nothing, calls) && lines == Played(Nothing, calls).m.lines && |header| == HeaderBytes
    requires forall i :: 0 <= i < |calls| ==> IntArguments(calls[i])
    ensures Position(|lines|) <= |Contents(header, lines) + rest|
    ensures forall q :: QueueOf(Played(Nothing, calls).m, q)
                     == Rebuilt(ReadLines(Contents(header, lines) + rest, |lines|), q)
  {
    var end := Played(Nothing, calls).m;
    BytesTellQueues(calls, end, header, rest, 0);
    forall q
      ensures QueueOf(end, q) == Rebuilt(ReadLines(Contents(header, lines) + rest, |lines|), q)
    {
      BytesTellQueues(calls, end, header, rest, q);
    }
  }
}
