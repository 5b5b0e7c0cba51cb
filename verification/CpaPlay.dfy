/**
 Whole runs of the annotator.
 */
module CpaPlay {
  import opened Annotate
  import opened AnnotateFile
  import opened AnnotateLog
  import opened AnnotateNames
  import opened AnnotateStacks
  import opened CpaBytes
  import opened CpaLines
  import opened CpaModel
  import opened CpaRuns

  predicate Dequeues(c: Call) {
    c.Dq? || c.HwDq?
  }

  method PerformMachineCall(a: Cpa, c: Call)
    requires a.Valid() && Possible(a.Abs(), c) && (c.SmBegin? || c.SmEnd?)
    modifies a
    ensures a.Valid() && Grows(old(a.log), a.log) && Alive(a.Abs()) == Performed(old(a.Abs()), c)
  {
    if c.SmBegin? {
      a.SmBegin(c.now, c.sys, c.cpu, c.id, c.flags, c.frame, c.st);
    } else {
      a.SmEnd(c.now, c.sys, c.cpu, c.sm, c.frame);
    }
  }

  method PerformStateCall(a: Cpa, c: Call)
    requires a.Valid() && Possible(a.Abs(), c) && (c.State? || c.SyscallLink?)
    modifies a
    ensures a.Valid() && Grows(old(a.log), a.log) && Alive(a.Abs()) == Performed(old(a.Abs()), c)
  {
    if c.State? {
      a.SwBegin(c.now, c.sys, c.cpu, c.st, c.frame, c.expl, c.flags);
    } else {
      a.SyscallLink(c.now, c.sys, c.cpu, c.lsm, c.frame, c.ends, c.sm);
    }
  }

  method PerformQueueCall(a: Cpa, c: Call)
    requires a.Valid() && Possible(a.Abs(), c) && (c.Q? || c.Sq?)
    modifies a
    ensures a.Valid() && Grows(old(a.log), a.log) && Alive(a.Abs()) == Performed(old(a.Abs()), c)
  {
    if c.Q? {
      a.SwQ(c.now, c.sys, c.cpu, c.id, c.frame, c.count);
    } else {
      a.SwSq(c.now, c.sys, c.cpu, c.id, c.frame, c.size, c.flags);
    }
  }

  method PerformHardwareCall(a: Cpa, c: Call)
    requires a.Valid() && Possible(a.Abs(), c) && c.HwQ?
    modifies a
    ensures a.Valid() && Grows(old(a.log), a.log) && Alive(a.Abs()) == Performed(old(a.Abs()), c)
  {
    a.HwQ(c.now, c.flags, c.sys, c.machine, c.qsys, c.id, c.count);
  }

  // The calls that can be fatal.
  method PerformDequeueCall(a: Cpa, c: Call) returns (ok: bool)
    requires a.Valid() && Possible(a.Abs(), c) && Dequeues(c)
    modifies a
    ensures Grows(old(a.log), a.log) && ok == Performed(old(a.Abs()), c).Alive?
    ensures ok ==> a.Valid() && Alive(a.Abs()) == Performed(old(a.Abs()), c)
    ensures !ok ==> a.log.pending == [] && a.log.file == old(a.Abs()).lines
  {
    if c.Dq? {
      ok := a.SwDq(c.now, c.sys, c.cpu, c.id, c.frame, c.count);
    } else {
      ok := a.HwDq(c.now, c.flags, c.sys, c.machine, c.qsys, c.id, c.count);
    }
  }

  /** Any call does to the plain lines and queues what the model says; if it is fatal, everything
      is on file. */
  method Perform(a: Cpa, c: Call) returns (ok: bool)
    requires a.Valid() && Possible(a.Abs(), c)
    modifies a
    ensures Grows(old(a.log), a.log) && ok == Performed(old(a.Abs()), c).Alive?
    ensures ok ==> a.Valid() && Alive(a.Abs()) == Performed(old(a.Abs()), c)
    ensures !ok ==> a.log.pending == [] && a.log.file == old(a.Abs()).lines
  {
    ok := true;
    if c.SmBegin? || c.SmEnd? {
      PerformMachineCall(a, c);
    } else if c.State? || c.SyscallLink? {
      PerformStateCall(a, c);
    } else if Dequeues(c) {
      ok := PerformDequeueCall(a, c);
    } else if c.HwQ? {
      PerformHardwareCall(a, c);
    } else {
      PerformQueueCall(a, c);
    }
  }

  lemma DequeuedDead(m: Model, now: nat, cpu: int, id: Id, sid: Sid, count: int)
    requires Dequeued(m, now, cpu, id, sid, count).Dead?
    ensures Dequeued(m, now, cpu, id, sid, count).m.lines == m.lines
  {}

  // A fatal call adds no line.
  lemma DeadLines(m: Model, c: Call)
    requires Performed(m, c).Dead?
    ensures Performed(m, c).m.lines == m.lines
  {
    var m1 := WithSystem(m, c.sys);
    SystemKeeps(m, c.sys, m1);
    if c.Dq? {
      DequeuedDead(m1, c.now, c.cpu, c.id, Sid(SystemOf(m, c.sys), c.frame), c.count);
    } else {
      SystemKeeps(m1, c.qsys, WithSystem(m1, c.qsys));
    }
  }

  // The rest of a run.
  method Continue(c: Cpa, calls: seq<Call>) returns (alive: bool)
    requires c.Valid() && AllPossible(c.Abs(), calls)
    modifies c
    ensures Grows(old(c.log), c.log) && alive == Played(old(c.Abs()), calls).Alive?
    ensures alive ==> c.Valid() && Alive(c.Abs()) == Played(old(c.Abs()), calls)
    ensures !alive ==> c.log.pending == [] && c.log.file == Played(old(c.Abs()), calls).m.lines
    decreases |calls|
  {
    if calls == [] {
      return true;
    }
    ghost var m, before := c.Abs(), c.log;
    Onward(m, calls, Performed(m, calls[0]));
    alive := Perform(c, calls[0]);
    if alive {
      ghost var mid := c.log;
      alive := Continue(c, calls[1..]);
      GrowsTwice(before, mid, c.log);
    } else {
      DeadLines(m, calls[0]);
    }
  }

  /** Every run from the start: the annotator does to its shared records, runs and counters what
      the model does to plain lines and queues. */
  method Play(calls: seq<Call>) returns (c: Cpa, alive: bool)
    requires AllPossible(Nothing, calls)
    ensures fresh(c) && alive == Played(Nothing, calls).Alive?
    ensures alive ==> c.Valid() && Alive(c.Abs()) == Played(Nothing, calls)
    ensures !alive ==> c.log.pending == [] && c.log.file == Played(Nothing, calls).m.lines
  {
    c := new Cpa();
    alive := Continue(c, calls);
  }

  // With the last dump, which a fatal error has already done.
  method PlayDumped(calls: seq<Call>) returns (c: Cpa)
    requires AllPossible(Nothing, calls)
    ensures fresh(c) && c.log.pending == [] && c.log.file == Played(Nothing, calls).m.lines
  {
    var alive;
    c, alive := Play(calls);
    if alive {
      FinalDump(c.log);
      c.Dump(true);
    }
  }

  /** Every run from the start to the last dump: the bytes of the file tell what is in every queue. */
  method PlayOut(calls: seq<Call>, ghost header: seq<Byte>, ghost rest: seq<Byte>) returns (c: Cpa)
    requires AllPossible(Nothing, calls) && forall i :: 0 <= i < |calls| ==> IntArguments(calls[i])
    requires |header| == HeaderBytes
    ensures fresh(c) && c.log.pending == [] && Position(|c.log.file|) <= |Contents(header, c.log.file) + rest|
    ensures forall q :: QueueOf(Played(Nothing, calls).m, q)
                     == Rebuilt(ReadLines(Contents(header, c.log.file) + rest, |c.log.file|), q)
  {
    c := PlayDumped(calls);
    BytesTellAll(calls, c.log.file, header, rest);
  }
}
