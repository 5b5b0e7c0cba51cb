/**
 What every run of calls keeps: lines stay as they were made but for the targets of open links; every
 queue can be rebuilt from the lines alone; and an open link stays open exactly until the machine it
 waits for begins.
 */
module CpaRuns {
  import opened AnnotateLog
  import opened AnnotateNames
  import opened AnnotateQueue
  import opened AnnotateStacks
  import opened ByteQueue
  import opened CpaLines
  import opened CpaModel
  import opened CpaTidy

  // ---------------------------------------------------------------- calls that leave the queues alone

  lemma QuietTwice(m: Model, mid: Model, after: Model)
    requires Quiet(m, mid) && Quiet(mid, after)
    ensures Quiet(m, after)
  {
    ExtendsTwice(m.lines, mid.lines, after.lines);
    forall k | |m.lines| <= k < |after.lines|
      ensures NotQueues(after.lines[k])
    {
      if k < |mid.lines| {
        assert LineKept(mid.lines[k], after.lines[k]);
      }
    }
  }

  lemma QuietFaithful(m: Model, after: Model)
    requires Quiet(m, after) && Faithful(m)
    ensures Faithful(after)
  {
    forall q
      ensures QueueOf(after, q) == Rebuilt(after.lines, q)
    {
      forall k | 0 <= k < |m.lines|
        ensures m.lines[k] == after.lines[k] || (!QueueOp(m.lines[k].op) && !QueueOp(after.lines[k].op))
      {
        assert LineKept(m.lines[k], after.lines[k]);
      }
      RebuiltSame(m.lines, after.lines, q);
      assert QueueOf(m, q) == Rebuilt(m.lines, q);
    }
  }

  lemma QuietRecorded(m: Model, l: Line, after: Model)
    requires NotQueues(l) && after.lines == m.lines + [l] && after.queues == m.queues
    ensures Quiet(m, after)
  {}

  lemma QuietSame(m: Model, after: Model)
    requires after.lines == m.lines && after.queues == m.queues
    ensures Quiet(m, after)
  {}

  lemma QuietMet(m: Model, sys: int, key: Id, smi: int)
    requires Ready(m, sys, key, smi)
    ensures Quiet(m, Met(m, sys, key, smi))
  {}

  lemma QuietStarted(m: Model, now: nat, cpu: int, sid: Sid, id: Id, smi: int, link: bool, st: string)
    requires Ready(m, sid.sys, Id(id.name, sid.frame), smi) && LinkFree(m, sid, Id(id.name, sid.frame), smi, link)
    ensures Quiet(m, Started(m, now, cpu, sid, id, smi, link, st))
  {
    var key := Id(id.name, sid.frame);
    var m1 := LinkedBelow(m, now, cpu, sid, smi, link);
    var m2 := Pushed(m1, sid, smi);
    var m3 := Met(m2, sid.sys, key, smi);
    if Linking(m, sid, link) {
      QuietRecorded(m, LinkLine(now, cpu, Top(StackOf(m.stacks, sid)), smi), m1);
    }
    ReadyBelow(m, now, cpu, sid, smi, link, key);
    QuietSame(m1, m2);
    QuietTwice(m, m1, m2);
    QuietMet(m2, sid.sys, key, smi);
    QuietTwice(m, m2, m3);
    QuietFirst(m3, now, cpu, smi, id.name, st);
    QuietTwice(m, m3, FirstState(m3, now, cpu, smi, id.name, st));
  }

  lemma QuietFirst(m: Model, now: nat, cpu: int, smi: int, machine: string, st: string)
    ensures Quiet(m, FirstState(m, now, cpu, smi, machine, st))
  {
    if st != "" {
      QuietState(m, now, 0, cpu, smi, machine, st);
    }
  }

  lemma QuietState(m: Model, now: nat, flags: nat, cpu: int, smi: int, machine: string, st: string)
    ensures Quiet(m, InState(m, now, flags, cpu, smi, machine, st))
  {
    QuietRecorded(m, BeginLine(now, flags, cpu, smi, StateNumber(m.states, machine, st)),
                  InState(m, now, flags, cpu, smi, machine, st));
  }

  lemma QuietEnded(m: Model, now: nat, cpu: int, sid: Sid, name: string)
    ensures Quiet(m, Ended(m, now, cpu, sid, name))
  {
    var stack, quiet := StackOf(m.stacks, sid), m.(expl := m.expl[sid := false]);
    if OnTop(stack, m.sms.names, name) {
      var top, m1 := Top(stack), Dropped(quiet, sid);
      var m2 := LinkedBack(m1, now, cpu, top);
      var m3 := Returned(m2, now, cpu, sid, top);
      if top in m1.ln {
        QuietRecorded(m, LinkLine(now, cpu, top, m1.ln[top]), m2);
      }
      if StackOf(m2.stacks, sid) != [] {
        QuietRecorded(m2, BeginLine(now, 0, cpu, top, LastOf(m2.last, top)), m3);
      }
      QuietTwice(m, m2, m3);
    }
  }

  lemma QuietSyscall(m: Model, now: nat, cpu: int, lsm: string, sid: Sid, ends: bool, sm: string)
    ensures Quiet(m, SyscallLinked(m, now, cpu, lsm, sid, ends, sm))
  {
    if StackOf(m.stacks, sid) != [] {
      var m1 := Opened(m, now, cpu, sid, Id(lsm, sid.frame));
      QuietRecorded(m, LinkLine(now, cpu, Top(StackOf(m.stacks, sid)), Unknown), m1);
      if ends {
        QuietEnded(m1, now, cpu, sid, sm);
        QuietTwice(m, m1, Ended(m1, now, cpu, sid, sm));
      }
    }
  }

  lemma QuietEntering(m: Model, now: nat, cpu: int, st: string, sid: Sid, expl: bool, flags: nat)
    ensures Quiet(m, Entering(m, now, cpu, st, sid, expl, flags))
  {
    var smi, m1 := Top(StackOf(m.stacks, sid)), Explicit(m, sid, expl);
    QuietState(m1, now, flags, cpu, smi, NameOf(m, smi), st);
  }

  lemma QuietBegan(m: Model, now: nat, sys: nat, cpu: int, id: Id, flags: nat, frame: nat, st: string)
    requires Tidy(m) && MayBegin(m, sys, id, flags, frame)
    ensures Quiet(m, Began(m, now, sys, cpu, id, flags, frame, st))
  {
    BeginReady(m, sys, id, flags, frame);
    BeganFrom(m, now, sys, cpu, id, flags, frame, st);
  }

  lemma BeganFrom(m: Model, now: nat, sys: nat, cpu: int, id: Id, flags: nat, frame: nat, st: string)
    requires BeginsReady(m, sys, id, flags, frame)
    ensures Quiet(m, Began(m, now, sys, cpu, id, flags, frame, st))
  {
    var m1, s := WithSystem(m, sys), SystemOf(m, sys);
    var m2, smi := WithMachine(m1, s, id), NumberOf(m1.sms, s, id);
    QuietStarted(m2, now, cpu, Sid(s, frame), id, smi, HasFlag(flags, FlagLink), st);
    QuietSame(m, m2);
    QuietTwice(m, m2, Started(m2, now, cpu, Sid(s, frame), id, smi, HasFlag(flags, FlagLink), st));
  }

  lemma QuietCall(m: Model, c: Call)
    requires Tidy(m) && Possible(m, c) && (c.SmBegin? || c.SmEnd? || c.State? || c.SyscallLink?)
    ensures Quiet(m, Performed(m, c).m)
  {
    if c.SmBegin? {
      QuietBegan(m, c.now, c.sys, c.cpu, c.id, c.flags, c.frame, c.st);
    } else {
      var m1, sid := WithSystem(m, c.sys), Sid(SystemOf(m, c.sys), c.frame);
      QuietSame(m, m1);
      if c.SmEnd? {
        QuietEnded(m1, c.now, c.cpu, sid, c.sm);
      } else if c.State? {
        QuietEntering(m1, c.now, c.cpu, c.st, sid, c.expl, c.flags);
        QuietSame(m, m);
      } else {
        QuietSyscall(m1, c.now, c.cpu, c.lsm, sid, c.ends, c.sm);
      }
      QuietTwice(m, m1, Performed(m, c).m);
    }
  }

  // ---------------------------------------------------------------- calls on queues

  lemma FollowsTwice(m: Model, mid: Model, after: Model)
    requires Follows(m, mid) && Follows(mid, after)
    ensures Follows(m, after)
  {
    ExtendsTwice(m.lines, mid.lines, after.lines);
  }

  lemma FollowsQuiet(m: Model, after: Model)
    requires Quiet(m, after)
    ensures Follows(m, after)
  {
    if Faithful(m) {
      QuietFaithful(m, after);
    }
  }

  // A queue that is not there yet is empty.
  lemma FollowsSame(m: Model, after: Model)
    requires after.lines == m.lines && (after.queues == m.queues || after.queues == m.queues + [[]])
    ensures Follows(m, after)
  {
    forall q
      ensures QueueOf(after, q) == QueueOf(m, q)
    {}
  }

  // A line says what is done to its queue.
  lemma FollowsLine(m: Model, q: int, l: Line, s: seq<nat>)
    requires 1 <= q <= |m.queues| && l.stq == q && QueueOp(l.op) && s == Rebuild(QueueOf(m, q), |m.lines|, l, q)
    ensures Follows(m, Recorded(WithBytes(m, q, s), l))
  {
    var after := Recorded(WithBytes(m, q, s), l);
    if Faithful(m) {
      forall p
        ensures QueueOf(after, p) == Rebuilt(after.lines, p)
      {
        RebuiltAdd(m.lines, l, p);
        assert QueueOf(m, p) == Rebuilt(m.lines, p);
      }
    }
  }

  lemma FollowsPut(m: Model, now: nat, flags: nat, cpu: int, sm: int, q: int, count: int)
    requires 1 <= q <= |m.queues|
    ensures Follows(m, Put(m, now, flags, cpu, sm, q, count))
  {
    FollowsLine(m, q, QueueLine(now, OpQueue, flags, cpu, sm, q, count),
                Joined(QueueOf(m, q), Run(|m.lines|, count), HasFlag(flags, FlagOpposite)));
  }

  lemma FollowsDrawn(m: Model, now: nat, flags: nat, cpu: int, sm: int, q: int, count: int)
    requires 1 <= q <= |m.queues|
    ensures Follows(m, Drawn(m, now, flags, cpu, sm, q, count).m)
  {
    var s := QueueOf(m, q);
    if count <= |s| {
      FollowsLine(m, q, QueueLine(now, OpDequeue, flags, cpu, sm, q, count),
                  if 0 <= count <= |s| then s[count..] else []);
    } else {
      FollowsSame(m, m);
    }
  }

  lemma FollowsSize(m: Model, now: nat, cpu: int, sm: int, q: int, size: int)
    requires 1 <= q <= |m.queues|
    ensures Follows(m, SizeSet(m, now, cpu, sm, q, size))
  {
    var s := QueueOf(m, q);
    if |s| < size {
      FollowsPut(m, now, 0, cpu, sm, q, size - |s|);
    } else if |s| > size {
      FollowsLine(m, q, QueueLine(now, OpSizeQueue, 0, cpu, sm, q, size), s[..if size > 0 then size else 0]);
    } else {
      FollowsSame(m, m);
    }
  }

  lemma FollowsResized(m: Model, now: nat, cpu: int, sm: int, q: int, size: int, flags: nat)
    requires 1 <= q <= |m.queues|
    ensures Follows(m, Resized(m, now, cpu, sm, q, size, flags))
  {
    if HasFlag(flags, FlagReset) {
      var m1 := Cleared(m, now, cpu, sm, q, 0);
      FollowsLine(m, q, QueueLine(now, OpSizeQueue, 0, cpu, sm, q, 0), []);
      FollowsSize(m1, now, cpu, sm, q, size);
      FollowsTwice(m, m1, Resized(m, now, cpu, sm, q, size, flags));
    } else {
      FollowsSize(m, now, cpu, sm, q, size);
    }
  }

  lemma FollowsQueued(m: Model, now: nat, cpu: int, id: Id, sid: Sid, count: int)
    requires QueueReady(m, sid.sys, id)
    ensures Follows(m, Queued(m, now, cpu, id, sid, count))
  {
    var m1, q := WithQueue(Calm(m, sid), sid.sys, id), NumberOf(m.qns, sid.sys, id);
    FollowsSame(m, m1);
    FollowsSame(m, m);
    FollowsPut(m1, now, 0, cpu, Top(StackOf(m.stacks, sid)), q, count);
    FollowsTwice(m, m1, Put(m1, now, 0, cpu, Top(StackOf(m.stacks, sid)), q, count));
  }

  lemma FollowsDequeued(m: Model, now: nat, cpu: int, id: Id, sid: Sid, count: int)
    requires QueueReady(m, sid.sys, id)
    ensures Follows(m, Dequeued(m, now, cpu, id, sid, count).m)
  {
    var m1, q := Calm(WithQueue(m, sid.sys, id), sid), NumberOf(m.qns, sid.sys, id);
    FollowsSame(m, m1);
    FollowsSame(m, m);
    FollowsDrawn(m1, now, 0, cpu, Top(StackOf(m.stacks, sid)), q, count);
    FollowsTwice(m, m1, Drawn(m1, now, 0, cpu, Top(StackOf(m.stacks, sid)), q, count).m);
  }

  lemma FollowsSized(m: Model, now: nat, cpu: int, id: Id, sid: Sid, size: int, flags: nat)
    requires QueueReady(m, sid.sys, id)
    ensures Follows(m, SizedTo(m, now, cpu, id, sid, size, flags))
  {
    var m1, q := WithQueue(m, sid.sys, id), NumberOf(m.qns, sid.sys, id);
    FollowsSame(m, m1);
    FollowsSame(m, m);
    FollowsResized(m1, now, cpu, Top(StackOf(m.stacks, sid)), q, size, flags);
    FollowsTwice(m, m1, Resized(m1, now, cpu, Top(StackOf(m.stacks, sid)), q, size, flags));
  }

  lemma SystemKeeps(m: Model, s: nat, after: Model)
    requires after == WithSystem(m, s)
    ensures after.lines == m.lines && after.queues == m.queues
  {}

  lemma FollowsQueueMachine(m: Model, sys: int, sm: Id, qsys: int, id: Id, after: Model)
    requires QueueReady(m, qsys, id) && after == WithMachine(WithQueue(m, qsys, id), sys, sm)
    ensures Follows(m, after) && 1 <= NumberOf(m.qns, qsys, id) <= |after.queues|
  {
    FollowsSame(m, after);
  }

  lemma FollowsBoth(m: Model, sys: nat, machine: Id, qsys: nat, id: Id, after: Model)
    requires BothReady(m, sys, qsys, id) && after == Both(m, sys, machine, qsys, id)
    ensures Follows(m, after) && 1 <= HwQueue(m, sys, qsys, id) <= |after.queues|
  {
    var m1 := WithSystem(m, sys);
    var m2 := WithSystem(m1, qsys);
    SystemKeeps(m, sys, m1);
    SystemKeeps(m1, qsys, m2);
    FollowsQueueMachine(m2, SystemOf(m2, sys), machine, SystemOf(m2, qsys), id, after);
    FollowsSame(m, m2);
    FollowsTwice(m, m2, after);
  }

  lemma FollowsHwPut(m: Model, now: nat, flags: nat, sys: nat, machine: Id, qsys: nat, id: Id, count: int)
    requires BothReady(m, sys, qsys, id)
    ensures Follows(m, HwPut(m, now, flags, sys, machine, qsys, id, count))
  {
    var both, q, sm := Both(m, sys, machine, qsys, id), HwQueue(m, sys, qsys, id), HwMachine(m, sys, machine, qsys);
    FollowsBoth(m, sys, machine, qsys, id, both);
    FollowsPut(both, now, Hardware(flags), 0, sm, q, count);
    FollowsTwice(m, both, Put(both, now, Hardware(flags), 0, sm, q, count));
  }

  lemma FollowsHwDrawn(m: Model, now: nat, flags: nat, sys: nat, machine: Id, qsys: nat, id: Id, count: int)
    requires BothReady(m, sys, qsys, id)
    ensures Follows(m, HwDrawn(m, now, flags, sys, machine, qsys, id, count).m)
  {
    var both, q, sm := Both(m, sys, machine, qsys, id), HwQueue(m, sys, qsys, id), HwMachine(m, sys, machine, qsys);
    FollowsBoth(m, sys, machine, qsys, id, both);
    FollowsDrawn(both, now, Hardware(flags), 0, sm, q, count);
    FollowsTwice(m, both, Drawn(both, now, Hardware(flags), 0, sm, q, count).m);
  }

  // ---------------------------------------------------------------- every call, every run

  lemma FollowsMachineCall(m: Model, c: Call)
    requires Tidy(m) && Possible(m, c) && (c.SmBegin? || c.SmEnd? || c.State? || c.SyscallLink?)
    ensures Tidy(Performed(m, c).m) && Follows(m, Performed(m, c).m)
  {
    QuietCall(m, c);
    FollowsQuiet(m, Performed(m, c).m);
    if c.SmBegin? {
      TidyBegan(m, c.now, c.sys, c.cpu, c.id, c.flags, c.frame, c.st);
    } else if c.SmEnd? {
      TidySmEnd(m, c.now, c.sys, c.cpu, c.sm, c.frame);
    } else if c.State? {
      TidySwBegin(m, c.now, c.sys, c.cpu, c.st, c.frame, c.expl, c.flags);
    } else {
      TidySyscallLink(m, c.now, c.sys, c.cpu, c.lsm, c.frame, c.ends, c.sm);
    }
  }

  lemma FollowsQueueCall(m: Model, c: Call)
    requires Tidy(m) && Possible(m, c) && (c.Q? || c.Dq? || c.Sq?)
    ensures Tidy(Performed(m, c).m) && Follows(m, Performed(m, c).m)
  {
    var m1, sid := WithSystem(m, c.sys), Sid(SystemOf(m, c.sys), c.frame);
    FollowsSame(m, m1);
    if c.Q? {
      TidySwQ(m, c.now, c.sys, c.cpu, c.id, c.frame, c.count);
      FollowsQueued(m1, c.now, c.cpu, c.id, sid, c.count);
    } else if c.Dq? {
      TidySwDq(m, c.now, c.sys, c.cpu, c.id, c.frame, c.count);
      FollowsDequeued(m1, c.now, c.cpu, c.id, sid, c.count);
    } else {
      TidySwSq(m, c.now, c.sys, c.cpu, c.id, c.frame, c.size, c.flags);
      FollowsSized(m1, c.now, c.cpu, c.id, sid, c.size, c.flags);
    }
    FollowsTwice(m, m1, Performed(m, c).m);
  }

  lemma FollowsHardwareCall(m: Model, c: Call)
    requires Tidy(m) && Possible(m, c) && (c.HwQ? || c.HwDq?)
    ensures Tidy(Performed(m, c).m) && Follows(m, Performed(m, c).m)
  {
    if c.HwQ? {
      TidyHwPut(m, c.now, c.flags, c.sys, c.machine, c.qsys, c.id, c.count);
      FollowsHwPut(m, c.now, c.flags, c.sys, c.machine, c.qsys, c.id, c.count);
    } else {
      TidyHwDrawn(m, c.now, c.flags, c.sys, c.machine, c.qsys, c.id, c.count);
      FollowsHwDrawn(m, c.now, c.flags, c.sys, c.machine, c.qsys, c.id, c.count);
    }
  }

  lemma EveryCall(m: Model, c: Call)
    requires Tidy(m) && Possible(m, c)
    ensures Tidy(Performed(m, c).m) && Follows(m, Performed(m, c).m)
  {
    if c.HwQ? || c.HwDq? {
      FollowsHardwareCall(m, c);
    } else if c.Q? || c.Dq? || c.Sq? {
      FollowsQueueCall(m, c);
    } else {
      FollowsMachineCall(m, c);
    }
  }

  // The run goes on from o as it went on from m.
  lemma Onward(m: Model, calls: seq<Call>, o: Outcome)
    requires calls != [] && AllPossible(m, calls) && o == Performed(m, calls[0])
    ensures Possible(m, calls[0])
    ensures o.Alive? ==> AllPossible(o.m, calls[1..]) && Played(m, calls) == Played(o.m, calls[1..])
    ensures o.Dead? ==> Played(m, calls) == o
  {}

  /** Over every run, numbers, stacks and links stay in order, lines stay as they were made but for
      the targets of open links, and the lines tell what is in every queue. */
  lemma {:induction false} EveryRun(m: Model, calls: seq<Call>)
    requires Tidy(m) && AllPossible(m, calls)
    ensures Tidy(Played(m, calls).m) && Follows(m, Played(m, calls).m)
    decreases |calls|
  {
    if calls == [] {
      FollowsSame(m, m);
    } else {
      var o := Performed(m, calls[0]);
      EveryCall(m, calls[0]);
      if o.Alive? {
        EveryRun(o.m, calls[1..]);
        FollowsTwice(m, o.m, Played(m, calls).m);
      }
    }
  }

  /** From the start: whoever reads the lines in order knows every queue, byte by byte. */
  lemma LinesTellQueues(calls: seq<Call>, q: int)
    requires AllPossible(Nothing, calls)
    ensures QueueOf(Played(Nothing, calls).m, q) == Rebuilt(Played(Nothing, calls).m.lines, q)
  {
    NothingTidy();
    EveryRun(Nothing, calls);
    assert Faithful(Nothing);
  }

  // ---------------------------------------------------------------- ignored symbols

  /** No name without a terminator inside is ever ignored, so the list works if and only if the name is
      not on it. */
  lemma IgnoredRightIff(st: string)
    requires '\0' !in st
    ensures !Ignored(st) && ((Ignored(st) <==> ToIgnore(st)) <==> !ToIgnore(st))
  {
    forall k | 0 <= k < |IgnoreSymbols|
      ensures !(InTable(IgnoreSymbols[k]) <= st)
    {
      var t := InTable(IgnoreSymbols[k]);
      assert t[|t| - 1] == '\0';
    }
  }

  /** "_spin_lock" begins with an entry of the list and is not ignored. */
  lemma SpinNotIgnored()
    ensures ToIgnore("_spin_lock") && !Ignored("_spin_lock")
  {
    assert IgnoreSymbols[3] <= "_spin_lock";
    IgnoredRightIff("_spin_lock");
  }
}
