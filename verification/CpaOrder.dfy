/**
 Queues keep the order in which their bytes were queued: in every run in which no hardware call adds bytes
 in front, the line numbers in each queue never decrease, so what is taken first was queued first.
 */
module CpaOrder {
  import opened AnnotateLog
  import opened AnnotateNames
  import opened AnnotateStacks
  import opened CpaCalls
  import opened CpaEffects
  import opened CpaModel
  import opened CpaRuns
  import opened CpaTidy

  lemma BackSorted(s: seq<nat>, n: nat, count: int)
    requires Sorted(s) && Below(s, n)
    ensures Sorted(s + Copies(n, count)) && Below(s + Copies(n, count), n + 1)
    ensures count <= 0 ==> s + Copies(n, count) == s
  {}

  lemma FrontSorted(s: seq<nat>, n: nat, count: int)
    requires Sorted(s) && Below(s, n) && count > 0
    ensures Sorted(Copies(n, count) + s) <==> s == []
    ensures s == [] ==> Below(Copies(n, count) + s, n + 1)
  {
    var all := Copies(n, count) + s;
    if s != [] {
      assert all[0] == n && all[count] == s[0];
    }
  }

  lemma SizedSorted(s: seq<nat>, n: nat, size: int)
    requires Sorted(s) && Below(s, n)
    ensures Sorted(Sized(s, n, size)) && Below(Sized(s, n, size), if |s| < size then n + 1 else n)
  {
    if |s| < size {
      BackSorted(s, n, size - |s|);
    }
  }

  lemma InOrderSame(m: Model, after: Model)
    requires OldestFirst(m) && |after.lines| >= |m.lines| && after.queues == m.queues
    ensures OldestFirst(after)
  {
    forall q
      ensures Sorted(QueueOf(after, q)) && Below(QueueOf(after, q), |after.lines|)
    {
      assert QueueOf(after, q) == QueueOf(m, q);
    }
  }

  lemma InOrderSet(m: Model, after: Model, q: int, s: seq<nat>)
    requires OldestFirst(m) && Holds(m, after, q, s) && |after.lines| >= |m.lines|
    requires Sorted(s) && Below(s, |after.lines|)
    ensures OldestFirst(after)
  {
    forall p
      ensures Sorted(QueueOf(after, p)) && Below(QueueOf(after, p), |after.lines|)
    {
      assert Sorted(QueueOf(m, p)) && Below(QueueOf(m, p), |m.lines|);
    }
  }

  // ---------------------------------------------------------------- calls

  lemma QueueInOrder(m: Model, c: Call, sid: Sid, q: int, after: Model)
    requires c.Q? && QueueEffect(m, c, sid, q, after) && OldestFirst(m)
    ensures OldestFirst(after)
  {
    if StackOf(m.stacks, sid) != [] {
      var s := QueueOf(m, q);
      assert Sorted(s) && Below(s, |m.lines|);
      BackSorted(s, |m.lines|, c.count);
      InOrderSet(m, after, q, s + Copies(|m.lines|, c.count));
    }
  }

  lemma RestInOrder(m: Model, after: Model, q: int, dead: bool, count: int)
    requires OldestFirst(m) && |after.lines| >= |m.lines| && (!dead ==> count <= |QueueOf(m, q)|)
    requires Holds(m, after, q, if dead then QueueOf(m, q) else if count < 0 then [] else QueueOf(m, q)[count..])
    ensures OldestFirst(after)
  {
    var s := QueueOf(m, q);
    assert Sorted(s) && Below(s, |m.lines|);
    InOrderSet(m, after, q, if dead then s else if count < 0 then [] else s[count..]);
  }

  lemma SizeInOrder(m: Model, c: Call, sid: Sid, q: int, after: Model)
    requires c.Sq? && SizeEffect(m, c, sid, q, after) && OldestFirst(m)
    ensures OldestFirst(after)
  {
    if StackOf(m.stacks, sid) != [] {
      var reset := c.flags / 32 % 2 == 1;
      var s := if reset then [] else QueueOf(m, q);
      var n := if reset then |m.lines| + 1 else |m.lines|;
      assert Sorted(QueueOf(m, q)) && Below(QueueOf(m, q), |m.lines|);
      SizedSorted(s, n, c.size);
      InOrderSet(m, after, q, Sized(s, n, c.size));
    }
  }

  lemma HwQueueInOrder(m: Model, c: Call, v: int, q: int, after: Model)
    requires c.HwQ? && AtBack(c) && HwQueueEffect(m, c, v, q, after) && OldestFirst(m)
    ensures OldestFirst(after)
  {
    var s := QueueOf(m, q);
    assert Sorted(s) && Below(s, |m.lines|);
    BackSorted(s, |m.lines|, c.count);
    InOrderSet(m, after, q, s + Copies(|m.lines|, c.count));
  }

  /** Bytes that are added in front are in order if and only if the queue was empty. */
  lemma FrontInOrderIff(m: Model, c: Call, v: int, q: int, after: Model)
    requires c.HwQ? && c.flags / 4 % 2 == 1 && c.count > 0 && HwQueueEffect(m, c, v, q, after) && OldestFirst(m)
    ensures OldestFirst(after) <==> QueueOf(m, q) == []
  {
    var s, front := QueueOf(m, q), Copies(|m.lines|, c.count);
    assert Sorted(s) && Below(s, |m.lines|);
    assert QueueOf(after, q) == front + s;
    FrontSorted(s, |m.lines|, c.count);
    if s == [] {
      InOrderSet(m, after, q, front + s);
    }
  }

  lemma EndLonger(m: Model, now: nat, cpu: int, sid: Sid, name: string, after: Model)
    requires EndEffect(m, now, cpu, sid, name, after)
    ensures |after.lines| >= |m.lines| && after.queues == m.queues
  {}

  lemma LinkLonger(m: Model, c: Call, sid: Sid, after: Model)
    requires c.SyscallLink? && LinkEffect(m, c, sid, after)
    ensures |after.lines| >= |m.lines| && after.queues == m.queues
  {
    var stack := StackOf(m.stacks, sid);
    if stack != [] && c.ends {
      var mid := m.(lines := m.lines + [Line(c.now, 0, stack[|stack| - 1], 65535, 10, 0, c.cpu)],
                    waiting := m.waiting[sid.sys - 1 := m.waiting[sid.sys - 1][Id(c.lsm, c.frame) := |m.lines|]]);
      EndLonger(mid, c.now, c.cpu, sid, c.sm, after);
    }
  }

  lemma BeginLonger(m: Model, c: Call, sid: Sid, v: int, n: int, after: Model)
    requires c.SmBegin? && BeginEffect(m, c, sid, v, n, after)
    ensures |after.lines| >= |m.lines| && after.queues == m.queues
  {}

  lemma MachineLonger(m: Model, c: Call, m1: Model, sid: Sid, after: Model)
    requires Tidy(m) && Possible(m, c) && (c.SmBegin? || c.SmEnd? || c.State? || c.SyscallLink?)
    requires m1 == WithSystem(m, c.sys) && At(m1, c, sid) && after == Performed(m, c).m
    ensures |after.lines| >= |m.lines| && after.queues == m.queues
  {
    if c.SmBegin? {
      var v, n := BeginCall(m, c, m1, sid, after);
      BeginLonger(m1, c, sid, v, n, after);
    } else if c.SmEnd? {
      EndCall(m, c, m1, sid, after);
      EndLonger(m1, c.now, c.cpu, sid, c.sm, after);
    } else if c.State? {
      var n := StateCall(m, c, m1, sid, after);
    } else {
      LinkCall(m, c, m1, sid, after);
      LinkLonger(m1, c, sid, after);
    }
  }

  lemma QueuesInOrder(m: Model, c: Call, m1: Model, sid: Sid, after: Model)
    requires Tidy(m) && Possible(m, c) && (c.Q? || c.Dq? || c.Sq?) && OldestFirst(m1)
    requires m1 == WithSystem(m, c.sys) && At(m1, c, sid) && after == Performed(m, c).m
    ensures OldestFirst(after)
  {
    if c.Q? {
      var q := QueueCall(m, c, m1, sid, after);
      QueueInOrder(m1, c, sid, q, after);
    } else if c.Dq? {
      var q := DequeueCall(m, c, m1, sid, Performed(m, c));
      if StackOf(m1.stacks, sid) != [] {
        RestInOrder(m1, after, q, Performed(m, c).Dead?, c.count);
      }
    } else {
      var q := SizeCall(m, c, m1, sid, after);
      SizeInOrder(m1, c, sid, q, after);
    }
  }

  lemma HardwareInOrder(m: Model, c: Call, m1: Model, after: Model)
    requires Tidy(m) && (c.HwQ? || c.HwDq?) && AtBack(c) && OldestFirst(m1)
    requires m1 == WithSystem(WithSystem(m, c.sys), c.qsys) && after == Performed(m, c).m
    ensures OldestFirst(after)
  {
    if c.HwQ? {
      var v, q := HwQueueCall(m, c, m1, after);
      HwQueueInOrder(m1, c, v, q, after);
    } else {
      var v, q := HwDequeueCall(m, c, m1, Performed(m, c));
      RestInOrder(m1, after, q, Performed(m, c).Dead?, c.count);
    }
  }

  lemma NumberedInOrder(m: Model, sys: nat, m1: Model)
    requires m1 == WithSystem(m, sys) && OldestFirst(m)
    ensures sys in m1.systems && OldestFirst(m1) && m1.queues == m.queues
  {
    InOrderSame(m, m1);
  }

  lemma CallInOrder(m: Model, c: Call, after: Model)
    requires Tidy(m) && Possible(m, c) && AtBack(c) && after == Performed(m, c).m && OldestFirst(m)
    ensures OldestFirst(after)
  {
    var m1 := WithSystem(m, c.sys);
    NumberedInOrder(m, c.sys, m1);
    if c.HwQ? || c.HwDq? {
      NumberedInOrder(m1, c.qsys, WithSystem(m1, c.qsys));
      HardwareInOrder(m, c, WithSystem(m1, c.qsys), after);
    } else {
      var sid := Sid(m1.systems[c.sys], c.frame);
      if c.Q? || c.Dq? || c.Sq? {
        QueuesInOrder(m, c, m1, sid, after);
      } else {
        MachineLonger(m, c, m1, sid, after);
        InOrderSame(m, after);
      }
    }
  }

  lemma {:induction false} RunInOrder(m: Model, calls: seq<Call>)
    requires Tidy(m) && AllPossible(m, calls) && AllAtBack(calls) && OldestFirst(m)
    ensures OldestFirst(Played(m, calls).m)
    decreases |calls|
  {
    if calls != [] {
      var o := Performed(m, calls[0]);
      Onward(m, calls, o);
      EveryCall(m, calls[0]);
      CallInOrder(m, calls[0], o.m);
      if o.Alive? {
        RunInOrder(o.m, calls[1..]);
      }
    }
  }

  /** From nothing, every queue is in the order in which its bytes were queued. */
  lemma QueuesStayInOrder(calls: seq<Call>, end: Model)
    requires AllPossible(Nothing, calls) && AllAtBack(calls) && end == Played(Nothing, calls).m
    ensures Tidy(end) && OldestFirst(end)
  {
    NothingTidy();
    EveryRun(Nothing, calls);
    RunInOrder(Nothing, calls);
  }

  // ---------------------------------------------------------------- oldest first

  lemma RestIsYounger(s: seq<nat>, count: int, rest: seq<nat>)
    requires Sorted(s) && count <= |s| && rest == if count < 0 then [] else s[count..]
    ensures OldestGone(s, rest) && |rest| == |s| - (if count < 0 then |s| else count)
  {
    assert s[|s|..] == [];
  }

  /** After any such run, a dequeue that does not fail takes the oldest bytes of its queue: as many as it
      asks for, or all. */
  lemma TakesOldest(calls: seq<Call>, before: Model, c: Call, m1: Model, sid: Sid, o: Outcome) returns (q: int)
    requires AllPossible(Nothing, calls) && AllAtBack(calls) && before == Played(Nothing, calls).m
    requires c.Dq? && m1 == WithSystem(before, c.sys) && At(m1, c, sid) && StackOf(m1.stacks, sid) != []
    requires o == Performed(before, c) && o.Alive?
    ensures IsQueue(o.m, sid.sys, c.id, q) && OldestGone(QueueOf(before, q), QueueOf(o.m, q))
    ensures |QueueOf(o.m, q)| == |QueueOf(before, q)| - if c.count < 0 then |QueueOf(before, q)| else c.count
  {
    QueuesStayInOrder(calls, before);
    q := DequeueCall(before, c, m1, sid, o);
    assert Sorted(QueueOf(before, q));
    RestIsYounger(QueueOf(before, q), c.count, QueueOf(o.m, q));
  }

  lemma HwRest(m: Model, c: Call, v: int, q: int, o: Outcome)
    requires c.HwDq? && HwDequeueEffect(m, c, v, q, o) && o.Alive? && OldestFirst(m)
    ensures c.qsys in m.systems && IsQueue(o.m, m.systems[c.qsys], c.id, q)
    ensures OldestGone(QueueOf(m, q), QueueOf(o.m, q))
    ensures |QueueOf(o.m, q)| == |QueueOf(m, q)| - if c.count < 0 then |QueueOf(m, q)| else c.count
  {
    assert Sorted(QueueOf(m, q));
    RestIsYounger(QueueOf(m, q), c.count, QueueOf(o.m, q));
  }

  lemma HwTakesOldest(calls: seq<Call>, before: Model, c: Call, m1: Model, o: Outcome) returns (q: int)
    requires AllPossible(Nothing, calls) && AllAtBack(calls) && before == Played(Nothing, calls).m
    requires c.HwDq? && m1 == WithSystem(WithSystem(before, c.sys), c.qsys) && o == Performed(before, c) && o.Alive?
    ensures c.qsys in m1.systems && IsQueue(o.m, m1.systems[c.qsys], c.id, q)
    ensures OldestGone(QueueOf(before, q), QueueOf(o.m, q))
    ensures |QueueOf(o.m, q)| == |QueueOf(before, q)| - if c.count < 0 then |QueueOf(before, q)| else c.count
  {
    QueuesStayInOrder(calls, before);
    NumberedInOrder(before, c.sys, WithSystem(before, c.sys));
    NumberedInOrder(WithSystem(before, c.sys), c.qsys, m1);
    var v;
    v, q := HwDequeueCall(before, c, m1, o);
    assert QueueOf(m1, q) == QueueOf(before, q);
    HwRest(m1, c, v, q, o);
  }
}
