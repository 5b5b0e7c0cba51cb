/**
 Links between machines over whole runs: a link that waits stays open exactly until the machine it
 waits for begins; and whatever happens between the begin and the end of a linked machine, its end
 links back to where the link came from.
 */
module CpaLinks {
  import opened AnnotateLog
  import opened AnnotateNames
  import opened AnnotateStacks
  import opened CpaLines
  import opened CpaModel
  import opened CpaRuns
  import opened CpaTidy

  // ---------------------------------------------------------------- links that wait

  // The line of the link that waits for a machine of this system, name and frame, or -1.
  function WaitingAt(m: Model, s: nat, key: Id): int {
    if s in m.systems then WaitingFor(m.waiting, m.systems[s], key) else -1
  }

  predicate Begins(c: Call, s: nat, key: Id) {
    c.SmBegin? && c.sys == s && Id(c.id.name, c.frame) == key
  }

  lemma SystemWaits(m: Model, sys: nat, after: Model, s: nat, key: Id)
    requires Tidy(m) && after == WithSystem(m, sys)
    ensures WaitingAt(after, s, key) == WaitingAt(m, s, key)
  {}

  lemma MetKeeps(m: Model, sys: int, other: Id, smi: int, s: nat, key: Id)
    requires s in m.systems && !(sys == m.systems[s] && other == key)
    ensures WaitingAt(Met(m, sys, other, smi), s, key) == WaitingAt(m, s, key)
  {}

  lemma StartedWaits(m: Model, now: nat, cpu: int, sid: Sid, id: Id, smi: int, link: bool, st: string, after: Model)
    requires after == Started(m, now, cpu, sid, id, smi, link, st)
    requires WaitingFor(m.waiting, sid.sys, Id(id.name, sid.frame)) < |m.lines|
    ensures SameWaiting(Met(m, sid.sys, Id(id.name, sid.frame), smi), after)
  {}

  lemma BeganKeeps(m: Model, now: nat, sys: nat, cpu: int, id: Id, flags: nat, frame: nat, st: string, s: nat, key: Id)
    requires Tidy(m) && MayBegin(m, sys, id, flags, frame)
    requires WaitingAt(m, s, key) != -1 && !(sys == s && Id(id.name, frame) == key)
    ensures WaitingAt(Began(m, now, sys, cpu, id, flags, frame, st), s, key) == WaitingAt(m, s, key)
  {
    var m1, sn := WithSystem(m, sys), SystemOf(m, sys);
    var m2, smi, other := WithMachine(m1, sn, id), NumberOf(m1.sms, sn, id), Id(id.name, frame);
    SystemWaits(m, sys, m1, s, key);
    TidySystem(m, sys);
    WaitingOpen(m1, sn, other);
    assert SameWaiting(m1, m2);
    StartedWaits(m2, now, cpu, Sid(sn, frame), id, smi, HasFlag(flags, FlagLink), st,
                 Began(m, now, sys, cpu, id, flags, frame, st));
    MetKeeps(m2, sn, other, smi, s, key);
  }

  // The machine that a link waits for begins: the link leads to it, and waits no longer.
  lemma StartedMeets(m: Model, now: nat, cpu: int, sid: Sid, id: Id, smi: int, link: bool, st: string, after: Model)
    requires after == Started(m, now, cpu, sid, id, smi, link, st)
    requires var k := WaitingFor(m.waiting, sid.sys, Id(id.name, sid.frame));
      0 <= k < |m.lines| && |m.lines| <= |after.lines|
    ensures var k := WaitingFor(m.waiting, sid.sys, Id(id.name, sid.frame));
      after.lines[k] == m.lines[k].(stq := smi) && WaitingFor(after.waiting, sid.sys, Id(id.name, sid.frame)) == -1
  {}

  lemma BeganMeets(m: Model, now: nat, sys: nat, cpu: int, id: Id, flags: nat, frame: nat, st: string)
    requires Tidy(m) && MayBegin(m, sys, id, flags, frame) && WaitingAt(m, sys, Id(id.name, frame)) != -1
    ensures var k, after := WaitingAt(m, sys, Id(id.name, frame)), Began(m, now, sys, cpu, id, flags, frame, st);
      && WaitingAt(after, sys, Id(id.name, frame)) == -1 && 0 <= k < |m.lines| <= |after.lines|
      && after.lines[k] == m.lines[k].(stq := NumberOf(m.sms, m.systems[sys], id))
  {
    var sn, key, after := m.systems[sys], Id(id.name, frame), Began(m, now, sys, cpu, id, flags, frame, st);
    var m1, smi := WithMachine(m, sn, id), NumberOf(m.sms, sn, id);
    WaitingOpen(m, sn, key);
    QuietBegan(m, now, sys, cpu, id, flags, frame, st);
    StartedMeets(m1, now, cpu, Sid(sn, frame), id, smi, HasFlag(flags, FlagLink), st, after);
    StartedWaits(m1, now, cpu, Sid(sn, frame), id, smi, HasFlag(flags, FlagLink), st, after);
  }

  lemma SyscallKeeps(m: Model, now: nat, cpu: int, lsm: string, sid: Sid, ends: bool, sm: string, s: nat, key: Id)
    requires WaitingAt(m, s, key) != -1 && MayLink(m, sid, Id(lsm, sid.frame))
    ensures WaitingAt(SyscallLinked(m, now, cpu, lsm, sid, ends, sm), s, key) == WaitingAt(m, s, key)
  {
    if StackOf(m.stacks, sid) != [] {
      var m1 := Opened(m, now, cpu, sid, Id(lsm, sid.frame));
      assert WaitingAt(m1, s, key) == WaitingAt(m, s, key);
      assert SameWaiting(m1, Ended(m1, now, cpu, sid, sm));
    }
  }

  // Other calls do not touch links that wait.
  lemma EndedWaits(m: Model, now: nat, cpu: int, sid: Sid, name: string)
    ensures SameWaiting(m, Ended(m, now, cpu, sid, name))
  {}

  lemma MovedWaits(m: Model, now: nat, flags: nat, cpu: int, smi: int, name: string, st: string)
    ensures SameLinks(m, Moved(m, now, flags, cpu, smi, name, st))
  {}

  lemma EnteringWaits(m: Model, now: nat, cpu: int, st: string, sid: Sid, expl: bool, flags: nat)
    ensures SameLinks(m, Entering(m, now, cpu, st, sid, expl, flags))
  {
    var smi := Top(StackOf(m.stacks, sid));
    MovedWaits(Explicit(m, sid, expl), now, flags, cpu, smi, NameOf(m, smi), st);
  }

  lemma BothWaits(m: Model, sys: int, machine: Id, qsys: int, id: Id)
    ensures SameLinks(m, WithMachine(WithQueue(m, qsys, id), sys, machine))
  {}

  lemma OnlyWaits(m: Model, mid: Model, after: Model)
    requires SameLinks(m, mid) && OnlyQueues(mid, after)
    ensures SameLinks(m, after)
  {}

  lemma QueuedWaits(m: Model, now: nat, cpu: int, id: Id, sid: Sid, count: int)
    ensures SameLinks(m, Queued(m, now, cpu, id, sid, count))
  {
    var m1, q := WithQueue(Calm(m, sid), sid.sys, id), NumberOf(m.qns, sid.sys, id);
    if StackOf(m.stacks, sid) != [] && count != 0 {
      PutOnly(m1, now, 0, cpu, Top(StackOf(m.stacks, sid)), q, count);
      OnlyWaits(m, m1, Queued(m, now, cpu, id, sid, count));
    }
  }

  lemma DequeuedWaits(m: Model, now: nat, cpu: int, id: Id, sid: Sid, count: int)
    ensures SameLinks(m, Dequeued(m, now, cpu, id, sid, count).m)
  {
    var m1, q := Calm(WithQueue(m, sid.sys, id), sid), NumberOf(m.qns, sid.sys, id);
    if StackOf(m.stacks, sid) != [] {
      TakenOnly(m1, now, 0, cpu, Top(StackOf(m.stacks, sid)), q, count);
      OnlyWaits(m, m1, Dequeued(m, now, cpu, id, sid, count).m);
    }
  }

  lemma SizedWaits(m: Model, now: nat, cpu: int, id: Id, sid: Sid, size: int, flags: nat)
    ensures SameLinks(m, SizedTo(m, now, cpu, id, sid, size, flags))
  {
    var m1, q := WithQueue(m, sid.sys, id), NumberOf(m.qns, sid.sys, id);
    if StackOf(m.stacks, sid) != [] {
      ResizedOnly(m1, now, cpu, Top(StackOf(m.stacks, sid)), q, size, flags);
      OnlyWaits(m, m1, SizedTo(m, now, cpu, id, sid, size, flags));
    }
  }

  lemma HardwareWaits(m: Model, c: Call, m2: Model, after: Model)
    requires (c.HwQ? || c.HwDq?) && m2 == WithSystem(WithSystem(m, c.sys), c.qsys) && after == Performed(m, c).m
    ensures SameLinks(m2, after)
  {
    var both, q := Both(m, c.sys, c.machine, c.qsys, c.id), HwQueue(m, c.sys, c.qsys, c.id);
    var sm := HwMachine(m, c.sys, c.machine, c.qsys);
    BothWaits(m2, SystemOf(m2, c.sys), c.machine, SystemOf(m2, c.qsys), c.id);
    if c.HwQ? {
      PutOnly(both, c.now, Hardware(c.flags), 0, sm, q, c.count);
    } else {
      TakenOnly(both, c.now, Hardware(c.flags), 0, sm, q, c.count);
    }
    OnlyWaits(m2, both, after);
  }

  lemma OthersWait(m: Model, c: Call, after: Model)
    requires (c.State? && !Ignored(c.st)) || c.Q? || c.Dq? || c.Sq?
    requires after == Performed(m, c).m
    ensures SameLinks(WithSystem(m, c.sys), after)
  {
    var m1, sid := WithSystem(m, c.sys), Sid(SystemOf(m, c.sys), c.frame);
    if c.State? {
      EnteringWaits(m1, c.now, c.cpu, c.st, sid, c.expl, c.flags);
    } else if c.Q? {
      QueuedWaits(m1, c.now, c.cpu, c.id, sid, c.count);
    } else if c.Dq? {
      DequeuedWaits(m1, c.now, c.cpu, c.id, sid, c.count);
    } else {
      SizedWaits(m1, c.now, c.cpu, c.id, sid, c.size, c.flags);
    }
  }

  lemma CallKeeps(m: Model, c: Call, after: Model, s: nat, key: Id)
    requires Tidy(m) && Possible(m, c) && after == Performed(m, c).m && WaitingAt(m, s, key) != -1 && !Begins(c, s, key)
    ensures WaitingAt(after, s, key) == WaitingAt(m, s, key)
  {
    var m1 := WithSystem(m, c.sys);
    SystemWaits(m, c.sys, m1, s, key);
    if c.SmBegin? {
      BeganKeeps(m, c.now, c.sys, c.cpu, c.id, c.flags, c.frame, c.st, s, key);
    } else if c.SyscallLink? {
      SyscallKeeps(m1, c.now, c.cpu, c.lsm, Sid(SystemOf(m, c.sys), c.frame), c.ends, c.sm, s, key);
    } else if c.SmEnd? {
      EndedWaits(m1, c.now, c.cpu, Sid(SystemOf(m, c.sys), c.frame), c.sm);
    } else if c.HwQ? || c.HwDq? {
      TidySystem(m, c.sys);
      SystemWaits(m1, c.qsys, WithSystem(m1, c.qsys), s, key);
      HardwareWaits(m, c, WithSystem(m1, c.qsys), after);
    } else if !(c.State? && Ignored(c.st)) {
      OthersWait(m, c, after);
    }
  }

  // While a link waits its line is open.
  lemma StaysOpen(m: Model, after: Model, s: nat, key: Id)
    requires Tidy(m) && Tidy(after) && Extends(m.lines, after.lines)
    requires WaitingAt(m, s, key) != -1 && WaitingAt(after, s, key) == WaitingAt(m, s, key)
    ensures Fate(m.lines, after.lines, WaitingAt(m, s, key), false)
  {
    var k := WaitingAt(m, s, key);
    WaitingOpen(m, m.systems[s], key);
    WaitingOpen(after, after.systems[s], key);
    assert LineKept(m.lines[k], after.lines[k]);
  }

  // Some call begins a machine of this system, name and frame.
  predicate BegunIn(calls: seq<Call>, s: nat, key: Id) {
    exists i :: 0 <= i < |calls| && Begins(calls[i], s, key)
  }

  lemma BegunLater(calls: seq<Call>, s: nat, key: Id)
    requires calls != [] && !Begins(calls[0], s, key)
    ensures BegunIn(calls, s, key) == BegunIn(calls[1..], s, key)
  {
    forall i | 0 <= i < |calls| && Begins(calls[i], s, key)
      ensures BegunIn(calls[1..], s, key)
    {
      assert calls[i] == calls[1..][i - 1];
    }
    forall i | 0 <= i < |calls[1..]| && Begins(calls[1..][i], s, key)
      ensures BegunIn(calls, s, key)
    {
      assert calls[i + 1] == calls[1..][i];
    }
  }

  lemma BegunNow(m: Model, c: Call, after: Model, s: nat, key: Id)
    requires Tidy(m) && Possible(m, c) && after == Performed(m, c).m && WaitingAt(m, s, key) != -1 && Begins(c, s, key)
    ensures Fate(m.lines, after.lines, WaitingAt(m, s, key), true)
  {
    WaitingOpen(m, m.systems[s], key);
    BeganMeets(m, c.now, c.sys, c.cpu, c.id, c.flags, c.frame, c.st);
    BeginReady(m, c.sys, c.id, c.flags, c.frame);
  }

  // What the link has become stays.
  lemma ClosedOn(lines: seq<Line>, m: Model, calls: seq<Call>, k: int, end: Outcome)
    requires Tidy(m) && AllPossible(m, calls) && end == Played(m, calls) && Fate(lines, m.lines, k, true)
    ensures Fate(lines, end.m.lines, k, true)
  {
    EveryRun(m, calls);
    assert LineKept(m.lines[k], end.m.lines[k]);
  }

  // The run begins with another call.
  lemma BegunNotFirst(m: Model, calls: seq<Call>, s: nat, key: Id, o: Outcome)
    requires Tidy(m) && Tidy(o.m) && calls != [] && Possible(m, calls[0]) && o == Performed(m, calls[0])
    requires Extends(m.lines, o.m.lines) && WaitingAt(m, s, key) != -1 && !Begins(calls[0], s, key)
    ensures Fate(m.lines, o.m.lines, WaitingAt(m, s, key), false) && WaitingAt(o.m, s, key) == WaitingAt(m, s, key)
    ensures BegunIn(calls, s, key) == BegunIn(calls[1..], s, key)
  {
    CallKeeps(m, calls[0], o.m, s, key);
    StaysOpen(m, o.m, s, key);
    BegunLater(calls, s, key);
  }

  /** A link that waits is open at the end of a run if and only if the run does not begin the machine
      it waits for; and then its line is what it was, and it still waits. */
  lemma {:induction false} WaitsUntilBegun(m: Model, calls: seq<Call>, s: nat, key: Id, end: Outcome)
    requires Tidy(m) && AllPossible(m, calls) && end == Played(m, calls) && end.Alive? && WaitingAt(m, s, key) != -1
    ensures Fate(m.lines, end.m.lines, WaitingAt(m, s, key), BegunIn(calls, s, key))
    ensures !BegunIn(calls, s, key) ==> WaitingAt(end.m, s, key) == WaitingAt(m, s, key)
    decreases |calls|
  {
    if calls == [] {
      EveryRun(m, calls);
      StaysOpen(m, m, s, key);
    } else {
      var o := Performed(m, calls[0]);
      Onward(m, calls, o);
      EveryCall(m, calls[0]);
      if Begins(calls[0], s, key) {
        BegunNow(m, calls[0], o.m, s, key);
        ClosedOn(m.lines, o.m, calls[1..], WaitingAt(m, s, key), end);
      } else {
        BegunNotFirst(m, calls, s, key, o);
        WaitsUntilBegun(o.m, calls[1..], s, key, end);
      }
    }
  }
}
