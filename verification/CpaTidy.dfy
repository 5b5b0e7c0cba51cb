/**
 Every call keeps the tables, stacks and links of the annotator in order.
 */
module CpaTidy {
  import opened AnnotateLog
  import opened AnnotateNames
  import opened AnnotateQueue
  import opened AnnotateStacks
  import opened ByteQueue
  import opened CpaModel

  // ---------------------------------------------------------------- names

  lemma TidySystem(m: Model, s: nat)
    requires Tidy(m)
    ensures Tidy(WithSystem(m, s)) && 1 <= SystemOf(m, s) <= WithSystem(m, s).numSys
    ensures s in WithSystem(m, s).systems && WithSystem(m, s).systems[s] == SystemOf(m, s)
  {
    if s !in m.systems {
      DenseAdd(m.systems, m.numSys, s);
      AddSystemKeeps(m.sms);
      AddSystemKeeps(m.qns);
      HeldSystem(m.waiting, m.lines, m.sms.num);
    }
  }

  // This number and this name belong together.
  predicate IsMachine(m: Model, smi: int, sys: int, id: Id) {
    1 <= smi <= |m.sms.names| && smi <= m.sms.num && m.sms.names[smi - 1] == Entry(sys, id)
  }

  lemma TidyMachine(m: Model, sys: int, id: Id)
    requires Tidy(m) && 1 <= sys <= m.numSys && RoomFor(m.sms, sys, id)
    ensures Tidy(WithMachine(m, sys, id)) && IsMachine(WithMachine(m, sys, id), NumberOf(m.sms, sys, id), sys, id)
  {
    EnterKeeps(m.sms, sys, id);
    EnterMeaning(m.sms, sys, id);
    OwnMore(m.stacks, m.sms.names, Enter(m.sms, sys, id).names);
    HeldMore(m.waiting, m.lines, m.sms.num, Enter(m.sms, sys, id).num);
  }

  lemma TidyQueue(m: Model, sys: int, id: Id)
    requires Tidy(m) && 1 <= sys <= m.numSys
    ensures Tidy(WithQueue(m, sys, id)) && QueueReady(m, sys, id)
  {
    EnterKeeps(m.qns, sys, id);
    EnterMeaning(m.qns, sys, id);
  }

  // ---------------------------------------------------------------- single changes

  lemma TidyNoted(m: Model, l: Line)
    requires Tidy(m) && !OpenLine(l)
    ensures Tidy(Recorded(m, l))
  {
    HeldAdd(m.waiting, m.lines, m.sms.num, l);
  }

  lemma TidyState(m: Model, now: nat, flags: nat, cpu: int, smi: int, machine: string, st: string)
    requires Tidy(m)
    ensures Tidy(InState(m, now, flags, cpu, smi, machine, st)) && Tidy(m.(states := WithState(m.states, machine, st)))
  {
    WithStateKeeps(m.states, machine, st);
    var sti := StateNumber(m.states, machine, st);
    TidyNoted(m.(states := WithState(m.states, machine, st), last := m.last[smi := sti]),
              BeginLine(now, flags, cpu, smi, sti));
  }

  lemma TidyCalm(m: Model, expl: map<Sid, bool>)
    requires Tidy(m)
    ensures Tidy(m.(expl := expl))
  {}

  lemma TidyStack(m: Model, sid: Sid, stack: seq<int>, expl: map<Sid, bool>)
    requires Tidy(m) && Own(stack, sid.sys, m.sms.names)
    ensures Tidy(m.(stacks := m.stacks[sid := stack], expl := expl))
  {
    OwnSet(m.stacks, sid, stack, m.sms.names);
  }

  lemma TidyLn(m: Model, ln: map<int, int>)
    requires Tidy(m) && LinksBack(ln, m.sms.num)
    ensures Tidy(m.(ln := ln))
  {}

  // A machine on top of a stack is a machine.
  lemma TopIsMachine(m: Model, sid: Sid)
    requires Tidy(m) && StackOf(m.stacks, sid) != []
    ensures 1 <= Top(StackOf(m.stacks, sid)) <= m.sms.num && m.sms.num == |m.sms.names|
  {
    OwnStack(m.stacks, sid, m.sms.names);
  }

  // ---------------------------------------------------------------- machines begin

  lemma TidyBelow(m: Model, now: nat, cpu: int, sid: Sid, smi: int, link: bool)
    requires Tidy(m) && 1 <= smi <= m.sms.num
    ensures Tidy(LinkedBelow(m, now, cpu, sid, smi, link))
  {
    if Linking(m, sid, link) {
      TopIsMachine(m, sid);
      var top := Top(StackOf(m.stacks, sid));
      TidyLn(m, m.ln[smi := top]);
      TidyNoted(m.(ln := m.ln[smi := top]), LinkLine(now, cpu, top, smi));
    }
  }

  lemma TidyPushed(m: Model, sid: Sid, smi: int)
    requires Tidy(m) && 1 <= smi <= |m.sms.names| && m.sms.names[smi - 1].sys == sid.sys
    ensures Tidy(Pushed(m, sid, smi))
  {
    OwnStack(m.stacks, sid, m.sms.names);
    TidyStack(m, sid, StackOf(m.stacks, sid) + [smi], m.expl[sid := false]);
  }

  lemma WaitingOpen(m: Model, sys: int, key: Id)
    requires Tidy(m)
    ensures var k := WaitingFor(m.waiting, sys, key);
      k != -1 ==> 0 <= k < |m.lines| && OpenLine(m.lines[k]) && 1 <= m.lines[k].sm <= m.sms.num
  {
    var k := WaitingFor(m.waiting, sys, key);
    if 1 <= sys <= |m.waiting| && key in m.waiting[sys - 1] {
      assert LinkAt(m.waiting, sys - 1, key, k);
    }
  }

  lemma TidyMet(m: Model, sys: int, key: Id, smi: int)
    requires Tidy(m) && 1 <= smi <= m.sms.num
    ensures Tidy(Met(m, sys, key, smi))
  {
    var k := WaitingFor(m.waiting, sys, key);
    WaitingOpen(m, sys, key);
    if 0 <= k < |m.lines| {
      var l := m.lines[k].(stq := smi);
      HeldResolve(m.waiting, m.lines, m.sms.num, sys - 1, key, l);
    }
  }

  lemma TidyFirst(m: Model, now: nat, cpu: int, smi: int, machine: string, st: string)
    requires Tidy(m)
    ensures Tidy(FirstState(m, now, cpu, smi, machine, st))
  {
    if st != "" {
      TidyState(m, now, 0, cpu, smi, machine, st);
    }
  }

  lemma TidyStarted(m: Model, now: nat, cpu: int, sid: Sid, id: Id, smi: int, link: bool, st: string)
    requires Tidy(m) && IsMachine(m, smi, sid.sys, id)
    ensures Tidy(Started(m, now, cpu, sid, id, smi, link, st))
  {
    var m1 := LinkedBelow(m, now, cpu, sid, smi, link);
    var m2 := Pushed(m1, sid, smi);
    var m3 := Met(m2, sid.sys, Id(id.name, sid.frame), smi);
    TidyBelow(m, now, cpu, sid, smi, link);
    TidyPushed(m1, sid, smi);
    TidyMet(m2, sid.sys, Id(id.name, sid.frame), smi);
    TidyFirst(m3, now, cpu, smi, id.name, st);
  }

  lemma TidyBegan(m: Model, now: nat, sys: nat, cpu: int, id: Id, flags: nat, frame: nat, st: string)
    requires Tidy(m) && MayBegin(m, sys, id, flags, frame)
    ensures Tidy(Began(m, now, sys, cpu, id, flags, frame, st)) && BeginsReady(m, sys, id, flags, frame)
  {
    var m1, s := WithSystem(m, sys), SystemOf(m, sys);
    BeginReady(m, sys, id, flags, frame);
    TidySystem(m, sys);
    TidyMachine(m1, s, id);
    TidyStarted(WithMachine(m1, s, id), now, cpu, Sid(s, frame), id, NumberOf(m1.sms, s, id), HasFlag(flags, FlagLink), st);
  }

  lemma TidyReady(m: Model, sid: Sid, id: Id, key: Id, smi: int, link: bool)
    requires Tidy(m) && 1 <= sid.sys <= m.numSys && IsMachine(m, smi, sid.sys, id) && LinkFree(m, sid, key, smi, link)
    ensures Ready(m, sid.sys, key, smi)
  {
    WaitingOpen(m, sid.sys, key);
    NotWaiting(m, sid.sys, key);
  }

  // What a call that begins a machine finds.
  lemma BeginReady(m: Model, sys: nat, id: Id, flags: nat, frame: nat)
    requires Tidy(m) && MayBegin(m, sys, id, flags, frame)
    ensures BeginsReady(m, sys, id, flags, frame)
  {
    var m1, s := WithSystem(m, sys), SystemOf(m, sys);
    TidySystem(m, sys);
    TidyMachine(m1, s, id);
    TidyReady(WithMachine(m1, s, id), Sid(s, frame), id, Id(id.name, frame), NumberOf(m1.sms, s, id),
              HasFlag(flags, FlagLink));
  }

  // Linking and pushing leave the waiting link as it is.
  lemma ReadyBelow(m: Model, now: nat, cpu: int, sid: Sid, smi: int, link: bool, key: Id)
    requires Ready(m, sid.sys, key, smi) && LinkFree(m, sid, key, smi, link)
    ensures Ready(Pushed(LinkedBelow(m, now, cpu, sid, smi, link), sid, smi), sid.sys, key, smi)
  {}

  // ---------------------------------------------------------------- machines end

  lemma TidyBack(m: Model, now: nat, cpu: int, top: int)
    requires Tidy(m)
    ensures Tidy(LinkedBack(m, now, cpu, top))
  {
    if top in m.ln {
      TidyLn(m, m.ln - {top});
      TidyNoted(m.(ln := m.ln - {top}), LinkLine(now, cpu, top, m.ln[top]));
    }
  }

  lemma TidyReturned(m: Model, now: nat, cpu: int, sid: Sid, top: int)
    requires Tidy(m)
    ensures Tidy(Returned(m, now, cpu, sid, top))
  {
    if StackOf(m.stacks, sid) != [] {
      TidyNoted(m, BeginLine(now, 0, cpu, top, LastOf(m.last, top)));
    }
  }

  lemma TidyTop(m: Model, sid: Sid)
    requires Tidy(m) && StackOf(m.stacks, sid) != [] && 1 <= sid.sys <= m.numSys
    ensures TopReady(m, sid)
  {
    TopIsMachine(m, sid);
    TopFound(m.stacks, sid, m.sms);
  }

  lemma TidyEnded(m: Model, now: nat, cpu: int, sid: Sid, name: string)
    requires Tidy(m)
    ensures Tidy(Ended(m, now, cpu, sid, name))
  {
    var stack, quiet := StackOf(m.stacks, sid), m.(expl := m.expl[sid := false]);
    TidyCalm(m, m.expl[sid := false]);
    if OnTop(stack, m.sms.names, name) {
      OwnStack(m.stacks, sid, m.sms.names);
      TidyStack(quiet, sid, Popped(stack), quiet.expl);
      TidyBack(Dropped(quiet, sid), now, cpu, Top(stack));
      TidyReturned(LinkedBack(Dropped(quiet, sid), now, cpu, Top(stack)), now, cpu, sid, Top(stack));
    }
  }

  lemma TidyOpened(m: Model, now: nat, cpu: int, sid: Sid, key: Id)
    requires Tidy(m) && StackOf(m.stacks, sid) != [] && 1 <= sid.sys <= m.numSys
    requires WaitingFor(m.waiting, sid.sys, key) == -1
    ensures Tidy(Opened(m, now, cpu, sid, key))
  {
    TopIsMachine(m, sid);
    WaitingOpen(m, sid.sys, key);
    NotWaiting(m, sid.sys, key);
    HeldWait(m.waiting, m.lines, m.sms.num, sid.sys - 1, key, LinkLine(now, cpu, Top(StackOf(m.stacks, sid)), Unknown));
  }

  lemma NotWaiting(m: Model, sys: int, key: Id)
    requires Tidy(m) && 1 <= sys <= m.numSys
    ensures WaitingFor(m.waiting, sys, key) == -1 <==> key !in m.waiting[sys - 1]
  {
    if key in m.waiting[sys - 1] {
      assert LinkAt(m.waiting, sys - 1, key, m.waiting[sys - 1][key]);
    }
  }

  lemma TidySyscall(m: Model, now: nat, cpu: int, lsm: string, sid: Sid, ends: bool, sm: string)
    requires Tidy(m) && 1 <= sid.sys <= m.numSys && MayLink(m, sid, Id(lsm, sid.frame))
    ensures Tidy(SyscallLinked(m, now, cpu, lsm, sid, ends, sm))
    ensures LinkReady(m, sid, Id(lsm, sid.frame))
  {
    NotWaiting(m, sid.sys, Id(lsm, sid.frame));
    if StackOf(m.stacks, sid) != [] {
      TidyTop(m, sid);
      TidyOpened(m, now, cpu, sid, Id(lsm, sid.frame));
      if ends {
        TidyEnded(Opened(m, now, cpu, sid, Id(lsm, sid.frame)), now, cpu, sid, sm);
      }
    }
  }

  lemma TidyMoved(m: Model, now: nat, flags: nat, cpu: int, smi: int, machine: string, st: string)
    requires Tidy(m)
    ensures Tidy(Moved(m, now, flags, cpu, smi, machine, st))
  {
    TidyState(m, now, flags, cpu, smi, machine, st);
  }

  lemma TidyEntering(m: Model, now: nat, cpu: int, st: string, sid: Sid, expl: bool, flags: nat)
    requires Tidy(m)
    ensures Tidy(Entering(m, now, cpu, st, sid, expl, flags))
  {
    var smi := Top(StackOf(m.stacks, sid));
    TidyCalm(m, m.expl[sid := true]);
    TidyMoved(Explicit(m, sid, expl), now, flags, cpu, smi, NameOf(m, smi), st);
  }

  // ---------------------------------------------------------------- queues

  // Queues have changed, and lines that are not open have been added; nothing else.
  predicate OnlyQueues(m: Model, after: Model) {
    && after == m.(lines := after.lines, queues := after.queues) && |after.queues| == |m.queues|
    && m.lines <= after.lines && (forall k :: |m.lines| <= k < |after.lines| ==> !OpenLine(after.lines[k]))
  }

  lemma OnlyQueuesTidy(m: Model, after: Model)
    requires Tidy(m) && OnlyQueues(m, after)
    ensures Tidy(after)
  {
    HeldAll(m.waiting, m.lines, after.lines, m.sms.num);
  }

  lemma {:induction false} HeldAll(links: Links, lines: seq<Line>, after: seq<Line>, n: int)
    requires Held(links, lines, n) && lines <= after
    requires forall k :: |lines| <= k < |after| ==> !OpenLine(after[k])
    ensures Held(links, after, n)
    decreases |after|
  {
    if |lines| < |after| {
      var k := |after| - 1;
      HeldAll(links, lines, after[..k], n);
      HeldAdd(links, after[..k], n, after[k]);
      assert after == after[..k] + [after[k]];
    }
  }

  lemma OnlyQueuesTwice(m: Model, mid: Model, after: Model)
    requires OnlyQueues(m, mid) && OnlyQueues(mid, after)
    ensures OnlyQueues(m, after)
  {}

  lemma RecordedOnly(m: Model, q: int, s: seq<nat>, l: Line)
    requires !OpenLine(l)
    ensures OnlyQueues(m, Recorded(WithBytes(m, q, s), l))
  {}

  lemma PutOnly(m: Model, now: nat, flags: nat, cpu: int, sm: int, q: int, count: int)
    ensures OnlyQueues(m, Put(m, now, flags, cpu, sm, q, count))
  {
    RecordedOnly(m, q, Joined(QueueOf(m, q), Run(|m.lines|, count), HasFlag(flags, FlagOpposite)),
                 QueueLine(now, OpQueue, flags, cpu, sm, q, count));
  }

  lemma TakenOnly(m: Model, now: nat, flags: nat, cpu: int, sm: int, q: int, count: int)
    ensures OnlyQueues(m, Taken(m, now, flags, cpu, sm, q, count))
    ensures OnlyQueues(m, Drawn(m, now, flags, cpu, sm, q, count).m)
  {
    var s := QueueOf(m, q);
    RecordedOnly(m, q, if 0 <= count <= |s| then s[count..] else [], QueueLine(now, OpDequeue, flags, cpu, sm, q, count));
  }

  lemma SizeSetOnly(m: Model, now: nat, cpu: int, sm: int, q: int, size: int)
    ensures OnlyQueues(m, SizeSet(m, now, cpu, sm, q, size))
  {
    var s := QueueOf(m, q);
    if |s| < size {
      PutOnly(m, now, 0, cpu, sm, q, size - |s|);
    } else if |s| > size {
      RecordedOnly(m, q, s[..if size > 0 then size else 0], QueueLine(now, OpSizeQueue, 0, cpu, sm, q, size));
    }
  }

  lemma ResizedOnly(m: Model, now: nat, cpu: int, sm: int, q: int, size: int, flags: nat)
    ensures OnlyQueues(m, Resized(m, now, cpu, sm, q, size, flags))
  {
    var m1 := if HasFlag(flags, FlagReset) then Cleared(m, now, cpu, sm, q, 0) else m;
    if HasFlag(flags, FlagReset) {
      RecordedOnly(m, q, [], QueueLine(now, OpSizeQueue, 0, cpu, sm, q, 0));
    }
    SizeSetOnly(m1, now, cpu, sm, q, size);
    OnlyQueuesTwice(m, m1, SizeSet(m1, now, cpu, sm, q, size));
  }

  lemma TidyCalmQueue(m: Model, sid: Sid, id: Id)
    requires Tidy(m) && 1 <= sid.sys <= m.numSys
    ensures Tidy(WithQueue(Calm(m, sid), sid.sys, id)) && Tidy(Calm(WithQueue(m, sid.sys, id), sid))
  {
    TidyQueue(m, sid.sys, id);
    TidyCalm(WithQueue(m, sid.sys, id), m.expl[sid := false]);
  }

  lemma TidyQueued(m: Model, now: nat, cpu: int, id: Id, sid: Sid, count: int)
    requires Tidy(m) && 1 <= sid.sys <= m.numSys
    ensures Tidy(Queued(m, now, cpu, id, sid, count))
  {
    var m1, top, q := WithQueue(Calm(m, sid), sid.sys, id), Top(StackOf(m.stacks, sid)), NumberOf(m.qns, sid.sys, id);
    TidyCalmQueue(m, sid, id);
    PutOnly(m1, now, 0, cpu, top, q, count);
    OnlyQueuesTidy(m1, Put(m1, now, 0, cpu, top, q, count));
  }

  lemma TidyDrawn(m: Model, now: nat, flags: nat, cpu: int, sm: int, q: int, count: int)
    requires Tidy(m)
    ensures Tidy(Drawn(m, now, flags, cpu, sm, q, count).m)
  {
    TakenOnly(m, now, flags, cpu, sm, q, count);
    OnlyQueuesTidy(m, Drawn(m, now, flags, cpu, sm, q, count).m);
  }

  lemma TidyDequeued(m: Model, now: nat, cpu: int, id: Id, sid: Sid, count: int)
    requires Tidy(m) && 1 <= sid.sys <= m.numSys
    ensures Tidy(Dequeued(m, now, cpu, id, sid, count).m)
  {
    TidyCalmQueue(m, sid, id);
    TidyDrawn(Calm(WithQueue(m, sid.sys, id), sid), now, 0, cpu, Top(StackOf(m.stacks, sid)),
              NumberOf(m.qns, sid.sys, id), count);
  }

  lemma TidySizedTo(m: Model, now: nat, cpu: int, id: Id, sid: Sid, size: int, flags: nat)
    requires Tidy(m) && 1 <= sid.sys <= m.numSys
    ensures Tidy(SizedTo(m, now, cpu, id, sid, size, flags))
  {
    var m1, top, q := WithQueue(m, sid.sys, id), Top(StackOf(m.stacks, sid)), NumberOf(m.qns, sid.sys, id);
    TidyQueue(m, sid.sys, id);
    ResizedOnly(m1, now, cpu, top, q, size, flags);
    OnlyQueuesTidy(m1, Resized(m1, now, cpu, top, q, size, flags));
  }

  // Both systems of a hardware call.
  lemma TidySystems(m: Model, sys: nat, qsys: nat)
    requires Tidy(m)
    ensures var m2 := WithSystem(WithSystem(m, sys), qsys);
      && Tidy(m2) && 1 <= SystemOf(m2, sys) <= m2.numSys && 1 <= SystemOf(m2, qsys) <= m2.numSys
      && SystemOf(m2, sys) == SystemOf(m, sys) && SystemOf(m2, qsys) == SystemOf(WithSystem(m, sys), qsys)
  {
    TidySystem(m, sys);
    TidySystem(WithSystem(m, sys), qsys);
  }

  lemma TidyBoth(m: Model, sys: nat, sm: Id, qsys: nat, id: Id)
    requires Tidy(m) && HwPossible(WithSystem(m, sys), SystemOf(m, sys), sm, qsys, id)
    ensures Tidy(Both(m, sys, sm, qsys, id)) && BothReady(m, sys, qsys, id)
  {
    var m2 := WithSystem(WithSystem(m, sys), qsys);
    TidySystems(m, sys, qsys);
    TidyQueueMachine(m2, SystemOf(m2, qsys), id, SystemOf(m2, sys), sm);
  }

  lemma TidyQueueMachine(m: Model, qs: int, id: Id, s: int, sm: Id)
    requires Tidy(m) && 1 <= qs <= m.numSys && 1 <= s <= m.numSys && RoomFor(m.sms, s, sm)
    ensures Tidy(WithMachine(WithQueue(m, qs, id), s, sm))
    ensures QueueReady(m, qs, id)
  {
    TidyQueue(m, qs, id);
    TidyMachine(WithQueue(m, qs, id), s, sm);
  }

  // ---------------------------------------------------------------- calls

  lemma TidySmEnd(m: Model, now: nat, sys: nat, cpu: int, sm: string, frame: nat)
    requires Tidy(m) && StackOf(m.stacks, Sid(SystemOf(m, sys), frame)) != []
    ensures Tidy(Ended(WithSystem(m, sys), now, cpu, Sid(SystemOf(m, sys), frame), sm))
    ensures TopReady(WithSystem(m, sys), Sid(SystemOf(m, sys), frame))
  {
    TidySystem(m, sys);
    TidyTop(WithSystem(m, sys), Sid(SystemOf(m, sys), frame));
    TidyEnded(WithSystem(m, sys), now, cpu, Sid(SystemOf(m, sys), frame), sm);
  }

  lemma TidySyscallLink(m: Model, now: nat, sys: nat, cpu: int, lsm: string, frame: nat, ends: bool, sm: string)
    requires Tidy(m) && MayLink(WithSystem(m, sys), Sid(SystemOf(m, sys), frame), Id(lsm, frame))
    ensures Tidy(SyscallLinked(WithSystem(m, sys), now, cpu, lsm, Sid(SystemOf(m, sys), frame), ends, sm))
    ensures LinkReady(WithSystem(m, sys), Sid(SystemOf(m, sys), frame), Id(lsm, frame))
  {
    TidySystem(m, sys);
    TidySyscall(WithSystem(m, sys), now, cpu, lsm, Sid(SystemOf(m, sys), frame), ends, sm);
  }

  lemma TidySwBegin(m: Model, now: nat, sys: nat, cpu: int, st: string, frame: nat, expl: bool, flags: nat)
    requires Tidy(m)
    ensures Tidy(StateBegun(m, now, sys, cpu, st, frame, expl, flags))
    ensures StateReady(WithSystem(m, sys), Sid(SystemOf(m, sys), frame))
  {
    TidySystem(m, sys);
    if StackOf(m.stacks, Sid(SystemOf(m, sys), frame)) != [] {
      TopIsMachine(m, Sid(SystemOf(m, sys), frame));
    }
    TidyEntering(WithSystem(m, sys), now, cpu, st, Sid(SystemOf(m, sys), frame), expl, flags);
  }

  lemma TidySwQ(m: Model, now: nat, sys: nat, cpu: int, id: Id, frame: nat, count: int)
    requires Tidy(m)
    ensures Tidy(Queued(WithSystem(m, sys), now, cpu, id, Sid(SystemOf(m, sys), frame), count))
    ensures QueueReady(WithSystem(m, sys), SystemOf(m, sys), id)
  {
    TidySystem(m, sys);
    TidyQueue(WithSystem(m, sys), SystemOf(m, sys), id);
    TidyQueued(WithSystem(m, sys), now, cpu, id, Sid(SystemOf(m, sys), frame), count);
  }

  lemma TidySwDq(m: Model, now: nat, sys: nat, cpu: int, id: Id, frame: nat, count: int)
    requires Tidy(m)
    ensures Tidy(Dequeued(WithSystem(m, sys), now, cpu, id, Sid(SystemOf(m, sys), frame), count).m)
    ensures QueueReady(WithSystem(m, sys), SystemOf(m, sys), id)
  {
    TidySystem(m, sys);
    TidyQueue(WithSystem(m, sys), SystemOf(m, sys), id);
    TidyDequeued(WithSystem(m, sys), now, cpu, id, Sid(SystemOf(m, sys), frame), count);
  }

  lemma TidySwSq(m: Model, now: nat, sys: nat, cpu: int, id: Id, frame: nat, size: int, flags: nat)
    requires Tidy(m)
    ensures Tidy(SizedTo(WithSystem(m, sys), now, cpu, id, Sid(SystemOf(m, sys), frame), size, flags))
    ensures QueueReady(WithSystem(m, sys), SystemOf(m, sys), id)
  {
    TidySystem(m, sys);
    TidyQueue(WithSystem(m, sys), SystemOf(m, sys), id);
    TidySizedTo(WithSystem(m, sys), now, cpu, id, Sid(SystemOf(m, sys), frame), size, flags);
  }

  lemma TidyHwPut(m: Model, now: nat, flags: nat, sys: nat, machine: Id, qsys: nat, id: Id, count: int)
    requires Tidy(m) && HwPossible(WithSystem(m, sys), SystemOf(m, sys), machine, qsys, id)
    ensures Tidy(HwPut(m, now, flags, sys, machine, qsys, id, count)) && BothReady(m, sys, qsys, id)
  {
    var both, q, sm := Both(m, sys, machine, qsys, id), HwQueue(m, sys, qsys, id), HwMachine(m, sys, machine, qsys);
    TidyBoth(m, sys, machine, qsys, id);
    PutOnly(both, now, Hardware(flags), 0, sm, q, count);
    OnlyQueuesTidy(both, Put(both, now, Hardware(flags), 0, sm, q, count));
  }

  lemma TidyHwDrawn(m: Model, now: nat, flags: nat, sys: nat, machine: Id, qsys: nat, id: Id, count: int)
    requires Tidy(m) && HwPossible(WithSystem(m, sys), SystemOf(m, sys), machine, qsys, id)
    ensures Tidy(HwDrawn(m, now, flags, sys, machine, qsys, id, count).m) && BothReady(m, sys, qsys, id)
  {
    var both, q, sm := Both(m, sys, machine, qsys, id), HwQueue(m, sys, qsys, id), HwMachine(m, sys, machine, qsys);
    TidyBoth(m, sys, machine, qsys, id);
    TidyDrawn(both, now, Hardware(flags), 0, sm, q, count);
  }

  lemma NothingTidy()
    ensures Tidy(Nothing)
  {}
}
