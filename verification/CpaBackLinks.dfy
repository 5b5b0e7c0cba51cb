/**
 The way there and the way back: a machine that begins with a link ends with the reverse link,
 whatever happens between.
 */
module CpaBackLinks {
  import opened AnnotateLog
  import opened AnnotateNames
  import opened AnnotateStacks
  import opened CpaLines
  import opened CpaLinks
  import opened CpaModel
  import opened CpaRuns
  import opened CpaTidy

  // ---------------------------------------------------------------- one call

  lemma FirstStateLn(m: Model, now: nat, cpu: int, smi: int, machine: string, st: string)
    ensures FirstState(m, now, cpu, smi, machine, st).ln == m.ln
    ensures FirstState(m, now, cpu, smi, machine, st).stacks == m.stacks
    ensures FirstState(m, now, cpu, smi, machine, st).sms == m.sms
    ensures FirstState(m, now, cpu, smi, machine, st).systems == m.systems
    ensures m.lines <= FirstState(m, now, cpu, smi, machine, st).lines
  {}

  lemma StartedLn(m: Model, now: nat, cpu: int, sid: Sid, id: Id, smi: int, link: bool, st: string, key: Id, after: Model)
    requires key == Id(id.name, sid.frame) && Ready(m, sid.sys, key, smi) && LinkFree(m, sid, key, smi, link)
    requires after == Started(m, now, cpu, sid, id, smi, link, st)
    ensures after.ln == if IsLinked(m, sid, key, link) then m.ln[smi := Origin(m, sid, key, link)] else m.ln
    ensures IsLinked(m, sid, key, link) ==> smi !in m.ln
    ensures after.stacks == m.stacks[sid := StackOf(m.stacks, sid) + [smi]]
    ensures after.sms == m.sms && after.systems == m.systems
  {
    var m1 := Met(Pushed(LinkedBelow(m, now, cpu, sid, smi, link), sid, smi), sid.sys, key, smi);
    FirstStateLn(m1, now, cpu, smi, id.name, st);
  }

  // The line of the link leads from its origin to the machine.
  lemma StartedLine(m: Model, now: nat, cpu: int, sid: Sid, id: Id, smi: int, link: bool, st: string, key: Id, after: Model)
    requires key == Id(id.name, sid.frame) && Ready(m, sid.sys, key, smi) && LinkFree(m, sid, key, smi, link)
    requires after == Started(m, now, cpu, sid, id, smi, link, st) && IsLinked(m, sid, key, link)
    ensures var f := OriginLine(m, sid, key, link);
      && 0 <= f < |after.lines| && after.lines[f].op == OpLink
      && after.lines[f].sm == Origin(m, sid, key, link) && after.lines[f].stq == smi
  {
    var m1 := Met(Pushed(LinkedBelow(m, now, cpu, sid, smi, link), sid, smi), sid.sys, key, smi);
    FirstStateLn(m1, now, cpu, smi, id.name, st);
  }

  lemma EndedBack(m: Model, now: nat, cpu: int, sid: Sid, name: string, v: int)
    requires !(Top(StackOf(m.stacks, sid)) == v && OnTop(StackOf(m.stacks, sid), m.sms.names, name))
    ensures SameBack(m, Ended(m, now, cpu, sid, name), v)
  {}

  lemma SyscallBack(m: Model, now: nat, cpu: int, lsm: string, sid: Sid, ends: bool, sm: string, v: int)
    requires !(ends && Top(StackOf(m.stacks, sid)) == v && OnTop(StackOf(m.stacks, sid), m.sms.names, sm))
    ensures SameBack(m, SyscallLinked(m, now, cpu, lsm, sid, ends, sm), v)
  {
    if StackOf(m.stacks, sid) != [] && ends {
      EndedBack(Opened(m, now, cpu, sid, Id(lsm, sid.frame)), now, cpu, sid, sm, v);
    }
  }

  lemma StartsReady(m: Model, b: Call, m2: Model, sid: Sid, key: Id, v: int, link: bool)
    requires Tidy(m) && Starts(m, b, m2, sid, key, v, link) && Possible(m, b)
    ensures Ready(m2, sid.sys, key, v) && LinkFree(m2, sid, key, v, link)
    ensures m2.ln == m.ln && m2.stacks == m.stacks && m2.lines == m.lines && m2.systems == WithSystem(m, b.sys).systems
    ensures Performed(m, b).m == Started(m2, b.now, b.cpu, sid, b.id, v, link, b.st)
  {
    BeginReady(m, b.sys, b.id, b.flags, b.frame);
  }

  lemma BeganBack(m: Model, b: Call, v: int, after: Model)
    requires Tidy(m) && b.SmBegin? && Possible(m, b) && after == Performed(m, b).m
    ensures SameBack(m, after, v)
  {
    var sid, key, link := Sid(SystemOf(m, b.sys), b.frame), Id(b.id.name, b.frame), HasFlag(b.flags, FlagLink);
    var smi, m2 := NumberOf(WithSystem(m, b.sys).sms, sid.sys, b.id), WithMachine(WithSystem(m, b.sys), sid.sys, b.id);
    StartsReady(m, b, m2, sid, key, smi, link);
    StartedLn(m2, b.now, b.cpu, sid, b.id, smi, link, b.st, key, after);
  }

  lemma SystemBack(m: Model, s: nat, after: Model)
    requires after == WithSystem(m, s)
    ensures after.ln == m.ln && after.stacks == m.stacks && after.sms.names == m.sms.names && after.lines == m.lines
  {}

  lemma HardwareBack(m: Model, c: Call, after: Model)
    requires (c.HwQ? || c.HwDq?) && after == Performed(m, c).m
    ensures after.ln == m.ln
  {
    var m1 := WithSystem(m, c.sys);
    SystemBack(m, c.sys, m1);
    SystemBack(m1, c.qsys, WithSystem(m1, c.qsys));
    HardwareWaits(m, c, WithSystem(m1, c.qsys), after);
  }

  lemma EndBack(m: Model, c: Call, after: Model, v: int)
    requires (c.SmEnd? || c.SyscallLink?) && after == Performed(m, c).m && !Pops(m, c, v)
    ensures SameBack(m, after, v)
  {
    var m1 := WithSystem(m, c.sys);
    SystemBack(m, c.sys, m1);
    if c.SyscallLink? {
      SyscallBack(m1, c.now, c.cpu, c.lsm, Sid(SystemOf(m, c.sys), c.frame), c.ends, c.sm, v);
    } else {
      EndedBack(m1, c.now, c.cpu, Sid(SystemOf(m, c.sys), c.frame), c.sm, v);
    }
  }

  lemma CallBack(m: Model, c: Call, after: Model, v: int)
    requires Tidy(m) && Possible(m, c) && after == Performed(m, c).m && !Pops(m, c, v)
    ensures SameBack(m, after, v)
  {
    if c.SmBegin? {
      BeganBack(m, c, v, after);
    } else if c.SyscallLink? || c.SmEnd? {
      EndBack(m, c, after, v);
    } else if c.HwQ? || c.HwDq? {
      HardwareBack(m, c, after);
    } else if !(c.State? && Ignored(c.st)) {
      SystemBack(m, c.sys, WithSystem(m, c.sys));
      OthersWait(m, c, after);
    }
  }

  // ---------------------------------------------------------------- whole runs

  /** As long as a machine does not end, the way back from it stays. */
  lemma {:induction false} BackStays(m: Model, calls: seq<Call>, v: int, end: Outcome)
    requires Tidy(m) && AllPossible(m, calls) && NeverPops(m, calls, v) && end == Played(m, calls)
    ensures SameBack(m, end.m, v)
    decreases |calls|
  {
    if calls != [] {
      var o := Performed(m, calls[0]);
      Onward(m, calls, o);
      EveryCall(m, calls[0]);
      CallBack(m, calls[0], o.m, v);
      if o.Alive? {
        BackStays(o.m, calls[1..], v, end);
      }
    }
  }

  // A machine begins with a link: the line, and the way back.
  lemma There(m: Model, b: Call, m2: Model, sid: Sid, key: Id, v: int, link: bool, after: Model)
    requires Tidy(m) && Starts(m, b, m2, sid, key, v, link) && Possible(m, b) && after == Performed(m, b).m
    requires IsLinked(m2, sid, key, link)
    ensures LinkOnLine(after.lines, OriginLine(m2, sid, key, link), Origin(m2, sid, key, link), v)
    ensures v in after.ln && after.ln[v] == Origin(m2, sid, key, link) && v != Unknown
  {
    StartsReady(m, b, m2, sid, key, v, link);
    StartedLn(m2, b.now, b.cpu, sid, b.id, v, link, b.st, key, after);
    StartedLine(m2, b.now, b.cpu, sid, b.id, v, link, b.st, key, after);
  }

  lemma EndedLine(m: Model, now: nat, cpu: int, sid: Sid, name: string, v: int, after: Model)
    requires Top(StackOf(m.stacks, sid)) == v && OnTop(StackOf(m.stacks, sid), m.sms.names, name)
    requires v in m.ln && after == Ended(m, now, cpu, sid, name)
    ensures LinkOnLine(after.lines, |m.lines|, v, m.ln[v]) && m.lines <= after.lines && v !in after.ln
  {}

  // A machine with a way back ends: the reverse line.
  lemma Back(m: Model, e: Call, v: int, after: Model)
    requires e.SmEnd? && Pops(m, e, v) && v in m.ln && after == Performed(m, e).m
    ensures LinkOnLine(after.lines, |m.lines|, v, m.ln[v]) && m.lines <= after.lines && v !in after.ln
  {
    SystemBack(m, e.sys, WithSystem(m, e.sys));
    EndedLine(WithSystem(m, e.sys), e.now, e.cpu, Sid(SystemOf(m, e.sys), e.frame), e.sm, v, after);
  }

  // Between begin and end the line and the way back stay.
  lemma Meanwhile(m: Model, calls: seq<Call>, before: Model, v: int, f: int)
    requires Tidy(m) && AllPossible(m, calls) && NeverPops(m, calls, v) && Played(m, calls) == Alive(before)
    requires v in m.ln && v != Unknown && LinkOnLine(m.lines, f, m.ln[v], v)
    ensures v in before.ln && before.ln[v] == m.ln[v] && LinkOnLine(before.lines, f, m.ln[v], v)
  {
    BackStays(m, calls, v, Alive(before));
    EveryRun(m, calls);
    assert LineKept(m.lines[f], before.lines[f]);
  }

  /** A machine begins with a link, from the machine below or from a system call; anything happens
      but its end; then it ends: the last link is the reverse of the first. */
  lemma LinkThereAndBack(m: Model, b: Call, m2: Model, sid: Sid, key: Id, v: int, link: bool, begun: Model,
                         calls: seq<Call>, before: Model, e: Call, after: Model)
    requires Tidy(m) && Starts(m, b, m2, sid, key, v, link) && Possible(m, b) && begun == Performed(m, b).m
    requires IsLinked(m2, sid, key, link)
    requires AllPossible(begun, calls) && NeverPops(begun, calls, v) && Played(begun, calls) == Alive(before)
    requires e.SmEnd? && Possible(before, e) && Pops(before, e, v) && after == Performed(before, e).m
    ensures var f, from := OriginLine(m2, sid, key, link), Origin(m2, sid, key, link);
      && LinkOnLine(begun.lines, f, from, v) && LinkOnLine(after.lines, f, from, v)
      && LinkOnLine(after.lines, |before.lines|, v, from) && v !in after.ln
  {
    There(m, b, m2, sid, key, v, link, begun);
    EveryCall(m, b);
    Meanwhile(begun, calls, before, v, OriginLine(m2, sid, key, link));
    Back(before, e, v, after);
  }

  // A machine has begun: it is on top under its name.
  lemma OnTopNow(m: Model, b: Call, m2: Model, sid: Sid, key: Id, v: int, link: bool, begun: Model)
    requires Tidy(m) && Starts(m, b, m2, sid, key, v, link) && Possible(m, b) && begun == Performed(m, b).m
    ensures begun.stacks == m.stacks[sid := StackOf(m.stacks, sid) + [v]]
    ensures OnTop(StackOf(begun.stacks, sid), begun.sms.names, b.id.name)
    ensures b.sys in begun.systems && begun.systems[b.sys] == sid.sys
    ensures begun.ln == if IsLinked(m2, sid, key, link) then m.ln[v := Origin(m2, sid, key, link)] else m.ln
    ensures IsLinked(m2, sid, key, link) ==> v !in m.ln
  {
    StartsReady(m, b, m2, sid, key, v, link);
    StartedLn(m2, b.now, b.cpu, sid, b.id, v, link, b.st, key, begun);
    NamedSo(m, b, m2, sid, key, v, link, StackOf(m.stacks, sid));
  }

  // Its number leads to its name.
  lemma NamedSo(m: Model, b: Call, m2: Model, sid: Sid, key: Id, v: int, link: bool, stack: seq<int>)
    requires Tidy(m) && Starts(m, b, m2, sid, key, v, link) && Possible(m, b)
    ensures OnTop(stack + [v], m2.sms.names, b.id.name) && b.sys in m2.systems && m2.systems[b.sys] == sid.sys
  {
    TidySystem(m, b.sys);
    TidyMachine(WithSystem(m, b.sys), sid.sys, b.id);
  }

  lemma EndedStack(m: Model, now: nat, cpu: int, sid: Sid, name: string, v: int, after: Model)
    requires Top(StackOf(m.stacks, sid)) == v && OnTop(StackOf(m.stacks, sid), m.sms.names, name)
    requires after == Ended(m, now, cpu, sid, name)
    ensures after.stacks == m.stacks[sid := Popped(StackOf(m.stacks, sid))] && after.ln == m.ln - {v}
  {}

  lemma EndsNow(m: Model, e: Call, sid: Sid, v: int, after: Model)
    requires e.SmEnd? && e.sys in m.systems && sid == Sid(m.systems[e.sys], e.frame) && after == Performed(m, e).m
    requires Top(StackOf(m.stacks, sid)) == v && OnTop(StackOf(m.stacks, sid), m.sms.names, e.sm)
    ensures Possible(m, e) && Pops(m, e, v)
    ensures after.stacks == m.stacks[sid := Popped(StackOf(m.stacks, sid))] && after.ln == m.ln - {v}
  {
    EndedStack(m, e.now, e.cpu, sid, e.sm, v, after);
  }

  lemma StacksRestored(was: Stacks, sid: Sid, v: int, during: Stacks, after: Stacks)
    requires during == was[sid := StackOf(was, sid) + [v]] && after == during[sid := Popped(StackOf(during, sid))]
    ensures forall other :: StackOf(after, other) == StackOf(was, other)
  {
    assert (StackOf(was, sid) + [v])[..|StackOf(was, sid)|] == StackOf(was, sid);
  }

  lemma WaysRestored(was: map<int, int>, v: int, linked: bool, from: int, during: map<int, int>, after: map<int, int>)
    requires during == (if linked then was[v := from] else was) && after == during - {v} && (linked ==> v !in was)
    ensures after == was <==> linked || v !in was
  {}

  /** A machine begins and ends: every stack is what it was, and so are the ways back, unless the
      machine was running before with a link and begins again without one. */
  lemma BeginThenEnd(m: Model, b: Call, m2: Model, sid: Sid, key: Id, v: int, link: bool, begun: Model, e: Call, after: Model)
    requires Tidy(m) && Starts(m, b, m2, sid, key, v, link) && Possible(m, b) && begun == Performed(m, b).m
    requires e.SmEnd? && e.sys == b.sys && e.frame == b.frame && e.sm == b.id.name && after == Performed(begun, e).m
    ensures Possible(begun, e) && Pops(begun, e, v)
    ensures forall other :: StackOf(after.stacks, other) == StackOf(m.stacks, other)
    ensures after.ln == m.ln <==> IsLinked(m2, sid, key, link) || v !in m.ln
  {
    OnTopNow(m, b, m2, sid, key, v, link, begun);
    EndsNow(begun, e, sid, v, after);
    StacksRestored(m.stacks, sid, v, begun.stacks, after.stacks);
    WaysRestored(m.ln, v, IsLinked(m2, sid, key, link), Origin(m2, sid, key, link), begun.ln, after.ln);
  }
}
