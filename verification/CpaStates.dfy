/**
 The lines tell the state of every machine: in every run of calls, the last line that puts a machine in a
 state names the state that the annotator holds to be its last.
 */
module CpaStates {
  import opened AnnotateLog
  import opened AnnotateNames
  import opened AnnotateStacks
  import opened CpaCalls
  import opened CpaEffects
  import opened CpaModel
  import opened CpaRuns
  import opened CpaTidy

  // The state in the last line of machine v with operation 1, or 0.
  function LastBegin(lines: seq<Line>, v: int): int {
    if lines == [] then 0
    else
      var l := lines[|lines| - 1];
      if l.op == 1 && l.sm == v then l.stq else LastBegin(lines[..|lines| - 1], v)
  }

  ghost predicate Current(lines: seq<Line>, last: map<int, int>) {
    forall v :: LastBegin(lines, v) == if v in last then last[v] else 0
  }

  lemma LastAdded(lines: seq<Line>, l: Line, v: int)
    ensures LastBegin(lines + [l], v) == if l.op == 1 && l.sm == v then l.stq else LastBegin(lines, v)
  {
    assert (lines + [l])[..|lines|] == lines;
  }

  lemma {:induction false} LastChanged(lines: seq<Line>, k: nat, l: Line, v: int)
    requires k < |lines| && lines[k].op != 1 && l.op != 1
    ensures LastBegin(lines[k := l], v) == LastBegin(lines, v)
    decreases |lines|
  {
    var n := |lines| - 1;
    if k == n {
      assert lines[k := l][..n] == lines[..n];
    } else {
      assert lines[k := l][..n] == lines[..n][k := l];
      LastChanged(lines[..n], k, l, v);
    }
  }

  lemma CurrentBegin(lines: seq<Line>, last: map<int, int>, l: Line)
    requires Current(lines, last) && l.op == 1
    ensures Current(lines + [l], last[l.sm := l.stq])
  {
    forall v
      ensures LastBegin(lines + [l], v) == if v in last[l.sm := l.stq] then last[l.sm := l.stq][v] else 0
    {
      LastAdded(lines, l, v);
      assert LastBegin(lines, v) == if v in last then last[v] else 0;
    }
  }

  // A line that says again what the last one said.
  lemma CurrentAgain(lines: seq<Line>, last: map<int, int>, l: Line)
    requires Current(lines, last) && (l.op == 1 ==> l.stq == if l.sm in last then last[l.sm] else 0)
    ensures Current(lines + [l], last)
  {
    forall v
      ensures LastBegin(lines + [l], v) == if v in last then last[v] else 0
    {
      LastAdded(lines, l, v);
      assert LastBegin(lines, v) == if v in last then last[v] else 0;
    }
  }

  lemma CurrentChanged(lines: seq<Line>, last: map<int, int>, k: nat, l: Line)
    requires Current(lines, last) && k < |lines| && lines[k].op != 1 && l.op != 1
    ensures Current(lines[k := l], last)
  {
    forall v
      ensures LastBegin(lines[k := l], v) == if v in last then last[v] else 0
    {
      LastChanged(lines, k, l, v);
      assert LastBegin(lines, v) == if v in last then last[v] else 0;
    }
  }

  // At most one line is added, and it says nothing new.
  lemma CurrentMaybe(lines: seq<Line>, last: map<int, int>, more: seq<Line>)
    requires Current(lines, last) && |more| <= 1
    requires more != [] && more[0].op == 1 ==> more[0].stq == if more[0].sm in last then last[more[0].sm] else 0
    ensures Current(lines + more, last)
  {
    if more == [] {
      assert lines + more == lines;
    } else {
      assert more == [more[0]];
      CurrentAgain(lines, last, more[0]);
    }
  }

  // ---------------------------------------------------------------- calls

  lemma StateCurrent(m: Model, c: Call, sid: Sid, n: int, after: Model)
    requires c.State? && StateEffect(m, c, sid, n, after) && Current(m.lines, m.last)
    ensures Current(after.lines, after.last)
  {
    if Counts(m, c, sid) {
      var stack := StackOf(m.stacks, sid);
      var top := stack[|stack| - 1];
      if top in m.last && m.last[top] == n {
        assert m.last[top := n] == m.last;
      } else {
        CurrentBegin(m.lines, m.last, Line(c.now, 0, top, n, 1, c.flags, c.cpu));
      }
    }
  }

  lemma EndCurrent(m: Model, now: nat, cpu: int, sid: Sid, name: string, after: Model)
    requires EndEffect(m, now, cpu, sid, name, after) && Current(m.lines, m.last)
    ensures Current(after.lines, after.last)
  {
    var stack := StackOf(m.stacks, sid);
    var top := stack[|stack| - 1];
    if m.sms.names[top - 1].id.name == name {
      var back := if top in m.ln then [Line(now, 0, top, m.ln[top], 10, 0, cpu)] else [];
      CurrentMaybe(m.lines, m.last, back);
      CurrentMaybe(m.lines + back, m.last,
                   if |stack| == 1 then []
                   else [Line(now, 0, top, if top in m.last then m.last[top] else 0, 1, 0, cpu)]);
    }
  }

  lemma LinkCurrent(m: Model, c: Call, sid: Sid, after: Model)
    requires c.SyscallLink? && LinkEffect(m, c, sid, after) && Current(m.lines, m.last)
    ensures Current(after.lines, after.last)
  {
    var stack := StackOf(m.stacks, sid);
    if stack != [] {
      var l := Line(c.now, 0, stack[|stack| - 1], 65535, 10, 0, c.cpu);
      var mid := m.(lines := m.lines + [l], waiting := m.waiting[sid.sys - 1 :=
                                                m.waiting[sid.sys - 1][Id(c.lsm, c.frame) := |m.lines|]]);
      CurrentAgain(m.lines, m.last, l);
      if c.ends {
        EndCurrent(mid, c.now, c.cpu, sid, c.sm, after);
      }
    }
  }

  lemma BeginCurrent(m: Model, c: Call, sid: Sid, v: int, n: int, after: Model)
    requires c.SmBegin? && BeginEffect(m, c, sid, v, n, after) && Current(m.lines, m.last)
    ensures Current(after.lines, after.last)
  {
    var stack, key := StackOf(m.stacks, sid), Id(c.id.name, c.frame);
    var lines := m.lines;
    if key in m.waiting[sid.sys - 1] {
      var k := m.waiting[sid.sys - 1][key];
      lines := lines[k := lines[k].(stq := v)];
      CurrentChanged(m.lines, m.last, k, lines[k]);
    }
    var more := if c.flags / 16 % 2 == 1 && stack != [] then [Line(c.now, 0, stack[|stack| - 1], v, 10, 0, c.cpu)]
                else [];
    CurrentMaybe(lines, m.last, more);
    if c.st != "" {
      CurrentBegin(lines + more, m.last, Line(c.now, 0, v, n, 1, 0, c.cpu));
    } else {
      assert lines + more + [] == lines + more;
    }
  }

  lemma SizeCurrent(m: Model, c: Call, sid: Sid, q: int, after: Model)
    requires c.Sq? && SizeEffect(m, c, sid, q, after) && Current(m.lines, m.last)
    ensures Current(after.lines, after.last)
  {
    var stack := StackOf(m.stacks, sid);
    if stack != [] {
      var top, reset := stack[|stack| - 1], c.flags / 32 % 2 == 1;
      var s := if reset then [] else QueueOf(m, q);
      var l := Line(c.now, 0, top, q, 8, 0, c.cpu);
      var lines := if reset then m.lines + [l] else m.lines;
      CurrentAgain(m.lines, m.last, l);
      CurrentMaybe(lines, m.last, if |s| < c.size then [Line(c.now, c.size - |s|, top, q, 4, 0, c.cpu)]
                                  else if |s| > c.size then [Line(c.now, c.size, top, q, 8, 0, c.cpu)] else []);
    }
  }

  lemma CallNumbered(m: Model, sys: nat, m1: Model)
    requires m1 == WithSystem(m, sys)
    ensures sys in m1.systems && m1.lines == m.lines && m1.last == m.last
  {}

  lemma MachineCurrent(m: Model, c: Call, m1: Model, sid: Sid, after: Model)
    requires Tidy(m) && Possible(m, c) && (c.SmBegin? || c.SmEnd? || c.State? || c.SyscallLink?)
    requires m1 == WithSystem(m, c.sys) && At(m1, c, sid) && after == Performed(m, c).m
    requires Current(m.lines, m.last) && Current(m1.lines, m1.last)
    ensures Current(after.lines, after.last)
  {
    if c.SmBegin? {
      var v, n := BeginCall(m, c, m1, sid, after);
      BeginCurrent(m1, c, sid, v, n, after);
    } else if c.SmEnd? {
      EndCall(m, c, m1, sid, after);
      EndCurrent(m1, c.now, c.cpu, sid, c.sm, after);
    } else if c.State? {
      var n := StateCall(m, c, m1, sid, after);
      if !Ignored(c.st) {
        StateCurrent(m1, c, sid, n, after);
      }
    } else {
      LinkCall(m, c, m1, sid, after);
      LinkCurrent(m1, c, sid, after);
    }
  }

  lemma QueueCurrent(m: Model, c: Call, m1: Model, sid: Sid, after: Model)
    requires Tidy(m) && (c.Q? || c.Dq? || c.Sq?) && Current(m1.lines, m1.last)
    requires m1 == WithSystem(m, c.sys) && At(m1, c, sid) && after == Performed(m, c).m
    ensures Current(after.lines, after.last)
  {
    var stack := StackOf(m1.stacks, sid);
    if c.Q? {
      var q := QueueCall(m, c, m1, sid, after);
      if stack != [] {
        CurrentAgain(m1.lines, m1.last, Line(c.now, c.count, stack[|stack| - 1], q, 4, 0, c.cpu));
      }
    } else if c.Dq? {
      var q := DequeueCall(m, c, m1, sid, Performed(m, c));
      if stack != [] {
        CurrentAgain(m1.lines, m1.last, Line(c.now, c.count, stack[|stack| - 1], q, 5, 0, c.cpu));
      }
    } else {
      var q := SizeCall(m, c, m1, sid, after);
      SizeCurrent(m1, c, sid, q, after);
    }
  }

  lemma HardwareCurrent(m: Model, c: Call, m1: Model, after: Model)
    requires Tidy(m) && (c.HwQ? || c.HwDq?) && Current(m1.lines, m1.last)
    requires m1 == WithSystem(WithSystem(m, c.sys), c.qsys) && after == Performed(m, c).m
    ensures Current(after.lines, after.last)
  {
    if c.HwQ? {
      var v, q := HwQueueCall(m, c, m1, after);
      CurrentAgain(m1.lines, m1.last, Line(c.now, c.count, v, q, 4, c.flags / 2 * 2 + 1, 0));
    } else {
      var v, q := HwDequeueCall(m, c, m1, Performed(m, c));
      CurrentAgain(m1.lines, m1.last, Line(c.now, c.count, v, q, 5, c.flags / 2 * 2 + 1, 0));
    }
  }

  lemma CallCurrent(m: Model, c: Call, after: Model)
    requires Tidy(m) && Possible(m, c) && after == Performed(m, c).m && Current(m.lines, m.last)
    ensures Current(after.lines, after.last)
  {
    var m1 := WithSystem(m, c.sys);
    CallNumbered(m, c.sys, m1);
    if c.HwQ? || c.HwDq? {
      CallNumbered(m1, c.qsys, WithSystem(m1, c.qsys));
      HardwareCurrent(m, c, WithSystem(m1, c.qsys), after);
    } else {
      var sid := Sid(m1.systems[c.sys], c.frame);
      if c.Q? || c.Dq? || c.Sq? {
        QueueCurrent(m, c, m1, sid, after);
      } else {
        MachineCurrent(m, c, m1, sid, after);
      }
    }
  }

  lemma {:induction false} RunCurrent(m: Model, calls: seq<Call>)
    requires Tidy(m) && AllPossible(m, calls) && Current(m.lines, m.last)
    ensures Current(Played(m, calls).m.lines, Played(m, calls).m.last)
    decreases |calls|
  {
    if calls != [] {
      var o := Performed(m, calls[0]);
      Onward(m, calls, o);
      EveryCall(m, calls[0]);
      CallCurrent(m, calls[0], o.m);
      if o.Alive? {
        RunCurrent(o.m, calls[1..]);
      }
    }
  }

  /** In every run from nothing the lines tell the last state of every machine. */
  lemma LinesTellStates(calls: seq<Call>, end: Model, v: int)
    requires AllPossible(Nothing, calls) && end == Played(Nothing, calls).m
    ensures LastBegin(end.lines, v) == if v in end.last then end.last[v] else 0
  {
    NothingTidy();
    RunCurrent(Nothing, calls);
  }
}
