/**
 Machines that begin and end in nests: whatever else happens between, the stack of their system and
 frame is what it was.
 */
module CpaNests {
  import opened AnnotateNames
  import opened AnnotateStacks
  import opened CpaBackLinks
  import opened CpaLines
  import opened CpaLinks
  import opened CpaModel
  import opened CpaRuns
  import opened CpaTidy

  // The machines that run in a frame of a system.
  function StackAt(m: Model, s: nat, frame: nat): seq<int> {
    if s in m.systems then StackOf(m.stacks, Sid(m.systems[s], frame)) else []
  }

  // The call can change which machines run there.
  predicate Touches(c: Call, s: nat, frame: nat) {
    (c.SmBegin? || c.SmEnd? || (c.SyscallLink? && c.ends)) && c.sys == s && c.frame == frame
  }

  // Calls that do not, and machines that begin, with a nest inside, and end.
  datatype Nest =
    | Done
    | Aside(c: Call, after: Nest)
    | Inside(b: Call, body: Nest, e: Call, after: Nest)

  predicate IsNest(n: Nest, s: nat, frame: nat) {
    match n
    case Done => true
    case Aside(c, after) => !Touches(c, s, frame) && IsNest(after, s, frame)
    case Inside(b, body, e, after) =>
      && b.SmBegin? && b.sys == s && b.frame == frame && IsNest(body, s, frame)
      && e.SmEnd? && e.sys == s && e.frame == frame && e.sm == b.id.name && IsNest(after, s, frame)
  }

  function Calls(n: Nest): seq<Call> {
    match n
    case Done => []
    case Aside(c, after) => [c] + Calls(after)
    case Inside(b, body, e, after) => [b] + Calls(body) + [e] + Calls(after)
  }

  // ---------------------------------------------------------------- one call

  // Names and systems keep their numbers.
  ghost predicate Grown(m: Model, after: Model) {
    && m.sms.names <= after.sms.names
    && (forall s :: s in m.systems ==> s in after.systems && after.systems[s] == m.systems[s])
  }

  lemma GrownTwice(m: Model, mid: Model, after: Model)
    requires Grown(m, mid) && Grown(mid, after)
    ensures Grown(m, after)
  {}

  // A system without a number has no running machines.
  lemma StackIs(m: Model, s: nat, frame: nat)
    requires Tidy(m)
    ensures StackOf(m.stacks, Sid(SystemOf(m, s), frame)) == StackAt(m, s, frame)
  {
    if s !in m.systems {
      NoStack(m.stacks, Sid(m.numSys + 1, frame), m.sms);
    }
  }

  lemma SystemGrown(m: Model, sys: nat, after: Model, s: nat, frame: nat)
    requires Tidy(m) && after == WithSystem(m, sys)
    ensures Grown(m, after) && StackAt(after, s, frame) == StackAt(m, s, frame)
  {
    StackIs(m, sys, frame);
  }

  // What changes one stack leaves the others.
  lemma OtherStack(m: Model, sys: nat, f: nat, stack: seq<int>, after: Model, s: nat, frame: nat)
    requires Tidy(m) && sys in m.systems && after.systems == m.systems
    requires after.stacks == m.stacks[Sid(m.systems[sys], f) := stack]
    ensures StackAt(after, s, frame) == if sys == s && f == frame then stack else StackAt(m, s, frame)
  {}

  lemma SameStack(m: Model, after: Model, s: nat, frame: nat)
    requires after.systems == m.systems && after.stacks == m.stacks && m.sms.names <= after.sms.names
    ensures Grown(m, after) && StackAt(after, s, frame) == StackAt(m, s, frame)
  {}

  lemma BeganStack(m: Model, b: Call, after: Model, s: nat, frame: nat)
    requires Tidy(m) && b.SmBegin? && Possible(m, b) && after == Performed(m, b).m
    ensures Grown(m, after)
    ensures !(b.sys == s && b.frame == frame) ==> StackAt(after, s, frame) == StackAt(m, s, frame)
  {
    var sid, key, link := Sid(SystemOf(m, b.sys), b.frame), Id(b.id.name, b.frame), HasFlag(b.flags, FlagLink);
    var m1, v := WithSystem(m, b.sys), NumberOf(WithSystem(m, b.sys).sms, sid.sys, b.id);
    var m2 := WithMachine(m1, sid.sys, b.id);
    StartsReady(m, b, m2, sid, key, v, link);
    StartedLn(m2, b.now, b.cpu, sid, b.id, v, link, b.st, key, after);
    TidySystem(m, b.sys);
    SystemGrown(m, b.sys, m1, s, frame);
    OtherStack(m1, b.sys, b.frame, StackOf(m.stacks, sid) + [v], after, s, frame);
    GrownTwice(m, m1, after);
  }

  lemma EndedGrown(m: Model, now: nat, cpu: int, sid: Sid, name: string, after: Model)
    requires after == Ended(m, now, cpu, sid, name)
    ensures after.systems == m.systems && after.sms == m.sms
    ensures after.stacks == m.stacks || after.stacks == m.stacks[sid := Popped(StackOf(m.stacks, sid))]
  {}

  lemma EndStack(m: Model, c: Call, after: Model, s: nat, frame: nat)
    requires Tidy(m) && c.SmEnd? && after == Performed(m, c).m
    ensures Grown(m, after)
    ensures !(c.sys == s && c.frame == frame) ==> StackAt(after, s, frame) == StackAt(m, s, frame)
  {
    var m1, sid := WithSystem(m, c.sys), Sid(SystemOf(m, c.sys), c.frame);
    TidySystem(m, c.sys);
    SystemGrown(m, c.sys, m1, s, frame);
    EndedGrown(m1, c.now, c.cpu, sid, c.sm, after);
    if after.stacks == m1.stacks {
      SameStack(m1, after, s, frame);
    } else {
      OtherStack(m1, c.sys, c.frame, Popped(StackOf(m1.stacks, sid)), after, s, frame);
    }
    GrownTwice(m, m1, after);
  }

  lemma SyscallGrown(m: Model, now: nat, cpu: int, lsm: string, sid: Sid, ends: bool, sm: string, after: Model)
    requires after == SyscallLinked(m, now, cpu, lsm, sid, ends, sm)
    ensures after.systems == m.systems && after.sms == m.sms
    ensures after.stacks == m.stacks || (ends && after.stacks == m.stacks[sid := Popped(StackOf(m.stacks, sid))])
  {
    if StackOf(m.stacks, sid) != [] && ends {
      EndedGrown(Opened(m, now, cpu, sid, Id(lsm, sid.frame)), now, cpu, sid, sm, after);
    }
  }

  lemma SyscallStack(m: Model, c: Call, after: Model, s: nat, frame: nat)
    requires Tidy(m) && c.SyscallLink? && after == Performed(m, c).m
    ensures Grown(m, after)
    ensures !Touches(c, s, frame) ==> StackAt(after, s, frame) == StackAt(m, s, frame)
  {
    var m1, sid := WithSystem(m, c.sys), Sid(SystemOf(m, c.sys), c.frame);
    TidySystem(m, c.sys);
    SystemGrown(m, c.sys, m1, s, frame);
    SyscallGrown(m1, c.now, c.cpu, c.lsm, sid, c.ends, c.sm, after);
    if after.stacks == m1.stacks {
      SameStack(m1, after, s, frame);
    } else {
      OtherStack(m1, c.sys, c.frame, Popped(StackOf(m1.stacks, sid)), after, s, frame);
    }
    GrownTwice(m, m1, after);
  }

  lemma HardwareStack(m: Model, c: Call, after: Model, s: nat, frame: nat)
    requires Tidy(m) && (c.HwQ? || c.HwDq?) && after == Performed(m, c).m
    ensures Grown(m, after) && StackAt(after, s, frame) == StackAt(m, s, frame)
  {
    var m1 := WithSystem(m, c.sys);
    var m2 := WithSystem(m1, c.qsys);
    TidySystem(m, c.sys);
    SystemGrown(m, c.sys, m1, s, frame);
    SystemGrown(m1, c.qsys, m2, s, frame);
    HardwareWaits(m, c, m2, after);
    SameStack(m2, after, s, frame);
    GrownTwice(m, m1, m2);
    GrownTwice(m, m2, after);
  }

  // A call that does not touch a stack leaves it, and numbers stay.
  lemma CallStack(m: Model, c: Call, after: Model, s: nat, frame: nat)
    requires Tidy(m) && Possible(m, c) && after == Performed(m, c).m
    ensures Grown(m, after)
    ensures !Touches(c, s, frame) ==> StackAt(after, s, frame) == StackAt(m, s, frame)
  {
    if c.SmBegin? {
      BeganStack(m, c, after, s, frame);
    } else if c.SmEnd? {
      EndStack(m, c, after, s, frame);
    } else if c.SyscallLink? {
      SyscallStack(m, c, after, s, frame);
    } else if c.HwQ? || c.HwDq? {
      HardwareStack(m, c, after, s, frame);
    } else if !(c.State? && Ignored(c.st)) {
      SystemGrown(m, c.sys, WithSystem(m, c.sys), s, frame);
      OthersWait(m, c, after);
      SameStack(WithSystem(m, c.sys), after, s, frame);
      GrownTwice(m, WithSystem(m, c.sys), after);
    }
  }

  // ---------------------------------------------------------------- whole runs

  lemma {:induction false} RunGrown(m: Model, calls: seq<Call>, end: Outcome)
    requires Tidy(m) && AllPossible(m, calls) && end == Played(m, calls)
    ensures Grown(m, end.m)
    decreases |calls|
  {
    if calls != [] {
      var o := Performed(m, calls[0]);
      Onward(m, calls, o);
      EveryCall(m, calls[0]);
      CallStack(m, calls[0], o.m, 0, 0);
      if o.Alive? {
        RunGrown(o.m, calls[1..], end);
        GrownTwice(m, o.m, end.m);
      }
    }
  }

  /** A run can be cut anywhere. */
  lemma {:induction false} PlayedAppend(m: Model, a: seq<Call>, b: seq<Call>)
    requires AllPossible(m, a + b) && Played(m, a + b).Alive?
    ensures AllPossible(m, a) && Played(m, a).Alive?
    ensures AllPossible(Played(m, a).m, b) && Played(m, a + b) == Played(Played(m, a).m, b)
    decreases |a|
  {
    if a == [] {
      assert a + b == b;
    } else {
      assert (a + b)[1..] == a[1..] + b && (a + b)[0] == a[0];
      Onward(m, a + b, Performed(m, a[0]));
      PlayedAppend(Performed(m, a[0]).m, a[1..], b);
    }
  }

  lemma FirstCall(m: Model, c: Call, rest: seq<Call>, end: Outcome)
    requires Tidy(m) && AllPossible(m, [c] + rest) && Played(m, [c] + rest) == end && end.Alive?
    ensures Possible(m, c) && Performed(m, c).Alive? && Tidy(Performed(m, c).m)
    ensures AllPossible(Performed(m, c).m, rest) && Played(Performed(m, c).m, rest) == end
  {
    assert ([c] + rest)[1..] == rest;
    Onward(m, [c] + rest, Performed(m, c));
    EveryCall(m, c);
  }

  // A machine begins: it is on top under its name.
  lemma BeginsOnTop(m: Model, b: Call, after: Model) returns (v: int)
    requires Tidy(m) && b.SmBegin? && Possible(m, b) && after == Performed(m, b).m
    ensures b.sys in after.systems && StackAt(after, b.sys, b.frame) == StackAt(m, b.sys, b.frame) + [v]
    ensures 1 <= v <= |after.sms.names| && after.sms.names[v - 1].id.name == b.id.name
  {
    var sid, key, link := Sid(SystemOf(m, b.sys), b.frame), Id(b.id.name, b.frame), HasFlag(b.flags, FlagLink);
    v := NumberOf(WithSystem(m, b.sys).sms, sid.sys, b.id);
    OnTopNow(m, b, WithMachine(WithSystem(m, b.sys), sid.sys, b.id), sid, key, v, link, after);
    StackIs(m, b.sys, b.frame);
  }

  // A machine that is on top under this name ends.
  lemma EndsOnTop(m: Model, e: Call, rest: seq<int>, v: int, after: Model)
    requires e.SmEnd? && e.sys in m.systems && StackAt(m, e.sys, e.frame) == rest + [v] && after == Performed(m, e).m
    requires 1 <= v <= |m.sms.names| && m.sms.names[v - 1].id.name == e.sm
    ensures StackAt(after, e.sys, e.frame) == rest
  {
    var sid := Sid(m.systems[e.sys], e.frame);
    EndsNow(m, e, sid, v, after);
    EndedGrown(m, e.now, e.cpu, sid, e.sm, after);
    assert Popped(rest + [v]) == rest;
  }

  // Where a run is before a call in its midst, and after.
  lemma MidCall(m: Model, body: seq<Call>, e: Call, rest: seq<Call>, end: Model) returns (before: Model)
    requires Tidy(m) && AllPossible(m, body + ([e] + rest)) && Played(m, body + ([e] + rest)) == Alive(end)
    ensures AllPossible(m, body) && Played(m, body) == Alive(before) && Tidy(before)
    ensures Possible(before, e) && Tidy(Performed(before, e).m)
    ensures AllPossible(Performed(before, e).m, rest) && Played(Performed(before, e).m, rest) == Alive(end)
  {
    PlayedAppend(m, body, [e] + rest);
    before := Played(m, body).m;
    EveryRun(m, body);
    FirstCall(before, e, rest, Alive(end));
  }

  // The same, for a call before that too.
  lemma NestParts(m: Model, b: Call, body: seq<Call>, e: Call, rest: seq<Call>, end: Model)
      returns (begun: Model, before: Model)
    requires Tidy(m) && AllPossible(m, [b] + body + [e] + rest) && Played(m, [b] + body + [e] + rest) == Alive(end)
    ensures Possible(m, b) && begun == Performed(m, b).m && Tidy(begun)
    ensures AllPossible(begun, body) && Played(begun, body) == Alive(before) && Tidy(before)
    ensures Possible(before, e) && Tidy(Performed(before, e).m)
    ensures AllPossible(Performed(before, e).m, rest) && Played(Performed(before, e).m, rest) == Alive(end)
  {
    assert [b] + body + [e] + rest == [b] + (body + ([e] + rest));
    FirstCall(m, b, body + ([e] + rest), Alive(end));
    begun := Performed(m, b).m;
    before := MidCall(begun, body, e, rest, end);
  }

  /** Whatever is nested, and whatever else is done between, the stack is back to what it was. */
  lemma {:induction false} NestRestores(m: Model, n: Nest, s: nat, frame: nat, end: Model)
    requires Tidy(m) && IsNest(n, s, frame) && AllPossible(m, Calls(n)) && Played(m, Calls(n)) == Alive(end)
    ensures StackAt(end, s, frame) == StackAt(m, s, frame)
    decreases n, 0
  {
    match n
    case Done =>
    case Aside(c, after) =>
      FirstCall(m, c, Calls(after), Alive(end));
      CallStack(m, c, Performed(m, c).m, s, frame);
      NestRestores(Performed(m, c).m, after, s, frame, end);
    case Inside(b, body, e, after) =>
      var last := NestEnds(m, b, body, e, Calls(after), s, frame, end);
      NestRestores(last, after, s, frame, end);
  }

  // One machine with its nest.
  lemma {:induction false} NestEnds(m: Model, b: Call, body: Nest, e: Call, rest: seq<Call>, s: nat, frame: nat, end: Model)
      returns (last: Model)
    requires Tidy(m) && b.SmBegin? && b.sys == s && b.frame == frame && IsNest(body, s, frame)
    requires e.SmEnd? && e.sys == s && e.frame == frame && e.sm == b.id.name
    requires AllPossible(m, [b] + Calls(body) + [e] + rest) && Played(m, [b] + Calls(body) + [e] + rest) == Alive(end)
    ensures Tidy(last) && StackAt(last, s, frame) == StackAt(m, s, frame)
    ensures AllPossible(last, rest) && Played(last, rest) == Alive(end)
    decreases body, 1
  {
    var begun, before := NestParts(m, b, Calls(body), e, rest, end);
    var v := BeginsOnTop(m, b, begun);
    NestRestores(begun, body, s, frame, before);
    RunGrown(begun, Calls(body), Alive(before));
    last := Performed(before, e).m;
    EndsOnTop(before, e, StackAt(m, s, frame), v, last);
  }
}
