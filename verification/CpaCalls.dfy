/**
 Every call has the effect it should have.
 */
module CpaCalls {
  import opened AnnotateLog
  import opened AnnotateNames
  import opened AnnotateQueue
  import opened AnnotateStacks
  import opened ByteQueue
  import opened CpaBackLinks
  import opened CpaEffects
  import opened CpaLines
  import opened CpaLinks
  import opened CpaModel
  import opened CpaRuns
  import opened CpaTidy

  // ---------------------------------------------------------------- states

  // Numbers of states begin at 1.
  lemma StatePositive(st: States, machine: string, state: string, n: int)
    requires StatesDense(st) && HasState(st, machine, state, n)
    ensures n >= 1
  {}

  lemma SameLast(last: map<int, int>, top: int, n: int)
    requires n >= 1 && LastOf(last, top) == n
    ensures top in last && last[top] == n && last[top := n] == last
  {}

  lemma MovedEffect(m: Model, now: nat, flags: nat, cpu: int, top: int, machine: string, st: string, after: Model)
      returns (n: int)
    requires StatesDense(m.states) && after == Moved(m, now, flags, cpu, top, machine, st)
    ensures HasState(after.states, machine, st, n)
    ensures after == m.(states := after.states, last := m.last[top := n],
                        lines := if top in m.last && m.last[top] == n then m.lines
                                 else m.lines + [Line(now, 0, top, n, 1, flags, cpu)])
  {
    n := StateNumber(m.states, machine, st);
    WithStateKeeps(m.states, machine, st);
    StatePositive(after.states, machine, st, n);
    if LastOf(m.last, top) == n {
      SameLast(m.last, top, n);
    }
  }

  lemma EnteringEffect(m: Model, c: Call, sid: Sid, after: Model) returns (n: int)
    requires Tidy(m) && c.State? && !Ignored(c.st) && after == Entering(m, c.now, c.cpu, c.st, sid, c.expl, c.flags)
    ensures StateEffect(m, c, sid, n, after)
  {
    n := 0;
    if Counts(m, c, sid) {
      var top := Top(StackOf(m.stacks, sid));
      TopIsMachine(m, sid);
      n := MovedEffect(Explicit(m, sid, c.expl), c.now, c.flags, c.cpu, top, NameOf(m, top), c.st, after);
    }
  }

  /** A state: what swBegin does, once the system has a number. */
  lemma StateCall(m: Model, c: Call, m1: Model, sid: Sid, after: Model) returns (n: int)
    requires Tidy(m) && c.State? && m1 == WithSystem(m, c.sys) && At(m1, c, sid) && after == Performed(m, c).m
    ensures Performed(m, c).Alive? && (Ignored(c.st) ==> after == m)
    ensures !Ignored(c.st) ==> StateEffect(m1, c, sid, n, after)
  {
    n := 0;
    if !Ignored(c.st) {
      TidySystem(m, c.sys);
      n := EnteringEffect(m1, c, sid, after);
    }
  }

  // ---------------------------------------------------------------- machines

  lemma BackEffect(m: Model, now: nat, cpu: int, top: int, after: Model)
    requires after == LinkedBack(m, now, cpu, top)
    ensures after == m.(ln := m.ln - {top},
                        lines := m.lines + if top in m.ln then [Line(now, 0, top, m.ln[top], 10, 0, cpu)] else [])
  {
    if top !in m.ln {
      assert m.ln - {top} == m.ln;
    }
  }

  lemma EndedSteps(m: Model, now: nat, cpu: int, sid: Sid, name: string, stack: seq<int>, top: int, after: Model)
    requires stack == StackOf(m.stacks, sid) && stack != [] && top == Top(stack) && 1 <= top <= |m.sms.names|
    requires after == Ended(m, now, cpu, sid, name)
    ensures EndEffect(m, now, cpu, sid, name, after)
  {
    if m.sms.names[top - 1].id.name == name {
      var dropped := Dropped(m.(expl := m.expl[sid := false]), sid);
      BackEffect(dropped, now, cpu, top, LinkedBack(dropped, now, cpu, top));
    }
  }

  lemma EndedEffect(m: Model, now: nat, cpu: int, sid: Sid, name: string, after: Model)
    requires Tidy(m) && StackOf(m.stacks, sid) != [] && after == Ended(m, now, cpu, sid, name)
    ensures EndEffect(m, now, cpu, sid, name, after)
  {
    TopIsMachine(m, sid);
    EndedSteps(m, now, cpu, sid, name, StackOf(m.stacks, sid), Top(StackOf(m.stacks, sid)), after);
  }

  /** An end: what swSmEnd does. */
  lemma EndCall(m: Model, c: Call, m1: Model, sid: Sid, after: Model)
    requires Tidy(m) && c.SmEnd? && Possible(m, c) && m1 == WithSystem(m, c.sys) && At(m1, c, sid)
    requires after == Performed(m, c).m
    ensures Performed(m, c).Alive? && EndEffect(m1, c.now, c.cpu, sid, c.sm, after)
  {
    TidySystem(m, c.sys);
    EndedEffect(m1, c.now, c.cpu, sid, c.sm, after);
  }

  lemma SyscallEffect(m: Model, c: Call, sid: Sid, after: Model)
    requires Tidy(m) && c.SyscallLink? && MayLink(m, sid, Id(c.lsm, c.frame)) && At(m, c, sid)
    requires 1 <= sid.sys <= m.numSys && after == SyscallLinked(m, c.now, c.cpu, c.lsm, sid, c.ends, c.sm)
    ensures LinkEffect(m, c, sid, after)
  {
    if StackOf(m.stacks, sid) != [] && c.ends {
      var mid := Opened(m, c.now, c.cpu, sid, Id(c.lsm, c.frame));
      TidyOpened(m, c.now, c.cpu, sid, Id(c.lsm, c.frame));
      EndedEffect(mid, c.now, c.cpu, sid, c.sm, after);
    }
  }

  /** A link: what swSyscallLink does. */
  lemma LinkCall(m: Model, c: Call, m1: Model, sid: Sid, after: Model)
    requires Tidy(m) && c.SyscallLink? && Possible(m, c) && m1 == WithSystem(m, c.sys) && At(m1, c, sid)
    requires after == Performed(m, c).m
    ensures Performed(m, c).Alive? && LinkEffect(m1, c, sid, after)
  {
    TidySystem(m, c.sys);
    SyscallEffect(m1, c, sid, after);
  }

  // The steps of a begin.
  lemma BelowEffect(m: Model, now: nat, cpu: int, sid: Sid, v: int, link: bool, after: Model)
    requires after == Pushed(LinkedBelow(m, now, cpu, sid, v, link), sid, v)
    ensures var stack := StackOf(m.stacks, sid);
      var links := link && stack != [];
      after == m.(stacks := m.stacks[sid := stack + [v]], expl := m.expl[sid := false],
                  ln := if links then m.ln[v := stack[|stack| - 1]] else m.ln,
                  lines := m.lines + if links then [Line(now, 0, stack[|stack| - 1], v, 10, 0, cpu)] else [])
  {}

  lemma MetEffect(m: Model, sys: int, key: Id, v: int, after: Model)
    requires Ready(m, sys, key, v) && after == Met(m, sys, key, v)
    ensures var waits := key in m.waiting[sys - 1];
      var k := if waits then m.waiting[sys - 1][key] else 0;
      after == if !waits then m
               else m.(waiting := m.waiting[sys - 1 := m.waiting[sys - 1] - {key}], ln := m.ln[v := m.lines[k].sm],
                       lines := m.lines[k := m.lines[k].(stq := v)])
  {}

  lemma FirstEffect(m: Model, now: nat, cpu: int, v: int, machine: string, st: string, after: Model) returns (n: int)
    requires StatesDense(m.states) && after == FirstState(m, now, cpu, v, machine, st)
    ensures if st == "" then after == m
            else HasState(after.states, machine, st, n)
                 && after == m.(states := after.states, last := m.last[v := n],
                                lines := m.lines + [Line(now, 0, v, n, 1, 0, cpu)])
  {
    n := StateNumber(m.states, machine, st);
    WithStateKeeps(m.states, machine, st);
  }

  function Stateless(c: Call): Call
    requires c.SmBegin?
  {
    SmBegin(c.now, c.sys, c.cpu, c.id, c.flags, c.frame, "")
  }

  // A begin without a state.
  lemma StatelessEffect(m: Model, c: Call, sid: Sid, v: int, key: Id, below: Model, met: Model)
    requires c.SmBegin? && sid.frame == c.frame && key == Id(c.id.name, c.frame)
    requires Ready(m, sid.sys, key, v) && LinkFree(m, sid, key, v, c.flags / 16 % 2 == 1)
    requires 1 <= v <= |m.sms.names| && m.sms.names[v - 1] == Entry(sid.sys, c.id)
    requires below == Pushed(LinkedBelow(m, c.now, c.cpu, sid, v, c.flags / 16 % 2 == 1), sid, v)
    requires met == Met(below, sid.sys, key, v)
    ensures BeginEffect(m, Stateless(c), sid, v, 0, met)
  {
    BelowEffect(m, c.now, c.cpu, sid, v, c.flags / 16 % 2 == 1, below);
    ReadyBelow(m, c.now, c.cpu, sid, v, c.flags / 16 % 2 == 1, key);
    MetEffect(below, sid.sys, key, v, met);
  }

  lemma StartedEffect(m: Model, c: Call, sid: Sid, v: int, link: bool, after: Model) returns (n: int)
    requires c.SmBegin? && sid.frame == c.frame && link == (c.flags / 16 % 2 == 1)
    requires Ready(m, sid.sys, Id(c.id.name, c.frame), v) && LinkFree(m, sid, Id(c.id.name, c.frame), v, link)
    requires 1 <= v <= |m.sms.names| && m.sms.names[v - 1] == Entry(sid.sys, c.id)
    requires after == Started(m, c.now, c.cpu, sid, c.id, v, link, c.st)
    ensures BeginEffect(m, c, sid, v, n, after)
  {
    var key := Id(c.id.name, c.frame);
    var below := Pushed(LinkedBelow(m, c.now, c.cpu, sid, v, link), sid, v);
    var met := Met(below, sid.sys, key, v);
    StatelessEffect(m, c, sid, v, key, below, met);
    n := FirstEffect(met, c.now, c.cpu, v, c.id.name, c.st, after);
    Speaks(m, c, sid, v, n, met, after);
  }

  lemma Speaks(m: Model, c: Call, sid: Sid, v: int, n: int, met: Model, after: Model)
    requires c.SmBegin? && BeginEffect(m, Stateless(c), sid, v, 0, met)
    requires if c.st == "" then after == met
             else HasState(after.states, c.id.name, c.st, n)
                  && after == met.(states := after.states, last := met.last[v := n],
                                   lines := met.lines + [Line(c.now, 0, v, n, 1, 0, c.cpu)])
    ensures BeginEffect(m, c, sid, v, n, after)
  {}

  /** A begin: what swSmBegin does. */
  lemma BeginCall(m: Model, c: Call, m1: Model, sid: Sid, after: Model) returns (v: int, n: int)
    requires Tidy(m) && c.SmBegin? && Possible(m, c) && m1 == WithSystem(m, c.sys) && At(m1, c, sid)
    requires after == Performed(m, c).m
    ensures Performed(m, c).Alive? && BeginEffect(m1, c, sid, v, n, after)
  {
    v := NumberOf(m1.sms, sid.sys, c.id);
    var m2 := WithMachine(m1, sid.sys, c.id);
    TidySystem(m, c.sys);
    BeginReady(m, c.sys, c.id, c.flags, c.frame);
    EnterMeaning(m1.sms, sid.sys, c.id);
    n := StartedEffect(m2, c, sid, v, c.flags / 16 % 2 == 1, after);
    NamedFirst(m1, m2, c, sid, v, n, after);
  }

  lemma NamedFirst(m1: Model, m2: Model, c: Call, sid: Sid, v: int, n: int, after: Model)
    requires c.SmBegin? && m2 == m1.(sms := m2.sms) && BeginEffect(m2, c, sid, v, n, after)
    ensures BeginEffect(m1, c, sid, v, n, after)
  {}

  // ---------------------------------------------------------------- queues

  lemma TaggedIs(k: nat, count: int)
    ensures Tagged(Run(k, count)) == Copies(k, count)
  {}

  lemma BytesHold(m: Model, q: int, s: seq<nat>, after: Model)
    requires 1 <= q <= |m.queues| && after.queues == WithBytes(m, q, s).queues
    ensures Holds(m, after, q, s) && |after.queues| == |m.queues|
  {}

  lemma AlikeHolds(m: Model, m2: Model, after: Model, q: int, s: seq<nat>)
    requires Alike(m, m2) && Holds(m2, after, q, s)
    ensures Holds(m, after, q, s)
  {}

  lemma HoldsTwice(m: Model, m2: Model, after: Model, q: int, r: seq<nat>, s: seq<nat>)
    requires Holds(m, m2, q, r) && Holds(m2, after, q, s)
    ensures Holds(m, after, q, s)
  {}

  // A queue that is named for the first time is empty.
  lemma NamedEffect(m: Model, sys: int, id: Id, q: int, after: Model)
    requires Tidy(m) && 1 <= sys <= m.numSys && q == NumberOf(m.qns, sys, id) && after == WithQueue(m, sys, id)
    ensures IsQueue(after, sys, id, q) && after == m.(qns := after.qns, queues := after.queues)
    ensures Alike(m, after)
  {
    EnterMeaning(m.qns, sys, id);
  }

  lemma PutEffect(m: Model, now: nat, flags: nat, cpu: int, sm: int, q: int, count: int, after: Model)
    requires 1 <= q <= |m.queues| && after == Put(m, now, flags, cpu, sm, q, count)
    ensures after == m.(queues := after.queues, lines := m.lines + [Line(now, count, sm, q, 4, flags, cpu)])
    ensures |after.queues| == |m.queues|
    ensures Holds(m, after, q, if flags / 4 % 2 == 1 then Copies(|m.lines|, count) + QueueOf(m, q)
                               else QueueOf(m, q) + Copies(|m.lines|, count))
  {
    TaggedIs(|m.lines|, count);
    BytesHold(m, q, Joined(QueueOf(m, q), Run(|m.lines|, count), HasFlag(flags, FlagOpposite)), after);
  }

  lemma DrawnEffect(m: Model, now: nat, flags: nat, cpu: int, sm: int, q: int, count: int, o: Outcome)
    requires 1 <= q <= |m.queues| && o == Drawn(m, now, flags, cpu, sm, q, count)
    ensures o.Dead? <==> count > |QueueOf(m, q)|
    ensures o.m == m.(queues := o.m.queues,
                      lines := if o.Dead? then m.lines else m.lines + [Line(now, count, sm, q, 5, flags, cpu)])
    ensures |o.m.queues| == |m.queues|
    ensures Holds(m, o.m, q, if o.Dead? then QueueOf(m, q) else if count < 0 then [] else QueueOf(m, q)[count..])
  {
    var s := QueueOf(m, q);
    if count <= |s| {
      BytesHold(m, q, if 0 <= count <= |s| then s[count..] else [], o.m);
    }
  }

  lemma QueueNamed(m: Model, sid: Sid, id: Id, q: int, m2: Model)
    requires Tidy(m) && 1 <= sid.sys <= m.numSys && q == NumberOf(m.qns, sid.sys, id)
    requires m2 == Calm(WithQueue(m, sid.sys, id), sid)
    ensures IsQueue(m2, sid.sys, id, q) && m2 == m.(qns := m2.qns, queues := m2.queues, expl := m.expl[sid := false])
    ensures Alike(m, m2)
  {
    NamedEffect(m, sid.sys, id, q, WithQueue(m, sid.sys, id));
  }

  lemma QueuedBytes(m: Model, c: Call, sid: Sid, q: int, m2: Model, after: Model)
    requires c.Q? && StackOf(m.stacks, sid) != [] && c.count != 0 && IsQueue(m2, sid.sys, c.id, q)
    requires m2 == m.(qns := m2.qns, queues := m2.queues, expl := m.expl[sid := false]) && Alike(m, m2)
    requires after == Put(m2, c.now, 0, c.cpu, Top(StackOf(m.stacks, sid)), q, c.count)
    ensures QueueEffect(m, c, sid, q, after)
  {
    PutEffect(m2, c.now, 0, c.cpu, Top(StackOf(m.stacks, sid)), q, c.count, after);
    AlikeHolds(m, m2, after, q, QueueOf(m, q) + Copies(|m.lines|, c.count));
  }

  lemma QueuedNone(m: Model, c: Call, sid: Sid, q: int, after: Model)
    requires c.Q? && StackOf(m.stacks, sid) != [] && c.count == 0 && IsQueue(after, sid.sys, c.id, q)
    requires after == m.(qns := after.qns, queues := after.queues, expl := m.expl[sid := false])
    requires Alike(m, after)
    ensures QueueEffect(m, c, sid, q, after)
  {}

  lemma QueuedEffect(m: Model, c: Call, sid: Sid, q: int, after: Model)
    requires Tidy(m) && c.Q? && 1 <= sid.sys <= m.numSys && q == NumberOf(m.qns, sid.sys, c.id)
    requires after == Queued(m, c.now, c.cpu, c.id, sid, c.count)
    ensures QueueEffect(m, c, sid, q, after)
  {
    if StackOf(m.stacks, sid) != [] {
      var m2 := Calm(WithQueue(m, sid.sys, c.id), sid);
      QueueNamed(m, sid, c.id, q, m2);
      if c.count == 0 {
        QueuedNone(m, c, sid, q, after);
      } else {
        QueuedBytes(m, c, sid, q, m2, after);
      }
    }
  }

  /** Bytes are queued: what swQ does. */
  lemma QueueCall(m: Model, c: Call, m1: Model, sid: Sid, after: Model) returns (q: int)
    requires Tidy(m) && c.Q? && m1 == WithSystem(m, c.sys) && At(m1, c, sid) && after == Performed(m, c).m
    ensures Performed(m, c).Alive? && QueueEffect(m1, c, sid, q, after)
  {
    TidySystem(m, c.sys);
    q := NumberOf(m1.qns, sid.sys, c.id);
    QueuedEffect(m1, c, sid, q, after);
  }

  lemma DequeuedEffect(m: Model, c: Call, sid: Sid, q: int, o: Outcome)
    requires Tidy(m) && c.Dq? && 1 <= sid.sys <= m.numSys && q == NumberOf(m.qns, sid.sys, c.id)
    requires o == Dequeued(m, c.now, c.cpu, c.id, sid, c.count)
    ensures DequeueEffect(m, c, sid, q, o)
  {
    if StackOf(m.stacks, sid) != [] {
      var m2 := Calm(WithQueue(m, sid.sys, c.id), sid);
      QueueNamed(m, sid, c.id, q, m2);
      DrawnEffect(m2, c.now, 0, c.cpu, Top(StackOf(m.stacks, sid)), q, c.count, o);
    }
  }

  /** Bytes are taken: what swDq does. */
  lemma DequeueCall(m: Model, c: Call, m1: Model, sid: Sid, o: Outcome) returns (q: int)
    requires Tidy(m) && c.Dq? && m1 == WithSystem(m, c.sys) && At(m1, c, sid) && o == Performed(m, c)
    ensures DequeueEffect(m1, c, sid, q, o)
  {
    TidySystem(m, c.sys);
    q := NumberOf(m1.qns, sid.sys, c.id);
    DequeuedEffect(m1, c, sid, q, o);
  }

  lemma ClearedEffect(m: Model, now: nat, cpu: int, sm: int, q: int, after: Model)
    requires 1 <= q <= |m.queues| && after == Cleared(m, now, cpu, sm, q, 0)
    ensures after == m.(queues := after.queues, lines := m.lines + [Line(now, 0, sm, q, 8, 0, cpu)])
    ensures |after.queues| == |m.queues| && Holds(m, after, q, [])
  {
    BytesHold(m, q, [], after);
  }

  lemma CutEffect(m: Model, now: nat, cpu: int, sm: int, q: int, size: int, keep: nat, s: seq<nat>, after: Model)
    requires 1 <= q <= |m.queues| && s == QueueOf(m, q) && after == SizeSet(m, now, cpu, sm, q, size)
    requires size < |s| && keep == (if size > 0 then size else 0)
    ensures after == m.(queues := after.queues, lines := m.lines + [Line(now, size, sm, q, 8, 0, cpu)])
    ensures |after.queues| == |m.queues| && Holds(m, after, q, s[..keep])
  {
    BytesHold(m, q, s[..keep], after);
  }

  lemma SizeSetEffect(m: Model, now: nat, cpu: int, sm: int, q: int, size: int, s: seq<nat>, after: Model)
    requires 1 <= q <= |m.queues| && s == QueueOf(m, q) && after == SizeSet(m, now, cpu, sm, q, size)
    ensures after == m.(queues := after.queues,
                        lines := m.lines + if |s| < size then [Line(now, size - |s|, sm, q, 4, 0, cpu)]
                                           else if |s| > size then [Line(now, size, sm, q, 8, 0, cpu)] else [])
    ensures |after.queues| == |m.queues|
    ensures Holds(m, after, q, Sized(s, |m.lines|, size))
  {
    if |s| < size {
      PutEffect(m, now, 0, cpu, sm, q, size - |s|, after);
    } else if |s| > size {
      CutEffect(m, now, cpu, sm, q, size, if size > 0 then size else 0, s, after);
    } else {
      assert s[..size] == s;
    }
  }

  lemma SizedEffect(m: Model, c: Call, sid: Sid, q: int, m2: Model, after: Model)
    requires c.Sq? && StackOf(m.stacks, sid) != []
    requires IsQueue(m2, sid.sys, c.id, q) && m2 == m.(qns := m2.qns, queues := m2.queues)
    requires Alike(m, m2)
    requires after == Resized(m2, c.now, c.cpu, Top(StackOf(m.stacks, sid)), q, c.size, c.flags)
    ensures SizeEffect(m, c, sid, q, after)
  {
    var top := Top(StackOf(m.stacks, sid));
    if c.flags / 32 % 2 == 1 {
      ClearedSized(m, c, sid, q, m2, Cleared(m2, c.now, c.cpu, top, q, 0), after);
    } else {
      SizeSetEffect(m2, c.now, c.cpu, top, q, c.size, QueueOf(m, q), after);
      AlikeHolds(m, m2, after, q, Sized(QueueOf(m, q), |m.lines|, c.size));
    }
  }

  lemma ClearedSized(m: Model, c: Call, sid: Sid, q: int, m2: Model, m3: Model, after: Model)
    requires c.Sq? && StackOf(m.stacks, sid) != [] && c.flags / 32 % 2 == 1
    requires IsQueue(m2, sid.sys, c.id, q) && m2 == m.(qns := m2.qns, queues := m2.queues)
    requires Alike(m, m2)
    requires m3 == Cleared(m2, c.now, c.cpu, Top(StackOf(m.stacks, sid)), q, 0)
    requires after == SizeSet(m3, c.now, c.cpu, Top(StackOf(m.stacks, sid)), q, c.size)
    ensures SizeEffect(m, c, sid, q, after)
  {
    var top := Top(StackOf(m.stacks, sid));
    ClearedEffect(m2, c.now, c.cpu, top, q, m3);
    SizeSetEffect(m3, c.now, c.cpu, top, q, c.size, [], after);
    HoldsTwice(m2, m3, after, q, [], Sized([], |m3.lines|, c.size));
    AlikeHolds(m, m2, after, q, Sized([], |m3.lines|, c.size));
  }

  /** A queue is given a size: what swSq does. */
  lemma SizeCall(m: Model, c: Call, m1: Model, sid: Sid, after: Model) returns (q: int)
    requires Tidy(m) && c.Sq? && m1 == WithSystem(m, c.sys) && At(m1, c, sid) && after == Performed(m, c).m
    ensures Performed(m, c).Alive? && SizeEffect(m1, c, sid, q, after)
  {
    TidySystem(m, c.sys);
    q := NumberOf(m1.qns, sid.sys, c.id);
    if StackOf(m1.stacks, sid) != [] {
      var m2 := WithQueue(m1, sid.sys, c.id);
      NamedEffect(m1, sid.sys, c.id, q, m2);
      SizedEffect(m1, c, sid, q, m2, after);
    }
  }

  // ---------------------------------------------------------------- hardware

  lemma Quarter(k: nat, r: nat)
    requires r < 2
    ensures (2 * k + r) / 4 == k / 2
  {}

  lemma HardwareIs(flags: nat)
    ensures Hardware(flags) == flags / 2 * 2 + 1 && Hardware(flags) / 4 == flags / 4
  {
    Quarter(flags / 2, flags % 2);
    Quarter(flags / 2, 1);
  }

  lemma MachineNamed(m: Model, sys: int, id: Id, v: int, after: Model)
    requires Tidy(m) && 1 <= sys <= m.numSys && v == NumberOf(m.sms, sys, id) && after.sms == Enter(m.sms, sys, id)
    ensures 1 <= v <= |after.sms.names| && after.sms.names[v - 1] == Entry(sys, id)
  {
    EnterMeaning(m.sms, sys, id);
  }

  // The machine and the queue of a hardware call are named.
  lemma BothNamed(m: Model, c: Call, m1: Model, s: int, qs: int, v: int, q: int, m2: Model)
    requires (c.HwQ? || c.HwDq?) && Tidy(m1) && 1 <= s <= m1.numSys && 1 <= qs <= m1.numSys
    requires v == NumberOf(m1.sms, s, c.machine) && q == NumberOf(m1.qns, qs, c.id)
    requires m2 == WithMachine(WithQueue(m1, qs, c.id), s, c.machine)
    ensures IsQueue(m2, qs, c.id, q)
    ensures 1 <= v <= |m2.sms.names| && m2.sms.names[v - 1] == Entry(s, c.machine)
    ensures m2 == m1.(sms := m2.sms, qns := m2.qns, queues := m2.queues)
    ensures Alike(m1, m2)
  {
    NamedEffect(m1, qs, c.id, q, WithQueue(m1, qs, c.id));
    MachineNamed(m1, s, c.machine, v, m2);
  }

  // Both systems have numbers.
  lemma BothNumbered(m: Model, sys: nat, qsys: nat, m1: Model)
    requires Tidy(m) && m1 == WithSystem(WithSystem(m, sys), qsys)
    ensures Tidy(m1) && sys in m1.systems && qsys in m1.systems
    ensures m1.systems[sys] == SystemOf(m1, sys) && m1.systems[qsys] == SystemOf(m1, qsys)
    ensures 1 <= m1.systems[sys] <= m1.numSys && 1 <= m1.systems[qsys] <= m1.numSys
  {
    TidySystem(m, sys);
    TidySystem(WithSystem(m, sys), qsys);
  }

  /** Bytes are queued by hardware. */
  lemma HwQueueCall(m: Model, c: Call, m1: Model, after: Model) returns (v: int, q: int)
    requires Tidy(m) && c.HwQ? && m1 == WithSystem(WithSystem(m, c.sys), c.qsys) && after == Performed(m, c).m
    ensures Performed(m, c).Alive? && HwQueueEffect(m1, c, v, q, after)
  {
    v, q := HwMachine(m, c.sys, c.machine, c.qsys), HwQueue(m, c.sys, c.qsys, c.id);
    var m2 := Both(m, c.sys, c.machine, c.qsys, c.id);
    BothNumbered(m, c.sys, c.qsys, m1);
    BothNamed(m, c, m1, m1.systems[c.sys], m1.systems[c.qsys], v, q, m2);
    HardwareIs(c.flags);
    PutEffect(m2, c.now, Hardware(c.flags), 0, v, q, c.count, after);
  }

  /** Bytes are taken by hardware. */
  lemma HwDequeueCall(m: Model, c: Call, m1: Model, o: Outcome) returns (v: int, q: int)
    requires Tidy(m) && c.HwDq? && m1 == WithSystem(WithSystem(m, c.sys), c.qsys) && o == Performed(m, c)
    ensures HwDequeueEffect(m1, c, v, q, o)
  {
    v, q := HwMachine(m, c.sys, c.machine, c.qsys), HwQueue(m, c.sys, c.qsys, c.id);
    var m2 := Both(m, c.sys, c.machine, c.qsys, c.id);
    BothNumbered(m, c.sys, c.qsys, m1);
    BothNamed(m, c, m1, m1.systems[c.sys], m1.systems[c.qsys], v, q, m2);
    HardwareIs(c.flags);
    DrawnEffect(m2, c.now, Hardware(c.flags), 0, v, q, c.count, o);
  }
}
