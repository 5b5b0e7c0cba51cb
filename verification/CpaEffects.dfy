/**
 What each call does, as a reader of the manual would put it: which lines it writes and which of the
 queues, stacks and links it changes, in numbers and plain lists.  Nothing here uses the functions that
 describe the calls step by step.
 */
module CpaEffects {
  import opened AnnotateLog
  import opened AnnotateNames
  import opened AnnotateStacks
  import opened CpaModel

  // The stack of a call, once its system has a number.
  predicate At(m: Model, c: Call, sid: Sid)
    requires !c.HwQ? && !c.HwDq?
  {
    c.sys in m.systems && sid == Sid(m.systems[c.sys], c.frame)
  }

  // ---------------------------------------------------------------- states

  // A state counts if a machine runs there, and it is explicit or explicit states have not taken over.
  predicate Counts(m: Model, c: Call, sid: Sid)
    requires c.State?
  {
    !Ignored(c.st) && StackOf(m.stacks, sid) != [] && (c.expl || sid !in m.expl || !m.expl[sid])
  }

  // The machine on top is in state number n, and a line says so if it was not before.
  ghost predicate StateEffect(m: Model, c: Call, sid: Sid, n: int, after: Model)
    requires c.State?
  {
    var stack := StackOf(m.stacks, sid);
    if !Counts(m, c, sid) then after == m
    else
      var top := stack[|stack| - 1];
      && 1 <= top <= |m.sms.names| && HasState(after.states, m.sms.names[top - 1].id.name, c.st, n)
      && after == m.(
                    states := after.states, last := m.last[top := n],
                    expl := if c.expl then m.expl[sid := true] else m.expl,
                    lines := if top in m.last && m.last[top] == n then m.lines
                             else m.lines + [Line(c.now, 0, top, n, 1, c.flags, c.cpu)])
  }

  // ---------------------------------------------------------------- machines

  // The machine on top ends if it has the name: a line leads back to where its link came from, and if
  // another machine is below it, one says what its last state was.
  predicate EndEffect(m: Model, now: nat, cpu: int, sid: Sid, name: string, after: Model) {
    var stack := StackOf(m.stacks, sid);
    && stack != []
    && var top := stack[|stack| - 1];
    && 1 <= top <= |m.sms.names|
    && after == if m.sms.names[top - 1].id.name != name then m.(expl := m.expl[sid := false])
                else m.(stacks := m.stacks[sid := stack[..|stack| - 1]], expl := m.expl[sid := false],
                        ln := m.ln - {top},
                        lines := m.lines
                                 + (if top in m.ln then [Line(now, 0, top, m.ln[top], 10, 0, cpu)] else [])
                                 + if |stack| == 1 then []
                                   else [Line(now, 0, top, if top in m.last then m.last[top] else 0, 1, 0, cpu)])
  }

  // Machine number v is on top.  It may be linked to the one below, or to a link that waited for its name
  // and frame; and it may be in state number n at once.
  ghost predicate BeginEffect(m: Model, c: Call, sid: Sid, v: int, n: int, after: Model)
    requires c.SmBegin?
  {
    var stack, key := StackOf(m.stacks, sid), Id(c.id.name, c.frame);
    && 1 <= sid.sys <= |m.waiting| && 1 <= v <= |after.sms.names| && after.sms.names[v - 1] == Entry(sid.sys, c.id)
    && var links, waits := c.flags / 16 % 2 == 1 && stack != [], key in m.waiting[sid.sys - 1];
    && !(links && waits)
    && var k := if waits then m.waiting[sid.sys - 1][key] else 0;
    && (waits ==> 0 <= k < |m.lines| && m.lines[k].op == 10 && m.lines[k].stq == 65535)
    && (if c.st == "" then after.states == m.states else HasState(after.states, c.id.name, c.st, n))
    && after == m.(
                  sms := after.sms, states := after.states,
                  stacks := m.stacks[sid := stack + [v]], expl := m.expl[sid := false],
                  waiting := if waits then m.waiting[sid.sys - 1 := m.waiting[sid.sys - 1] - {key}] else m.waiting,
                  ln := if links then m.ln[v := stack[|stack| - 1]]
                        else if waits then m.ln[v := m.lines[k].sm] else m.ln,
                  last := if c.st == "" then m.last else m.last[v := n],
                  lines := (if waits then m.lines[k := m.lines[k].(stq := v)] else m.lines)
                           + (if links then [Line(c.now, 0, stack[|stack| - 1], v, 10, 0, c.cpu)] else [])
                           + if c.st == "" then [] else [Line(c.now, 0, v, n, 1, 0, c.cpu)])
  }

  // A link whose target is not known yet waits for a machine of this name, and then the machine on top
  // may end.
  predicate LinkEffect(m: Model, c: Call, sid: Sid, after: Model)
    requires c.SyscallLink?
  {
    var stack := StackOf(m.stacks, sid);
    if stack == [] then after == m
    else
      && 1 <= sid.sys <= |m.waiting|
      && var mid := m.(lines := m.lines + [Line(c.now, 0, stack[|stack| - 1], 65535, 10, 0, c.cpu)],
                        waiting := m.waiting[sid.sys - 1 :=
                                                m.waiting[sid.sys - 1][Id(c.lsm, c.frame) := |m.lines|]]);
      if c.ends then EndEffect(mid, c.now, c.cpu, sid, c.sm, after) else after == mid
  }

  // ---------------------------------------------------------------- queues

  function Copies(x: nat, n: int): seq<nat> {
    seq(if n < 0 then 0 else n, _ => x)
  }

  // Queue q has this name.
  predicate IsQueue(m: Model, sys: int, id: Id, q: int) {
    1 <= q <= |m.queues| && q <= |m.qns.names| && m.qns.names[q - 1] == Entry(sys, id)
  }

  // Queue q holds s, and the other queues are as they were.
  ghost predicate Holds(m: Model, after: Model, q: int, s: seq<nat>) {
    forall p :: QueueOf(after, p) == if p == q then s else QueueOf(m, p)
  }

  ghost predicate Alike(m: Model, after: Model) {
    forall p :: QueueOf(after, p) == QueueOf(m, p)
  }

  ghost predicate Fills(m: Model, after: Model, sys: int, id: Id, q: int, s: seq<nat>) {
    IsQueue(after, sys, id, q) && Holds(m, after, q, s)
  }

  // Bytes are added at the back, and named by the number of the line that adds them.
  ghost predicate QueueEffect(m: Model, c: Call, sid: Sid, q: int, after: Model)
    requires c.Q?
  {
    var stack := StackOf(m.stacks, sid);
    if stack == [] then after == m
    else
      && Fills(m, after, sid.sys, c.id, q, QueueOf(m, q) + Copies(|m.lines|, c.count))
      && after == m.(qns := after.qns, queues := after.queues, expl := m.expl[sid := false],
                      lines := if c.count == 0 then m.lines
                               else m.lines + [Line(c.now, c.count, stack[|stack| - 1], q, 4, 0, c.cpu)])
  }

  // The first bytes are taken, or all for -1; or there are too few.
  ghost predicate DequeueEffect(m: Model, c: Call, sid: Sid, q: int, o: Outcome)
    requires c.Dq?
  {
    var stack, after := StackOf(m.stacks, sid), o.m;
    if stack == [] then o == Alive(m)
    else
      && (o.Dead? <==> c.count > |QueueOf(m, q)|)
      && Fills(m, after, sid.sys, c.id, q,
               if o.Dead? then QueueOf(m, q) else if c.count < 0 then [] else QueueOf(m, q)[c.count..])
      && after == m.(qns := after.qns, queues := after.queues, expl := m.expl[sid := false],
                      lines := if o.Dead? then m.lines
                               else m.lines + [Line(c.now, c.count, stack[|stack| - 1], q, 5, 0, c.cpu)])
  }

  // Made longer with x, or shorter, at the back.
  function Sized(s: seq<nat>, x: nat, size: int): seq<nat> {
    if |s| < size then s + Copies(x, size - |s|) else s[..if size > 0 then size else 0]
  }

  // The queue is emptied if the flags say so, and then given its size.
  ghost predicate SizeEffect(m: Model, c: Call, sid: Sid, q: int, after: Model)
    requires c.Sq?
  {
    var stack := StackOf(m.stacks, sid);
    if stack == [] then after == m
    else
      var top, reset := stack[|stack| - 1], c.flags / 32 % 2 == 1;
      var s := if reset then [] else QueueOf(m, q);
      var lines := if reset then m.lines + [Line(c.now, 0, top, q, 8, 0, c.cpu)] else m.lines;
      && Fills(m, after, sid.sys, c.id, q, Sized(s, |lines|, c.size))
      && after == m.(qns := after.qns, queues := after.queues,
                      lines := lines
                               + if |s| < c.size then [Line(c.now, c.size - |s|, top, q, 4, 0, c.cpu)]
                                 else if |s| > c.size then [Line(c.now, c.size, top, q, 8, 0, c.cpu)] else [])
  }

  // The same for hardware, whose machine has a name and whose queue may be of another system; with bit 4
  // of the flags bytes are added in front, and bit 1 is always noted.
  ghost predicate HwQueueEffect(m: Model, c: Call, v: int, q: int, after: Model)
    requires c.HwQ?
  {
    && c.sys in m.systems && c.qsys in m.systems
    && 1 <= v <= |after.sms.names| && after.sms.names[v - 1] == Entry(m.systems[c.sys], c.machine)
    && Fills(m, after, m.systems[c.qsys], c.id, q,
             if c.flags / 4 % 2 == 1 then Copies(|m.lines|, c.count) + QueueOf(m, q)
             else QueueOf(m, q) + Copies(|m.lines|, c.count))
    && after == m.(sms := after.sms, qns := after.qns, queues := after.queues,
                    lines := m.lines + [Line(c.now, c.count, v, q, 4, c.flags / 2 * 2 + 1, 0)])
  }

  ghost predicate HwDequeueEffect(m: Model, c: Call, v: int, q: int, o: Outcome)
    requires c.HwDq?
  {
    var after := o.m;
    && c.sys in m.systems && c.qsys in m.systems
    && 1 <= v <= |after.sms.names| && after.sms.names[v - 1] == Entry(m.systems[c.sys], c.machine)
    && (o.Dead? <==> c.count > |QueueOf(m, q)|)
    && Fills(m, after, m.systems[c.qsys], c.id, q,
             if o.Dead? then QueueOf(m, q) else if c.count < 0 then [] else QueueOf(m, q)[c.count..])
    && after == m.(sms := after.sms, qns := after.qns, queues := after.queues,
                    lines := if o.Dead? then m.lines
                             else m.lines + [Line(c.now, c.count, v, q, 5, c.flags / 2 * 2 + 1, 0)])
  }

  // ---------------------------------------------------------------- order

  predicate Sorted(s: seq<nat>) {
    forall i, j :: 0 <= i < j < |s| ==> s[i] <= s[j]
  }

  predicate Below(s: seq<nat>, n: nat) {
    forall i :: 0 <= i < |s| ==> s[i] < n
  }

  // Every byte names a line that is there, and older bytes come first.
  ghost predicate OldestFirst(m: Model) {
    forall q :: Sorted(QueueOf(m, q)) && Below(QueueOf(m, q), |m.lines|)
  }

  // No bytes are added in front: bit 4 is not set.
  predicate AtBack(c: Call) {
    c.HwQ? ==> c.flags / 4 % 2 == 0
  }

  predicate AllAtBack(calls: seq<Call>) {
    forall k :: 0 <= k < |calls| ==> AtBack(calls[k])
  }

  // The first bytes of s are gone, and none of them is younger than any that stay.
  predicate OldestGone(s: seq<nat>, rest: seq<nat>) {
    && |rest| <= |s| && rest == s[|s| - |rest|..]
    && forall i, j :: 0 <= i < |s| - |rest| && 0 <= j < |rest| ==> s[i] <= rest[j]
  }
}
