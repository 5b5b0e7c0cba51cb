/**
 What a reader of the lines alone can tell: what is in every queue.  And what calls do to lines.
 */
module CpaLines {
  import opened AnnotateLog
  import opened AnnotateNames
  import opened AnnotateQueue
  import opened AnnotateStacks
  import opened ByteQueue
  import opened CpaModel

  // ---------------------------------------------------------------- rebuilding queues from lines

  predicate QueueOp(op: int) {
    op == OpQueue || op == OpDequeue || op == OpSizeQueue
  }

  // What line k does to queue q, for a reader who has only the line.
  function Rebuild(was: seq<nat>, k: nat, l: Line, q: int): seq<nat> {
    if l.stq != q || !QueueOp(l.op) then was
    else if l.op == OpQueue then Joined(was, Run(k, l.data), l.flag >= 0 && HasFlag(l.flag, FlagOpposite))
    else if l.op == OpDequeue then if 0 <= l.data <= |was| then was[l.data..] else []
    else if 0 <= l.data <= |was| then was[..l.data] else []
  }

  function Rebuilt(lines: seq<Line>, q: int): seq<nat> {
    if lines == [] then []
    else
      var k := |lines| - 1;
      Rebuild(Rebuilt(lines[..k], q), k, lines[k], q)
  }

  /** Every queue is what a reader of the lines rebuilds. */
  ghost predicate Faithful(m: Model) {
    forall q :: QueueOf(m, q) == Rebuilt(m.lines, q)
  }

  lemma RebuiltAdd(lines: seq<Line>, l: Line, q: int)
    ensures Rebuilt(lines + [l], q) == Rebuild(Rebuilt(lines, q), |lines|, l, q)
  {
    assert (lines + [l])[..|lines|] == lines;
  }

  // Lines about other things do not matter.
  lemma {:induction false} RebuiltSame(a: seq<Line>, b: seq<Line>, q: int)
    requires |a| <= |b| && forall k :: |a| <= k < |b| ==> !QueueOp(b[k].op)
    requires forall k :: 0 <= k < |a| ==> a[k] == b[k] || (!QueueOp(a[k].op) && !QueueOp(b[k].op))
    ensures Rebuilt(b, q) == Rebuilt(a, q)
    decreases |b|
  {
    if b != [] {
      var n := |b| - 1;
      if |a| == |b| {
        RebuiltSame(a[..n], b[..n], q);
      } else {
        RebuiltSame(a, b[..n], q);
      }
    }
  }

  // ---------------------------------------------------------------- what a call keeps

  // A line stays as it is, or it is an open link that is given its target.
  predicate LineKept(a: Line, b: Line) {
    b == a || (OpenLine(a) && !OpenLine(b) && b == a.(stq := b.stq))
  }

  ghost predicate Extends(a: seq<Line>, b: seq<Line>) {
    |a| <= |b| && forall k :: 0 <= k < |a| ==> LineKept(a[k], b[k])
  }

  lemma ExtendsTwice(a: seq<Line>, b: seq<Line>, c: seq<Line>)
    requires Extends(a, b) && Extends(b, c)
    ensures Extends(a, c)
  {
    forall k | 0 <= k < |a|
      ensures LineKept(a[k], c[k])
    {
      assert LineKept(a[k], b[k]) && LineKept(b[k], c[k]);
    }
  }

  // An open line has been given its target if the machine has begun, and is as it was if not.
  predicate Fate(a: seq<Line>, b: seq<Line>, k: int, begun: bool) {
    && 0 <= k < |a| <= |b| && OpenLine(a[k])
    && (begun <==> !OpenLine(b[k])) && (!begun ==> b[k] == a[k])
  }

  // A line that is not about queues.
  predicate NotQueues(l: Line) {
    !QueueOp(l.op) && 0 <= l.op < 256
  }

  // Queues stay, and the new lines are not about queues.
  ghost predicate Quiet(m: Model, after: Model) {
    && after.queues == m.queues && Extends(m.lines, after.lines)
    && (forall k :: |m.lines| <= k < |after.lines| ==> NotQueues(after.lines[k]))
  }

  /** Lines stay, and queues can still be rebuilt from them. */
  ghost predicate Follows(m: Model, after: Model) {
    Extends(m.lines, after.lines) && (Faithful(m) ==> Faithful(after))
  }

  // ---------------------------------------------------------------- what fits into a file

  // The type of every count and size is a signed number of 32 bits.
  predicate IsInt(n: int) {
    -0x8000_0000 <= n < 0x8000_0000
  }

  predicate IntArguments(c: Call) {
    && (c.Q? || c.Dq? || c.HwQ? || c.HwDq? ==> IsInt(c.count))
    && (c.Sq? ==> IsInt(c.size))
  }

  // What a line says about queues survives the widths of its fields.
  predicate Legible(l: Line) {
    NotQueues(l) || (QueueOp(l.op) && 0 <= l.stq <= Unknown && l.flag >= 0 && IsInt(l.data))
  }

  ghost predicate AllLegible(m: Model) {
    |m.queues| < Unknown && forall k :: 0 <= k < |m.lines| ==> Legible(m.lines[k])
  }

  // ---------------------------------------------------------------- the way there and the way back

  // The same links wait, on the same systems.
  predicate SameWaiting(m: Model, after: Model) {
    after.waiting == m.waiting && after.systems == m.systems
  }

  // The same links wait and none was made or followed, on the same stacks.
  predicate SameLinks(m: Model, after: Model) {
    SameWaiting(m, after) && after.ln == m.ln && after.stacks == m.stacks && m.sms.names <= after.sms.names
  }

  // The call ends machine v.
  predicate Pops(m: Model, c: Call, v: int) {
    && (c.SmEnd? || (c.SyscallLink? && c.ends))
    && var stack := StackOf(m.stacks, Sid(SystemOf(m, c.sys), c.frame));
       stack != [] && Top(stack) == v && OnTop(stack, m.sms.names, c.sm)
  }

  predicate NeverPops(m: Model, calls: seq<Call>, v: int)
    decreases |calls|
  {
    calls != [] ==>
      !Pops(m, calls[0], v)
      && match Performed(m, calls[0])
         case Dead(_) => true
         case Alive(m1) => NeverPops(m1, calls[1..], v)
  }

  // The link from machine v back is where it was.
  predicate SameBack(m: Model, after: Model, v: int) {
    v in m.ln ==> v in after.ln && after.ln[v] == m.ln[v]
  }

  // The machine that a beginning machine is linked from, if it is.
  predicate IsLinked(m: Model, sid: Sid, key: Id, link: bool) {
    Linking(m, sid, link) || 0 <= WaitingFor(m.waiting, sid.sys, key) < |m.lines|
  }

  function Origin(m: Model, sid: Sid, key: Id, link: bool): int {
    var k := WaitingFor(m.waiting, sid.sys, key);
    if Linking(m, sid, link) then Top(StackOf(m.stacks, sid)) else if 0 <= k < |m.lines| then m.lines[k].sm else 0
  }

  // The line of the link.
  function OriginLine(m: Model, sid: Sid, key: Id, link: bool): int {
    if Linking(m, sid, link) then |m.lines| else WaitingFor(m.waiting, sid.sys, key)
  }

  // What a call of SmBegin starts.
  predicate Starts(m: Model, b: Call, m2: Model, sid: Sid, key: Id, v: int, link: bool) {
    && b.SmBegin? && link == HasFlag(b.flags, FlagLink)
    && sid == Sid(SystemOf(m, b.sys), b.frame) && key == Id(b.id.name, b.frame)
    && v == NumberOf(WithSystem(m, b.sys).sms, sid.sys, b.id)
    && m2 == WithMachine(WithSystem(m, b.sys), sid.sys, b.id)
  }

  // Line f is a link.
  predicate LinkOnLine(lines: seq<Line>, f: int, from: int, to: int) {
    0 <= f < |lines| && lines[f].op == OpLink && lines[f].sm == from && lines[f].stq == to
  }
}
