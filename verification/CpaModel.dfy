/**
 The annotator as a reader of its output would describe it: a list of lines, one plain queue of
 bytes for each queue number, the tables of names, and the stacks of running machines.  There are no
 pending records, no runs with counters, and nothing that is shared.
 */
module CpaModel {
  import opened AnnotateLog
  import opened AnnotateNames
  import opened AnnotateQueue
  import opened AnnotateStacks
  import opened ByteQueue

  const FlagHw := 1
  const FlagOpposite := 4
  const FlagLink := 16
  const FlagReset := 32

  predicate HasFlag(flags: nat, bit: nat)
    requires bit > 0
  {
    flags / bit % 2 == 1
  }

  function Hardware(flags: nat): nat {
    if HasFlag(flags, FlagHw) then flags else flags + FlagHw
  }

  // Every byte in a queue is the number of the line that queued it.
  datatype Model = Model(
    lines: seq<Line>, queues: seq<seq<nat>>,
    systems: map<nat, int>, numSys: int, sms: Table, qns: Table, states: States,
    stacks: Stacks, expl: map<Sid, bool>, ln: map<int, int>, waiting: Links, last: map<int, int>)

  const Nothing := Model([], [], map[], 0, NoNames, NoNames, NoStates, map[], map[], map[], [], map[])

  /** What holds between any two calls: numbers and names determine each other, every stack holds
      machines of its own system, links lead to machines, and the links that wait are exactly the
      open lines, one for one. */
  ghost predicate Tidy(m: Model) {
    && Dense(m.systems, m.numSys) && Inverse(m.sms) && Inverse(m.qns) && StatesDense(m.states)
    && |m.sms.cache| == m.numSys && |m.qns.cache| == m.numSys && |m.waiting| == m.numSys
    && |m.queues| == m.qns.num && m.sms.num < Unknown
    && OwnMachines(m.stacks, m.sms.names) && LinksBack(m.ln, m.sms.num)
    && Held(m.waiting, m.lines, m.sms.num)
  }

  // ---------------------------------------------------------------- names

  function SystemOf(m: Model, s: nat): int {
    if s in m.systems then m.systems[s] else m.numSys + 1
  }

  function WithSystem(m: Model, s: nat): Model {
    if s in m.systems then m
    else m.(systems := m.systems[s := m.numSys + 1], numSys := m.numSys + 1, sms := AddSystem(m.sms),
            qns := AddSystem(m.qns), waiting := m.waiting + [map[]])
  }

  function WithMachine(m: Model, sys: int, id: Id): Model {
    m.(sms := Enter(m.sms, sys, id))
  }

  function WithQueue(m: Model, sys: int, id: Id): Model {
    if Interned(m.qns, sys, id) then m else m.(qns := Enter(m.qns, sys, id), queues := m.queues + [[]])
  }

  predicate RoomFor(t: Table, sys: int, id: Id) {
    Interned(t, sys, id) || t.num + 1 < Unknown
  }

  // ---------------------------------------------------------------- lines and states

  function Recorded(m: Model, l: Line): Model {
    m.(lines := m.lines + [l])
  }

  function LinkLine(now: nat, cpu: int, from: int, to: int): Line {
    Line(now, 0, from, to, OpLink, 0, cpu)
  }

  function BeginLine(now: nat, flags: nat, cpu: int, smi: int, sti: int): Line {
    Line(now, 0, smi, sti, OpBegin, flags, cpu)
  }

  // A machine is in a state, whether or not it was before.
  function InState(m: Model, now: nat, flags: nat, cpu: int, smi: int, machine: string, st: string): Model {
    var sti := StateNumber(m.states, machine, st);
    Recorded(m.(states := WithState(m.states, machine, st), last := m.last[smi := sti]),
          BeginLine(now, flags, cpu, smi, sti))
  }

  function LastOf(last: map<int, int>, smi: int): int {
    if smi in last then last[smi] else 0
  }

  // ---------------------------------------------------------------- machines begin

  predicate Linking(m: Model, sid: Sid, link: bool) {
    link && StackOf(m.stacks, sid) != []
  }

  // The link from the machine on top to one that begins, and the way back.
  function LinkedBelow(m: Model, now: nat, cpu: int, sid: Sid, smi: int, link: bool): Model {
    if !Linking(m, sid, link) then m
    else
      var top := Top(StackOf(m.stacks, sid));
      Recorded(m.(ln := m.ln[smi := top]), LinkLine(now, cpu, top, smi))
  }

  function Pushed(m: Model, sid: Sid, smi: int): Model {
    m.(stacks := m.stacks[sid := StackOf(m.stacks, sid) + [smi]], expl := m.expl[sid := false])
  }

  // The link that waited for a machine leads to it, and the way back.
  function Met(m: Model, sys: int, key: Id, smi: int): Model {
    var k := WaitingFor(m.waiting, sys, key);
    if !(0 <= k < |m.lines|) then m
    else m.(waiting := Unlinked(m.waiting, sys - 1, key), lines := m.lines[k := m.lines[k].(stq := smi)],
            ln := m.ln[smi := m.lines[k].sm])
  }

  function FirstState(m: Model, now: nat, cpu: int, smi: int, machine: string, st: string): Model {
    if st == "" then m else InState(m, now, 0, cpu, smi, machine, st)
  }

  function Started(m: Model, now: nat, cpu: int, sid: Sid, id: Id, smi: int, link: bool, st: string): Model {
    FirstState(Met(Pushed(LinkedBelow(m, now, cpu, sid, smi, link), sid, smi), sid.sys, Id(id.name, sid.frame), smi),
               now, cpu, smi, id.name, st)
  }

  // The machine gets at most one link, and has none yet.
  predicate LinkFree(m: Model, sid: Sid, key: Id, smi: int, link: bool) {
    var waiting := WaitingFor(m.waiting, sid.sys, key) != -1;
    (Linking(m, sid, link) || waiting ==> smi !in m.ln) && !(Linking(m, sid, link) && waiting)
  }

  // If a link waits for this machine, its line is there and is open, and the machine has no other.
  ghost predicate Ready(m: Model, sys: int, key: Id, smi: int) {
    && smi != Unknown && StatesDense(m.states) && 1 <= sys <= |m.waiting|
    && (key in m.waiting[sys - 1] ==>
          && 0 <= m.waiting[sys - 1][key] < |m.lines| && OpenLine(m.lines[m.waiting[sys - 1][key]])
          && smi !in m.ln)
  }

  // ---------------------------------------------------------------- machines end

  function LinkedBack(m: Model, now: nat, cpu: int, top: int): Model {
    if top in m.ln then Recorded(m, LinkLine(now, cpu, top, m.ln[top])).(ln := m.ln - {top}) else m
  }

  function Returned(m: Model, now: nat, cpu: int, sid: Sid, top: int): Model {
    if StackOf(m.stacks, sid) == [] then m else Recorded(m, BeginLine(now, 0, cpu, top, LastOf(m.last, top)))
  }

  function Dropped(m: Model, sid: Sid): Model {
    m.(stacks := m.stacks[sid := Popped(StackOf(m.stacks, sid))])
  }

  // The machine on top of the stack ends, if it has this name.
  function Ended(m: Model, now: nat, cpu: int, sid: Sid, name: string): Model {
    var stack, quiet := StackOf(m.stacks, sid), m.(expl := m.expl[sid := false]);
    if !OnTop(stack, m.sms.names, name) then quiet
    else Returned(LinkedBack(Dropped(quiet, sid), now, cpu, Top(stack)), now, cpu, sid, Top(stack))
  }

  // The machine on top is found again by its name, and its link leads to a machine.
  predicate TopReady(m: Model, sid: Sid) {
    var top := Top(StackOf(m.stacks, sid));
    && StackOf(m.stacks, sid) != [] && 1 <= sid.sys <= |m.sms.cache|
    && 1 <= top <= |m.sms.names| && top != Unknown
    && Interned(m.sms, sid.sys, m.sms.names[top - 1].id) && NumberOf(m.sms, sid.sys, m.sms.names[top - 1].id) == top
    && (top in m.ln ==> m.ln[top] != Unknown)
  }

  // A link from the machine on top to one that has not begun.
  function Opened(m: Model, now: nat, cpu: int, sid: Sid, key: Id): Model {
    Recorded(m, LinkLine(now, cpu, Top(StackOf(m.stacks, sid)), Unknown))
      .(waiting := Linked(m.waiting, sid.sys - 1, key, |m.lines|))
  }

  // ---------------------------------------------------------------- queues

  function QueueOf(m: Model, q: int): seq<nat> {
    if 1 <= q <= |m.queues| then m.queues[q - 1] else []
  }

  function WithBytes(m: Model, q: int, s: seq<nat>): Model {
    if 1 <= q <= |m.queues| then m.(queues := m.queues[q - 1 := s]) else m
  }

  predicate QueueReady(m: Model, sys: int, id: Id) {
    1 <= sys <= |m.qns.cache| && 1 <= NumberOf(m.qns, sys, id) <= |WithQueue(m, sys, id).queues|
  }

  function QueueLine(now: nat, op: int, flags: nat, cpu: int, sm: int, q: int, d: int): Line {
    Line(now, d, sm, q, op, flags, cpu)
  }

  function Put(m: Model, now: nat, flags: nat, cpu: int, sm: int, q: int, count: int): Model {
    Recorded(WithBytes(m, q, Joined(QueueOf(m, q), Run(|m.lines|, count), HasFlag(flags, FlagOpposite))),
          QueueLine(now, OpQueue, flags, cpu, sm, q, count))
  }

  // The first bytes are taken, or all of them for -1.
  function Taken(m: Model, now: nat, flags: nat, cpu: int, sm: int, q: int, count: int): Model {
    var s := QueueOf(m, q);
    Recorded(WithBytes(m, q, if 0 <= count <= |s| then s[count..] else []),
          QueueLine(now, OpDequeue, flags, cpu, sm, q, count))
  }

  function Cleared(m: Model, now: nat, cpu: int, sm: int, q: int, d: int): Model {
    Recorded(WithBytes(m, q, []), QueueLine(now, OpSizeQueue, 0, cpu, sm, q, d))
  }

  // The queue is given a size: bytes are added at the back, or taken away there.
  function SizeSet(m: Model, now: nat, cpu: int, sm: int, q: int, size: int): Model {
    var s := QueueOf(m, q);
    if |s| < size then Put(m, now, 0, cpu, sm, q, size - |s|)
    else if |s| > size then
      Recorded(WithBytes(m, q, s[..if size > 0 then size else 0]), QueueLine(now, OpSizeQueue, 0, cpu, sm, q, size))
    else m
  }

  function Resized(m: Model, now: nat, cpu: int, sm: int, q: int, size: int, flags: nat): Model {
    SizeSet(if HasFlag(flags, FlagReset) then Cleared(m, now, cpu, sm, q, 0) else m, now, cpu, sm, q, size)
  }

  // ---------------------------------------------------------------- calls

  datatype Call =
    | SmBegin(now: nat, sys: nat, cpu: int, id: Id, flags: nat, frame: nat, st: string)
    | SmEnd(now: nat, sys: nat, cpu: int, sm: string, frame: nat)
    | State(now: nat, sys: nat, cpu: int, st: string, frame: nat, expl: bool, flags: nat)
    | SyscallLink(now: nat, sys: nat, cpu: int, lsm: string, frame: nat, ends: bool, sm: string)
    | Q(now: nat, sys: nat, cpu: int, id: Id, frame: nat, count: int)
    | Dq(now: nat, sys: nat, cpu: int, id: Id, frame: nat, count: int)
    | Sq(now: nat, sys: nat, cpu: int, id: Id, frame: nat, size: int, flags: nat)
    | HwQ(now: nat, flags: nat, sys: nat, machine: Id, qsys: nat, id: Id, count: int)
    | HwDq(now: nat, flags: nat, sys: nat, machine: Id, qsys: nat, id: Id, count: int)

  // Dead: the program has ended with a fatal error.
  datatype Outcome = Alive(m: Model) | Dead(m: Model)

  // There is a number for the machine, and at most one link for it.
  predicate MayBegin(m: Model, sys: nat, id: Id, flags: nat, frame: nat) {
    var m1, s := WithSystem(m, sys), SystemOf(m, sys);
    && RoomFor(m1.sms, s, id)
    && LinkFree(m1, Sid(s, frame), Id(id.name, frame), NumberOf(m1.sms, s, id), HasFlag(flags, FlagLink))
  }

  ghost predicate BeginsReady(m: Model, sys: nat, id: Id, flags: nat, frame: nat) {
    var m1, s := WithSystem(m, sys), SystemOf(m, sys);
    var smi, key := NumberOf(m1.sms, s, id), Id(id.name, frame);
    && 1 <= s <= |m1.sms.cache| && Ready(WithMachine(m1, s, id), s, key, smi)
    && LinkFree(WithMachine(m1, s, id), Sid(s, frame), key, smi, HasFlag(flags, FlagLink))
  }

  function Began(m: Model, now: nat, sys: nat, cpu: int, id: Id, flags: nat, frame: nat, st: string): Model {
    var m1, s := WithSystem(m, sys), SystemOf(m, sys);
    Started(WithMachine(m1, s, id), now, cpu, Sid(s, frame), id, NumberOf(m1.sms, s, id), HasFlag(flags, FlagLink), st)
  }

  function NameOf(m: Model, smi: int): string {
    if 1 <= smi <= |m.sms.names| then m.sms.names[smi - 1].id.name else ""
  }

  // A machine moves to a state, unless it is there already.
  function Moved(m: Model, now: nat, flags: nat, cpu: int, smi: int, machine: string, st: string): Model {
    if LastOf(m.last, smi) != StateNumber(m.states, machine, st) then InState(m, now, flags, cpu, smi, machine, st)
    else m.(states := WithState(m.states, machine, st))
  }

  // Explicit mode suspends the states that are not explicit.
  predicate Suspended(m: Model, sid: Sid, expl: bool) {
    StackOf(m.stacks, sid) == [] || (!expl && sid in m.expl && m.expl[sid])
  }

  function Explicit(m: Model, sid: Sid, expl: bool): Model {
    if expl then m.(expl := m.expl[sid := true]) else m
  }

  function Entering(m: Model, now: nat, cpu: int, st: string, sid: Sid, expl: bool, flags: nat): Model {
    var smi := Top(StackOf(m.stacks, sid));
    if Suspended(m, sid, expl) then m else Moved(Explicit(m, sid, expl), now, flags, cpu, smi, NameOf(m, smi), st)
  }

  // Symbols that are not to become states.
  const IgnoreSymbols: seq<string> :=
    ["m5a_", "ret_from_sys_call", "ret_from_reschedule", "_spin_", "local_bh_", "restore_all", "Call_Pal_",
     "pal_post_interrupt", "rti_to_", "sys_int_2", "sys_interrupt", "normal_int", "TRAP_INTERRUPT_10_",
     "Trap_Interrupt", "do_entInt", "__do_softirq", "_end", "entInt", "entSys"]

  // What is compared: the macro that makes the table turns a quoted name into text once more, and
  // the length it takes counts the terminator.
  function InTable(symbol: string): string {
    "\"" + symbol + "\"" + "\0"
  }

  predicate Ignored(st: string) {
    exists k :: 0 <= k < |IgnoreSymbols| && InTable(IgnoreSymbols[k]) <= st
  }

  // What the table is for: the name begins with a symbol of the list.
  predicate ToIgnore(st: string) {
    exists k :: 0 <= k < |IgnoreSymbols| && IgnoreSymbols[k] <= st
  }

  // A state of the running machine begins, unless its name is to be ignored.
  function StateBegun(m: Model, now: nat, sys: nat, cpu: int, st: string, frame: nat, expl: bool, flags: nat): Model {
    if Ignored(st) then m else Entering(WithSystem(m, sys), now, cpu, st, Sid(SystemOf(m, sys), frame), expl, flags)
  }

  function SyscallLinked(m: Model, now: nat, cpu: int, lsm: string, sid: Sid, ends: bool, sm: string): Model {
    if StackOf(m.stacks, sid) == [] then m
    else
      var m1 := Opened(m, now, cpu, sid, Id(lsm, sid.frame));
      if ends then Ended(m1, now, cpu, sid, sm) else m1
  }

  predicate LinkReady(m: Model, sid: Sid, key: Id) {
    && 1 <= sid.sys <= |m.waiting|
    && (StackOf(m.stacks, sid) != [] ==> TopReady(m, sid) && key !in m.waiting[sid.sys - 1])
  }

  // No link waits for this machine already, if one is to be made.
  predicate MayLink(m: Model, sid: Sid, key: Id) {
    StackOf(m.stacks, sid) == [] || WaitingFor(m.waiting, sid.sys, key) == -1
  }

  // There is a number for the queue and the count is right, if they are looked at.
  predicate MayUse(m: Model, sid: Sid, id: Id, countOk: bool) {
    StackOf(m.stacks, sid) == [] || (RoomFor(m.qns, sid.sys, id) && countOk)
  }

  ghost predicate StateReady(m: Model, sid: Sid) {
    StatesDense(m.states) && (StackOf(m.stacks, sid) != [] ==> 1 <= Top(StackOf(m.stacks, sid)) <= |m.sms.names|)
  }

  function Calm(m: Model, sid: Sid): Model {
    m.(expl := m.expl[sid := false])
  }

  // A machine must be running; the queue exists from then on.
  function Queued(m: Model, now: nat, cpu: int, id: Id, sid: Sid, count: int): Model {
    var stack := StackOf(m.stacks, sid);
    if stack == [] then m
    else
      var m1 := WithQueue(Calm(m, sid), sid.sys, id);
      if count == 0 then m1 else Put(m1, now, 0, cpu, Top(stack), NumberOf(m.qns, sid.sys, id), count)
  }

  function Drawn(m: Model, now: nat, flags: nat, cpu: int, sm: int, q: int, count: int): Outcome {
    if count <= |QueueOf(m, q)| then Alive(Taken(m, now, flags, cpu, sm, q, count)) else Dead(m)
  }

  function Dequeued(m: Model, now: nat, cpu: int, id: Id, sid: Sid, count: int): Outcome {
    var stack := StackOf(m.stacks, sid);
    if stack == [] then Alive(m)
    else Drawn(Calm(WithQueue(m, sid.sys, id), sid), now, 0, cpu, Top(stack), NumberOf(m.qns, sid.sys, id), count)
  }

  function SizedTo(m: Model, now: nat, cpu: int, id: Id, sid: Sid, size: int, flags: nat): Model {
    var stack := StackOf(m.stacks, sid);
    if stack == [] then m
    else Resized(WithQueue(m, sid.sys, id), now, cpu, Top(stack), NumberOf(m.qns, sid.sys, id), size, flags)
  }

  // The queue and the machine of a hardware call, which may belong to different systems.
  function Both(m: Model, sys: nat, sm: Id, qsys: nat, id: Id): Model {
    var m1 := WithSystem(WithSystem(m, sys), qsys);
    WithMachine(WithQueue(m1, SystemOf(m1, qsys), id), SystemOf(m1, sys), sm)
  }

  predicate BothReady(m: Model, sys: nat, qsys: nat, id: Id) {
    var m1 := WithSystem(WithSystem(m, sys), qsys);
    && QueueReady(m1, SystemOf(m1, qsys), id) && 1 <= SystemOf(m1, sys) <= |m1.sms.cache|
    && SystemOf(m1, sys) == SystemOf(m, sys) && SystemOf(m1, qsys) == SystemOf(WithSystem(m, sys), qsys)
  }

  function HwQueue(m: Model, sys: nat, qsys: nat, id: Id): int {
    var m1 := WithSystem(WithSystem(m, sys), qsys);
    NumberOf(m1.qns, SystemOf(m1, qsys), id)
  }

  function HwMachine(m: Model, sys: nat, sm: Id, qsys: nat): int {
    var m1 := WithSystem(WithSystem(m, sys), qsys);
    NumberOf(m1.sms, SystemOf(m1, sys), sm)
  }

  function HwPut(m: Model, now: nat, flags: nat, sys: nat, machine: Id, qsys: nat, id: Id, count: int): Model {
    Put(Both(m, sys, machine, qsys, id), now, Hardware(flags), 0, HwMachine(m, sys, machine, qsys),
        HwQueue(m, sys, qsys, id), count)
  }

  function HwDrawn(m: Model, now: nat, flags: nat, sys: nat, machine: Id, qsys: nat, id: Id, count: int): Outcome {
    Drawn(Both(m, sys, machine, qsys, id), now, Hardware(flags), 0, HwMachine(m, sys, machine, qsys),
          HwQueue(m, sys, qsys, id), count)
  }

  function Performed(m: Model, c: Call): Outcome {
    var m1, sid := WithSystem(m, c.sys), if c.HwQ? || c.HwDq? then Sid(0, 0) else Sid(SystemOf(m, c.sys), c.frame);
    match c
    case SmBegin(now, sys, cpu, id, flags, frame, st) => Alive(Began(m, now, sys, cpu, id, flags, frame, st))
    case SmEnd(now, _, cpu, sm, _) => Alive(Ended(m1, now, cpu, sid, sm))
    case State(now, sys, cpu, st, frame, expl, flags) => Alive(StateBegun(m, now, sys, cpu, st, frame, expl, flags))
    case SyscallLink(now, _, cpu, lsm, _, ends, sm) => Alive(SyscallLinked(m1, now, cpu, lsm, sid, ends, sm))
    case Q(now, _, cpu, id, _, count) => Alive(Queued(m1, now, cpu, id, sid, count))
    case Dq(now, _, cpu, id, _, count) => Dequeued(m1, now, cpu, id, sid, count)
    case Sq(now, _, cpu, id, _, size, flags) => Alive(SizedTo(m1, now, cpu, id, sid, size, flags))
    case HwQ(now, flags, sys, machine, qsys, id, count) => Alive(HwPut(m, now, flags, sys, machine, qsys, id, count))
    case HwDq(now, flags, sys, machine, qsys, id, count) => HwDrawn(m, now, flags, sys, machine, qsys, id, count)
  }

  /** What the assertions of the code demand of a call: fewer than 65535 numbers, at most one link
      to a machine, a machine to end, and counts that are positive.  Where no machine runs, most calls
      return before that. */
  predicate Possible(m: Model, c: Call) {
    var m1, s := WithSystem(m, c.sys), SystemOf(m, c.sys);
    match c
    case SmBegin(_, sys, _, id, flags, frame, _) => MayBegin(m, sys, id, flags, frame)
    case SmEnd(_, _, _, _, frame) => StackOf(m1.stacks, Sid(s, frame)) != []
    case State(_, _, _, _, _, _, _) => true
    case SyscallLink(_, _, _, lsm, frame, _, _) => MayLink(m1, Sid(s, frame), Id(lsm, frame))
    case Q(_, _, _, id, frame, count) => MayUse(m1, Sid(s, frame), id, count >= 0)
    case Dq(_, _, _, id, frame, count) => MayUse(m1, Sid(s, frame), id, count == -1 || count > 0)
    case Sq(_, _, _, id, frame, _, _) => MayUse(m1, Sid(s, frame), id, true)
    case HwQ(_, _, _, sm, qsys, id, count) => HwPossible(m1, s, sm, qsys, id) && count >= 0
    case HwDq(_, _, _, sm, qsys, id, count) => HwPossible(m1, s, sm, qsys, id) && (count == -1 || count > 0)
  }

  predicate HwPossible(m1: Model, s: int, sm: Id, qsys: nat, id: Id) {
    var m2 := WithSystem(m1, qsys);
    RoomFor(m2.sms, s, sm) && RoomFor(m2.qns, SystemOf(m1, qsys), id)
  }

  /** A whole run of calls; a fatal error ends it. */
  function Played(m: Model, calls: seq<Call>): Outcome
    decreases |calls|
  {
    if calls == [] then Alive(m)
    else
      match Performed(m, calls[0])
      case Dead(d) => Dead(d)
      case Alive(m1) => Played(m1, calls[1..])
  }

  predicate AllPossible(m: Model, calls: seq<Call>)
    decreases |calls|
  {
    calls != [] ==>
      Possible(m, calls[0])
      && match Performed(m, calls[0])
         case Dead(_) => true
         case Alive(m1) => AllPossible(m1, calls[1..])
  }
}
