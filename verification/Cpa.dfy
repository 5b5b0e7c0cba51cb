/**
 The critical-path annotator: a program under simulation marks the states it passes through and
 the queues it uses, and the annotator turns this into a log of records.
 */
module Annotate {
  import opened AnnotateLog
  import opened AnnotateNames
  import opened AnnotateQueue
  import opened AnnotateStacks
  import opened ByteQueue
  import opened CpaModel
  import opened CpaSpec
  import opened CpaTheorems
  import opened CpaTidy
  import opened QueueTheorems

  class Cpa {
    var log: Log
    var queues: Queues
    // Numbers of systems, state machines, queues and states.
    var systems: map<nat, int>
    var numSys: int
    var sms: Table
    var qns: Table
    var numQ: seq<int>
    var states: States
    // Running machines, explicit-state mode, link targets, waiting links and last states.
    var smStack: Stacks
    var swExpl: map<Sid, bool>
    var lnMap: map<int, int>
    var scLinks: Links
    var lastState: map<int, int>

    // The plain description of the state.
    ghost function Abs(): Model
      reads this
    {
      Model(Lines(log.records), Plain(queues, log.records), systems, numSys, sms, qns, states, smStack, swExpl, lnMap,
            scLinks, lastState)
    }

    ghost predicate Valid()
      reads this
    {
      Sound(log, queues) && Numbers(numQ, qns) && Tidy(Abs())
    }

    constructor ()
      ensures Valid() && log == NewLog && Abs() == CpaModel.Nothing
    {
      log, queues := NewLog, NoQueues;
      systems, numSys, sms, qns, numQ, states := map[], 0, NoNames, NoNames, [], NoStates;
      smStack, swExpl, lnMap, scLinks, lastState := map[], map[], map[], [], map[];
      new;
      assert Abs() == CpaModel.Nothing;
      NothingTidy();
    }

    // ---------------------------------------------------------------- the log

    /** Write pending records to the file. */
    method Dump(all: bool)
      requires Fits(log)
      modifies this`log
      ensures log == Dumped(old(log), all)
    {
      if log.pending == [] || (!all && |log.pending| < Batch) {
        return;
      }
      var i := 0;
      assert log.(pending := log.pending[0..]) == log;
      while i < |log.pending| && (log.records[log.pending[i]].dump || all)
        invariant i <= |log.pending| && Fits(log)
        invariant Drain(Rest(log, i), all) == Drain(old(log), all)
        modifies this`log
      {
        var r := log.records[log.pending[i]];
        ghost var before := log;
        var num := log.numRecs + 1;
        if num % Stride == 0 {
          log := log.(index := log.index + [Position(|log.file|)]);
        }
        log := log.(numRecs := num, file := log.file + [LineOf(r)]);
        assert before.pending[i..][1..] == before.pending[i + 1..];
        assert Rest(log, i + 1) == Written(Rest(before, i));
        i := i + 1;
      }
      log := log.(pending := log.pending[i..]);
    }

    /** Add a record; links are left pending. */
    method Add(now: nat, op: int, flag: int, cpu: int, sm: int, stq: int, d: int) returns (k: nat)
      requires Fits(log)
      modifies this`log
      ensures k == |old(log).records|
      ensures log == Added(old(log), Fresh(now, op, flag, cpu, sm, stq, d))
    {
      k := |log.records|;
      log := log.(records := log.records + [Fresh(now, op, flag, cpu, sm, stq, d)], pending := log.pending + [k]);
      if op != OpLink {
        Dump(false);
      }
    }

    // Add a record that need not wait.
    method Note(now: nat, op: int, flags: nat, cpu: int, sm: int, stq: int, d: int)
      requires Sound(log, queues) && !(op == OpLink && stq == Unknown)
      modifies this`log
      ensures Sound(log, queues) && Grows(old(log), log)
      ensures Abs() == Recorded(old(Abs()), Line(now, d, sm, stq, op, flags, cpu))
    {
      SoundAdd(log, queues, Fresh(now, op, flags, cpu, sm, stq, d));
      var k := Add(now, op, flags, cpu, sm, stq, d);
    }

    // ---------------------------------------------------------------- queues

    /** Queue bytes: at the back, or in front with the flag for it. */
    method DoQ(now: nat, flags: nat, cpu: int, sm: int, qi: int, count: int)
      requires Sound(log, queues) && 1 <= qi <= |queues.data| && count >= 0
      modifies this`log, this`queues
      ensures Sound(log, queues) && Grows(old(log), log)
      ensures Abs() == Put(old(Abs()), now, flags, cpu, sm, qi, count)
    {
      ghost var before, was, r := log, queues, Fresh(now, OpQueue, flags, cpu, sm, qi, count);
      ghost var m := Abs();
      var front := HasFlag(flags, FlagOpposite);
      SoundFits(log, queues);
      var k := Add(now, OpQueue, flags, cpu, sm, qi, count);
      queues := Entered(queues, qi, k, count, front);
      SoundEnter(before, was, qi, r, front, log, queues);
      PutIs(m, now, flags, cpu, sm, qi, count, Lines(log.records), Plain(queues, log.records));
    }

    // Clear a queue.
    method Empty(qi: int)
      requires Sound(log, queues) && 1 <= qi <= |queues.data|
      modifies this`queues
      ensures Sound(log, queues) && Abs() == WithBytes(old(Abs()), qi, [])
    {
      ghost var was := queues;
      queues := With(queues, qi, [], 0, 0);
      SoundClear(log, was, qi, queues);
    }

    /** Dequeue the first bytes, or all of them for -1; a program that dequeues more than there is
        ends, and everything pending is written first. */
    method DoDq(now: nat, flags: nat, cpu: int, sm: int, qi: int, count: int) returns (ok: bool)
      requires Sound(log, queues) && 1 <= qi <= |queues.data| && (count == -1 || count > 0)
      modifies this`log, this`queues
      ensures Grows(old(log), log) && ok == Drawn(old(Abs()), now, flags, cpu, sm, qi, count).Alive?
      ensures ok ==> Sound(log, queues) && Abs() == Taken(old(Abs()), now, flags, cpu, sm, qi, count)
      ensures !ok ==> log.pending == [] && log.file == old(Abs()).lines
    {
      if count == -1 {
        Note(now, OpDequeue, flags, cpu, sm, qi, count);
        Empty(qi);
        return true;
      }
      ok := Take(qi, count);
      if ok {
        ghost var mid := log;
        Note(now, OpDequeue, flags, cpu, sm, qi, count);
        GrowsTwice(old(log), mid, log);
      }
    }

    // Take bytes away in front.
    method Take(qi: int, count: int) returns (ok: bool)
      requires Sound(log, queues) && 1 <= qi <= |queues.data| && count > 0
      modifies this`log, this`queues
      ensures Grows(old(log), log) && ok == (count <= |QueueOf(old(Abs()), qi)|)
      ensures ok ==> Sound(log, queues) && Abs() == WithBytes(old(Abs()), qi, QueueOf(old(Abs()), qi)[count..])
      ensures !ok ==> log.pending == [] && log.file == old(Abs()).lines
    {
      ghost var before, was := log, queues;
      SoundQueue(log, queues, qi);
      var bytes := queues.bytes[qi - 1] - count;
      if queues.size[qi - 1] <= 0 || queues.bytes[qi - 1] <= 0 || queues.data[qi - 1] == [] || bytes < 0 {
        NoBytes(queues.data[qi - 1], log.records);
        FinalDump(log);
        DumpedGrows(log, true);
        Dump(true);
        return false;
      }
      var items, size, records := RemoveFront(queues.data[qi - 1], log.records, count);
      DequeueLeaves(queues.data[qi - 1], qi, log.records, count, items, records);
      log := log.(records := records);
      queues := With(queues, qi, items, size, bytes);
      SoundReplace(before, was, qi, items, bytes, log, queues);
      return true;
    }

    // Take bytes away at the back.
    method Shrink(qi: int, size: int)
      requires Sound(log, queues) && 1 <= qi <= |queues.data| && 0 < size < |QueueOf(Abs(), qi)|
      modifies this`log, this`queues
      ensures Sound(log, queues) && Grows(old(log), log)
      ensures Abs() == WithBytes(old(Abs()), qi, QueueOf(old(Abs()), qi)[..size])
    {
      ghost var before, was := log, queues;
      SoundQueue(log, queues, qi);
      var need := queues.bytes[qi - 1] - size;
      var items, count, records := RemoveBack(queues.data[qi - 1], log.records, need);
      ResizeLeaves(queues.data[qi - 1], qi, log.records, need, items, records);
      log := log.(records := records);
      queues := With(queues, qi, items, count, size);
      SoundReplace(before, was, qi, items, size, log, queues);
    }

    // Add bytes at the back, or take them away there.
    method SetSize(now: nat, cpu: int, sm: int, qi: int, size: int)
      requires Sound(log, queues) && 1 <= qi <= |queues.data|
      modifies this`log, this`queues
      ensures Sound(log, queues) && Grows(old(log), log)
      ensures Abs() == SizeSet(old(Abs()), now, cpu, sm, qi, size)
    {
      SoundQueue(log, queues, qi);
      var bytes := queues.bytes[qi - 1];
      assert bytes == |QueueOf(Abs(), qi)|;
      if bytes < size {
        DoQ(now, 0, cpu, sm, qi, size - bytes);
      } else if bytes > size {
        CutBack(now, cpu, sm, qi, size);
      }
    }

    // Note a smaller size, and take away what is too much.
    method CutBack(now: nat, cpu: int, sm: int, qi: int, size: int)
      requires Sound(log, queues) && 1 <= qi <= |queues.data| && size < |QueueOf(Abs(), qi)|
      modifies this`log, this`queues
      ensures Sound(log, queues) && Grows(old(log), log)
      ensures Abs() == SizeSet(old(Abs()), now, cpu, sm, qi, size)
    {
      Note(now, OpSizeQueue, 0, cpu, sm, qi, size);
      if size <= 0 {
        Empty(qi);
      } else {
        ghost var mid := log;
        Shrink(qi, size);
        GrowsTwice(old(log), mid, log);
      }
    }

    /** Give a queue a new size, after it has been cleared if the flags say so. */
    method SizeQueue(now: nat, cpu: int, sm: int, qi: int, size: int, flags: nat)
      requires Sound(log, queues) && 1 <= qi <= |queues.data|
      modifies this`log, this`queues
      ensures Sound(log, queues) && Grows(old(log), log)
      ensures Abs() == Resized(old(Abs()), now, cpu, sm, qi, size, flags)
    {
      if HasFlag(flags, FlagReset) {
        Note(now, OpSizeQueue, 0, cpu, sm, qi, 0);
        Empty(qi);
      }
      ghost var mid := log;
      SetSize(now, cpu, sm, qi, size);
      GrowsTwice(old(log), mid, log);
    }

    // ---------------------------------------------------------------- names

    /** The number of a system; a new one gets tables of its own. */
    method GetSys(s: nat) returns (i: int)
      requires Numbers(numQ, qns)
      modifies this`systems, this`numSys, this`sms, this`qns, this`numQ, this`scLinks
      ensures Numbers(numQ, qns) && Abs() == WithSystem(old(Abs()), s) && i == SystemOf(old(Abs()), s)
    {
      if s !in systems {
        numSys := numSys + 1;
        systems := systems[s := numSys];
        numQ := numQ + [0];
        qns, sms, scLinks := AddSystem(qns), AddSystem(sms), scLinks + [map[]];
      }
      i := systems[s];
    }

    /** The number of a state machine of a system. */
    method GetSm(sysi: int, id: Id) returns (smi: int)
      requires 1 <= sysi <= |sms.cache|
      modifies this`sms
      ensures Abs() == WithMachine(old(Abs()), sysi, id) && smi == NumberOf(old(sms), sysi, id)
    {
      if id !in sms.cache[sysi - 1] {
        var num := sms.num + 1;
        sms := Table(sms.cache[sysi - 1 := sms.cache[sysi - 1][id := num]], sms.names + [Entry(sysi, id)], num);
      }
      smi := sms.cache[sysi - 1][id];
    }

    /** The number of a queue of a system; a new one is empty. */
    method GetQ(sysi: int, id: Id) returns (qi: int)
      requires Sound(log, queues) && Numbers(numQ, qns) && 1 <= sysi <= |qns.cache|
      modifies this`qns, this`queues, this`numQ
      ensures Sound(log, queues) && Numbers(numQ, qns)
      ensures Abs() == WithQueue(old(Abs()), sysi, id) && qi == NumberOf(old(qns), sysi, id)
    {
      if id !in qns.cache[sysi - 1] {
        SoundNew(log, queues);
        NumbersMore(numQ, qns, sysi, id);
        var num := qns.num + 1;
        qns := Table(qns.cache[sysi - 1 := qns.cache[sysi - 1][id := num]], qns.names + [Entry(sysi, id)], num);
        queues := Queues(queues.size + [0], queues.bytes + [0], queues.data + [[]]);
        numQ := numQ[sysi - 1 := numQ[sysi - 1] + 1];
        assert queues == OneMore(old(queues));
      }
      qi := qns.cache[sysi - 1][id];
    }

    // The number of a machine's name.
    method GetSmt(machine: string) returns (i: int)
      requires StatesDense(states)
      modifies this`states
      ensures states == AddMachine(old(states), machine) && i == MachineNumber(old(states), machine)
    {
      ghost var start := states;
      i := MachineNumber(states, machine);
      if machine !in states.machines {
        states := states.(numSmt := states.numSmt + 1, machines := states.machines[machine := i]);
      }
      while |states.cache| < i
        invariant if |states.cache| < i then states == start.(numSmt := i, machines := start.machines[machine := i])
                  else states == AddMachine(start, machine)
        invariant |states.cache| < i ==> machine !in start.machines && |states.cache| == start.numSmt
        modifies this`states
      {
        states := states.(cache := states.cache + [map[]], num := states.num + [0]);
      }
    }

    /** The number of a state of a machine. */
    method GetSt(machine: string, state: string) returns (sti: int)
      requires StatesDense(states)
      modifies this`states
      ensures StatesDense(states) && states == WithState(old(states), machine, state)
      ensures sti == StateNumber(old(states), machine, state) && HasState(states, machine, state, sti)
    {
      WithStateKeeps(states, machine, state);
      AddMachineKeeps(states, machine);
      var i := GetSmt(machine);
      if state in states.cache[i - 1] {
        sti := states.cache[i - 1][state];
        assert states == WithState(old(states), machine, state);
      } else {
        sti := states.num[i - 1] + 1;
        states := states.(cache := states.cache[i - 1 := states.cache[i - 1][state := sti]],
                          num := states.num[i - 1 := sti]);
        assert states == WithState(old(states), machine, state);
      }
    }

    // ---------------------------------------------------------------- state machines

    // Link the machine that begins to the one on top of the stack.
    method LinkPrevious(now: nat, cpu: int, sid: Sid, smi: int, link: bool)
      requires Sound(log, queues) && smi != Unknown && (Linking(Abs(), sid, link) ==> smi !in lnMap)
      modifies this`log, this`lnMap
      ensures Sound(log, queues) && Grows(old(log), log)
      ensures Abs() == LinkedBelow(old(Abs()), now, cpu, sid, smi, link)
    {
      var stack := StackOf(smStack, sid);
      if link && stack != [] {
        var prev := stack[|stack| - 1];
        assert smi !in lnMap;
        lnMap := lnMap[smi := prev];
        Note(now, OpLink, 0, cpu, prev, smi, 0);
      }
    }

    // Put a machine on a stack, and leave explicit-state mode.
    method Push(sid: Sid, smi: int)
      modifies this`smStack, this`swExpl
      ensures Abs() == Pushed(old(Abs()), sid, smi)
    {
      smStack := smStack[sid := StackOf(smStack, sid) + [smi]];
      swExpl := swExpl[sid := false];
    }

    // A machine has begun: if a system-call link was waiting for it, it leads there.
    method MeetWaiting(sysi: int, key: Id, smi: int)
      requires Sound(log, queues) && Ready(Abs(), sysi, key, smi)
      modifies this`log, this`scLinks, this`lnMap
      ensures Sound(log, queues) && Grows(old(log), log) && Abs() == Met(old(Abs()), sysi, key, smi)
    {
      if key in scLinks[sysi - 1] {
        var k := scLinks[sysi - 1][key];
        ghost var before := log;
        scLinks := scLinks[sysi - 1 := scLinks[sysi - 1] - {key}];
        log := log.(records := log.records[k := log.records[k].(stq := smi, dump := true)]);
        assert smi !in lnMap;
        lnMap := lnMap[smi := log.records[k].sm];
        SoundResolve(before, queues, k, smi, log);
      }
    }

    // Enter a state.
    method BeginState(now: nat, flags: nat, cpu: int, smi: int, machine: string, st: string)
      requires Sound(log, queues) && StatesDense(states)
      modifies this`log, this`states, this`lastState
      ensures Sound(log, queues) && Grows(old(log), log)
      ensures Abs() == InState(old(Abs()), now, flags, cpu, smi, machine, st)
    {
      var sti := GetSt(machine, st);
      lastState := lastState[smi := sti];
      Note(now, OpBegin, flags, cpu, smi, sti, 0);
    }

    // A machine that begins is linked and put on its stack.
    method Attach(now: nat, cpu: int, sid: Sid, smi: int, link: bool)
      requires Sound(log, queues) && smi != Unknown && (Linking(Abs(), sid, link) ==> smi !in lnMap)
      modifies this`log, this`lnMap, this`smStack, this`swExpl
      ensures Sound(log, queues) && Grows(old(log), log)
      ensures Abs() == Pushed(LinkedBelow(old(Abs()), now, cpu, sid, smi, link), sid, smi)
    {
      LinkPrevious(now, cpu, sid, smi, link);
      Push(sid, smi);
    }

    // The link that waited is met, and the first state begins.
    method Settle(now: nat, cpu: int, sysi: int, key: Id, smi: int, st: string)
      requires Sound(log, queues) && Ready(Abs(), sysi, key, smi)
      modifies this`log, this`scLinks, this`lnMap, this`states, this`lastState
      ensures Sound(log, queues) && Grows(old(log), log)
      ensures Abs() == FirstState(Met(old(Abs()), sysi, key, smi), now, cpu, smi, key.name, st)
    {
      MeetWaiting(sysi, key, smi);
      ghost var mid := log;
      if st != "" {
        BeginState(now, 0, cpu, smi, key.name, st);
        GrowsTwice(old(log), mid, log);
      }
    }

    // A machine begins that has its number.
    method Start(now: nat, cpu: int, sid: Sid, id: Id, smi: int, link: bool, st: string)
      requires Sound(log, queues) && Ready(Abs(), sid.sys, Id(id.name, sid.frame), smi)
      requires LinkFree(Abs(), sid, Id(id.name, sid.frame), smi, link)
      modifies this`log, this`smStack, this`swExpl, this`scLinks, this`lnMap, this`states, this`lastState
      ensures Sound(log, queues) && Grows(old(log), log)
      ensures Abs() == Started(old(Abs()), now, cpu, sid, id, smi, link, st)
    {
      ReadyBelow(Abs(), now, cpu, sid, smi, link, Id(id.name, sid.frame));
      Attach(now, cpu, sid, smi, link);
      ghost var mid := log;
      Settle(now, cpu, sid.sys, Id(id.name, sid.frame), smi, st);
      GrowsTwice(old(log), mid, log);
    }

    // A machine is given its number, and begins.
    method FindAndStart(now: nat, sys: nat, cpu: int, id: Id, flags: nat, frame: nat, st: string)
      requires Sound(log, queues) && Numbers(numQ, qns) && BeginsReady(Abs(), sys, id, flags, frame)
      modifies this
      ensures Sound(log, queues) && Numbers(numQ, qns) && Grows(old(log), log)
      ensures Abs() == Began(old(Abs()), now, sys, cpu, id, flags, frame, st)
    {
      var sysi := GetSys(sys);
      var smi := GetSm(sysi, id);
      Start(now, cpu, Sid(sysi, frame), id, smi, HasFlag(flags, FlagLink), st);
    }

    /** A state machine begins: it is put on the stack of its system and frame, linked to the one
        below if the flags say so, and a system-call link that waited for it leads to it. */
    method SmBegin(now: nat, sys: nat, cpu: int, id: Id, flags: nat, frame: nat, st: string)
      requires Valid() && MayBegin(Abs(), sys, id, flags, frame)
      modifies this
      ensures Valid() && Grows(old(log), log) && Abs() == Began(old(Abs()), now, sys, cpu, id, flags, frame, st)
    {
      TidyBegan(Abs(), now, sys, cpu, id, flags, frame, st);
      FindAndStart(now, sys, cpu, id, flags, frame, st);
    }

    // ---------------------------------------------------------------- machines end

    // Link back from a machine that ends.
    method LinkBack(now: nat, cpu: int, top: int)
      requires Sound(log, queues) && (top in lnMap ==> lnMap[top] != Unknown)
      modifies this`lnMap, this`log
      ensures Sound(log, queues) && Grows(old(log), log) && Abs() == LinkedBack(old(Abs()), now, cpu, top)
    {
      if top in lnMap {
        Note(now, OpLink, 0, cpu, top, lnMap[top], 0);
        lnMap := lnMap - {top};
      }
    }

    // The machine that has ended is noted once more, in its last state, if another is below it.
    method Return(now: nat, cpu: int, sid: Sid, top: int)
      requires Sound(log, queues)
      modifies this`log
      ensures Sound(log, queues) && Grows(old(log), log) && Abs() == Returned(old(Abs()), now, cpu, sid, top)
    {
      if StackOf(smStack, sid) != [] {
        Note(now, OpBegin, 0, cpu, top, LastOf(lastState, top), 0);
      }
    }

    // A machine ends, if it is the one on top of the stack.
    method End(now: nat, cpu: int, sid: Sid, sm: string)
      requires Sound(log, queues) && TopReady(Abs(), sid)
      modifies this`smStack, this`swExpl, this`sms, this`lnMap, this`log
      ensures Sound(log, queues) && Grows(old(log), log) && Abs() == Ended(old(Abs()), now, cpu, sid, sm)
    {
      swExpl := swExpl[sid := false];
      var top := Top(StackOf(smStack, sid));
      if sms.names[top - 1].id.name != sm {
        return;
      }
      var again := GetSm(sid.sys, Id(sm, sms.names[top - 1].id.id));
      // the machine found by name is the one on top
      assert again == top;
      smStack := smStack[sid := Popped(StackOf(smStack, sid))];
      LinkBack(now, cpu, top);
      ghost var mid := log;
      Return(now, cpu, sid, top);
      GrowsTwice(old(log), mid, log);
    }

    // The system of a machine is found, and the machine ends.
    method FindAndEnd(now: nat, sys: nat, cpu: int, sm: string, frame: nat)
      requires Sound(log, queues) && Numbers(numQ, qns) && TopReady(WithSystem(Abs(), sys), Sid(SystemOf(Abs(), sys), frame))
      modifies this
      ensures Sound(log, queues) && Numbers(numQ, qns) && Grows(old(log), log)
      ensures Abs() == Ended(WithSystem(old(Abs()), sys), now, cpu, Sid(SystemOf(old(Abs()), sys), frame), sm)
    {
      var sysi := GetSys(sys);
      End(now, cpu, Sid(sysi, frame), sm);
    }

    /** A state machine ends: it is taken off the stack, if it is the one on top. */
    method SmEnd(now: nat, sys: nat, cpu: int, sm: string, frame: nat)
      requires Valid() && StackOf(smStack, Sid(SystemOf(Abs(), sys), frame)) != []
      modifies this
      ensures Valid() && Grows(old(log), log)
      ensures Abs() == Ended(WithSystem(old(Abs()), sys), now, cpu, Sid(SystemOf(old(Abs()), sys), frame), sm)
    {
      TidySmEnd(Abs(), now, sys, cpu, sm, frame);
      FindAndEnd(now, sys, cpu, sm, frame);
    }

    // Add a link that waits for a machine to begin.
    method AddWaiting(now: nat, cpu: int, sid: Sid, key: Id)
      requires Sound(log, queues) && 1 <= sid.sys <= |scLinks| && key !in scLinks[sid.sys - 1]
      modifies this`log, this`scLinks
      ensures Sound(log, queues) && Grows(old(log), log) && Abs() == Opened(old(Abs()), now, cpu, sid, key)
    {
      ghost var before := log;
      var smi := Top(StackOf(smStack, sid));
      ghost var r := Fresh(now, OpLink, 0, cpu, smi, Unknown, 0).(dump := false);
      SoundWait(log, queues, r);
      var k := Add(now, OpLink, 0, cpu, smi, Unknown, 0);
      scLinks := scLinks[sid.sys - 1 := scLinks[sid.sys - 1][key := k]];
      log := log.(records := log.records[k := log.records[k].(dump := false)]);
      assert log.records == before.records + [r];
      assert log == Appended(before, r);
    }

    // The link is added, and the current machine may end.
    method OpenThenEnd(now: nat, cpu: int, lsm: string, sid: Sid, ends: bool, sm: string)
      requires Sound(log, queues) && LinkReady(Abs(), sid, Id(lsm, sid.frame))
      modifies this`log, this`scLinks, this`smStack, this`swExpl, this`sms, this`lnMap
      ensures Sound(log, queues) && Grows(old(log), log)
      ensures Abs() == SyscallLinked(old(Abs()), now, cpu, lsm, sid, ends, sm)
    {
      if StackOf(smStack, sid) == [] {
        return;
      }
      AddWaiting(now, cpu, sid, Id(lsm, sid.frame));
      if ends {
        ghost var mid := log;
        End(now, cpu, sid, sm);
        GrowsTwice(old(log), mid, log);
      }
    }

    // The system is found, and the link is added.
    method FindAndLink(now: nat, sys: nat, cpu: int, lsm: string, frame: nat, ends: bool, sm: string)
      requires Sound(log, queues) && Numbers(numQ, qns)
      requires LinkReady(WithSystem(Abs(), sys), Sid(SystemOf(Abs(), sys), frame), Id(lsm, frame))
      modifies this
      ensures Sound(log, queues) && Numbers(numQ, qns) && Grows(old(log), log)
      ensures Abs() == SyscallLinked(WithSystem(old(Abs()), sys), now, cpu, lsm, Sid(SystemOf(old(Abs()), sys), frame),
                                     ends, sm)
    {
      var sysi := GetSys(sys);
      OpenThenEnd(now, cpu, lsm, Sid(sysi, frame), ends, sm);
    }

    /** A link across a system call, to a machine that has not begun: its record is held back until
        the machine begins.  The current machine may end at once. */
    method SyscallLink(now: nat, sys: nat, cpu: int, lsm: string, frame: nat, ends: bool, sm: string)
      requires Valid()
      requires MayLink(WithSystem(Abs(), sys), Sid(SystemOf(Abs(), sys), frame), Id(lsm, frame))
      modifies this
      ensures Valid() && Grows(old(log), log)
      ensures Abs() == SyscallLinked(WithSystem(old(Abs()), sys), now, cpu, lsm, Sid(SystemOf(old(Abs()), sys), frame),
                                     ends, sm)
    {
      TidySyscallLink(Abs(), now, sys, cpu, lsm, frame, ends, sm);
      FindAndLink(now, sys, cpu, lsm, frame, ends, sm);
    }

    // The running machine moves to a state.
    method MoveTo(now: nat, flags: nat, cpu: int, smi: int, machine: string, st: string)
      requires Sound(log, queues) && StatesDense(states)
      modifies this`log, this`states, this`lastState
      ensures Sound(log, queues) && Grows(old(log), log)
      ensures Abs() == Moved(old(Abs()), now, flags, cpu, smi, machine, st)
    {
      var sti := GetSt(machine, st);
      if LastOf(lastState, smi) != sti {
        lastState := lastState[smi := sti];
        Note(now, OpBegin, flags, cpu, smi, sti, 0);
      }
    }

    method SetExplicit(sid: Sid, expl: bool)
      modifies this`swExpl
      ensures Abs() == Explicit(old(Abs()), sid, expl)
    {
      if expl {
        swExpl := swExpl[sid := true];
      }
    }

    // The running machine enters a state, unless explicit mode suspends it.
    method Enters(now: nat, cpu: int, st: string, sid: Sid, expl: bool, flags: nat)
      requires Sound(log, queues) && StateReady(Abs(), sid)
      modifies this`log, this`states, this`lastState, this`swExpl
      ensures Sound(log, queues) && Grows(old(log), log)
      ensures Abs() == Entering(old(Abs()), now, cpu, st, sid, expl, flags)
    {
      if StackOf(smStack, sid) == [] || (!expl && sid in swExpl && swExpl[sid]) {
        return;
      }
      SetExplicit(sid, expl);
      var smi := Top(StackOf(smStack, sid));
      MoveTo(now, flags, cpu, smi, sms.names[smi - 1].id.name, st);
    }

    // The system is found, and the state begins.
    method FindAndEnter(now: nat, sys: nat, cpu: int, st: string, frame: nat, expl: bool, flags: nat)
      requires Sound(log, queues) && Numbers(numQ, qns)
      requires StateReady(WithSystem(Abs(), sys), Sid(SystemOf(Abs(), sys), frame))
      modifies this
      ensures Sound(log, queues) && Numbers(numQ, qns) && Grows(old(log), log)
      ensures Abs() == Entering(WithSystem(old(Abs()), sys), now, cpu, st, Sid(SystemOf(old(Abs()), sys), frame), expl, flags)
    {
      var sysi := GetSys(sys);
      Enters(now, cpu, st, Sid(sysi, frame), expl, flags);
    }

    /** A state of the running machine begins, unless its name is to be ignored. */
    method SwBegin(now: nat, sys: nat, cpu: int, st: string, frame: nat, expl: bool, flags: nat)
      requires Valid()
      modifies this
      ensures Valid() && Grows(old(log), log)
      ensures Abs() == StateBegun(old(Abs()), now, sys, cpu, st, frame, expl, flags)
    {
      TidySwBegin(Abs(), now, sys, cpu, st, frame, expl, flags);
      var ignored := IsIgnored(st);
      if !ignored {
        FindAndEnter(now, sys, cpu, st, frame, expl, flags);
      }
    }

    // ---------------------------------------------------------------- queue calls

    // Queue bytes in a named queue, if a machine is running.
    method Queue(now: nat, cpu: int, id: Id, sid: Sid, count: int)
      requires Sound(log, queues) && Numbers(numQ, qns) && QueueReady(Abs(), sid.sys, id)
      requires StackOf(smStack, sid) == [] || count >= 0
      modifies this`log, this`queues, this`qns, this`numQ, this`swExpl
      ensures Sound(log, queues) && Numbers(numQ, qns) && Grows(old(log), log)
      ensures Abs() == Queued(old(Abs()), now, cpu, id, sid, count)
    {
      var stack := StackOf(smStack, sid);
      if stack == [] {
        return;
      }
      swExpl := swExpl[sid := false];
      var qi := GetQ(sid.sys, id);
      if count != 0 {
        DoQ(now, 0, cpu, Top(stack), qi, count);
      }
    }

    /** Queue bytes at the back of a named queue. */
    method SwQ(now: nat, sys: nat, cpu: int, id: Id, frame: nat, count: int)
      requires Valid() && MayUse(WithSystem(Abs(), sys), Sid(SystemOf(Abs(), sys), frame), id, count >= 0)
      modifies this
      ensures Valid() && Grows(old(log), log)
      ensures Abs() == Queued(WithSystem(old(Abs()), sys), now, cpu, id, Sid(SystemOf(old(Abs()), sys), frame), count)
    {
      TidySwQ(Abs(), now, sys, cpu, id, frame, count);
      var sysi := GetSys(sys);
      Queue(now, cpu, id, Sid(sysi, frame), count);
    }

    // Dequeue bytes of a named queue, if a machine is running.
    method Dequeue(now: nat, cpu: int, id: Id, sid: Sid, count: int) returns (ok: bool)
      requires Sound(log, queues) && Numbers(numQ, qns) && QueueReady(Abs(), sid.sys, id)
      requires StackOf(smStack, sid) == [] || count == -1 || count > 0
      modifies this`log, this`queues, this`qns, this`numQ, this`swExpl
      ensures Grows(old(log), log) && ok == Dequeued(old(Abs()), now, cpu, id, sid, count).Alive?
      ensures ok ==> Sound(log, queues) && Numbers(numQ, qns) && Abs() == Dequeued(old(Abs()), now, cpu, id, sid, count).m
      ensures !ok ==> log.pending == [] && log.file == old(Abs()).lines
    {
      var stack := StackOf(smStack, sid);
      if stack == [] {
        return true;
      }
      var qi := GetQ(sid.sys, id);
      swExpl := swExpl[sid := false];
      ok := DoDq(now, 0, cpu, Top(stack), qi, count);
    }

    /** Dequeue bytes of a named queue; false if there are too few and the program ends. */
    method SwDq(now: nat, sys: nat, cpu: int, id: Id, frame: nat, count: int) returns (ok: bool)
      requires Valid()
      requires MayUse(WithSystem(Abs(), sys), Sid(SystemOf(Abs(), sys), frame), id, count == -1 || count > 0)
      modifies this
      ensures Grows(old(log), log)
      ensures var o := Dequeued(WithSystem(old(Abs()), sys), now, cpu, id, Sid(SystemOf(old(Abs()), sys), frame), count);
        ok == o.Alive? && (ok ==> Valid() && Abs() == o.m) && (!ok ==> log.pending == [] && log.file == old(Abs()).lines)
    {
      TidySwDq(Abs(), now, sys, cpu, id, frame, count);
      var sysi := GetSys(sys);
      ok := Dequeue(now, cpu, id, Sid(sysi, frame), count);
    }

    // Give a named queue a size, if a machine is running.
    method Size(now: nat, cpu: int, id: Id, sid: Sid, size: int, flags: nat)
      requires Sound(log, queues) && Numbers(numQ, qns) && QueueReady(Abs(), sid.sys, id)
      modifies this`log, this`queues, this`qns, this`numQ
      ensures Sound(log, queues) && Numbers(numQ, qns) && Grows(old(log), log)
      ensures Abs() == SizedTo(old(Abs()), now, cpu, id, sid, size, flags)
    {
      var stack := StackOf(smStack, sid);
      if stack == [] {
        return;
      }
      var qi := GetQ(sid.sys, id);
      SizeQueue(now, cpu, Top(stack), qi, size, flags);
    }

    /** Give a named queue a size. */
    method SwSq(now: nat, sys: nat, cpu: int, id: Id, frame: nat, size: int, flags: nat)
      requires Valid() && MayUse(WithSystem(Abs(), sys), Sid(SystemOf(Abs(), sys), frame), id, true)
      modifies this
      ensures Valid() && Grows(old(log), log)
      ensures Abs() == SizedTo(WithSystem(old(Abs()), sys), now, cpu, id, Sid(SystemOf(old(Abs()), sys), frame), size, flags)
    {
      TidySwSq(Abs(), now, sys, cpu, id, frame, size, flags);
      var sysi := GetSys(sys);
      Size(now, cpu, id, Sid(sysi, frame), size, flags);
    }

    // The queue and the machine of a hardware call.
    method FindBoth(sys: nat, machine: Id, qsys: nat, id: Id) returns (qi: int, smi: int)
      requires Sound(log, queues) && Numbers(numQ, qns) && BothReady(Abs(), sys, qsys, id)
      modifies this
      ensures Sound(log, queues) && Numbers(numQ, qns) && log == old(log)
      ensures Abs() == Both(old(Abs()), sys, machine, qsys, id)
      ensures qi == HwQueue(old(Abs()), sys, qsys, id) && smi == HwMachine(old(Abs()), sys, machine, qsys)
      ensures 1 <= qi <= |queues.data|
    {
      var sysi := GetSys(sys);
      var qsysi := GetSys(qsys);
      qi := GetQ(qsysi, id);
      smi := GetSm(sysi, machine);
    }

    /** Hardware queues bytes, at either end. */
    method HwQ(now: nat, flags: nat, sys: nat, machine: Id, qsys: nat, id: Id, count: int)
      requires Valid() && HwPossible(WithSystem(Abs(), sys), SystemOf(Abs(), sys), machine, qsys, id) && count >= 0
      modifies this
      ensures Valid() && Grows(old(log), log)
      ensures Abs() == HwPut(old(Abs()), now, flags, sys, machine, qsys, id, count)
    {
      TidyHwPut(Abs(), now, flags, sys, machine, qsys, id, count);
      var qi, smi := FindBoth(sys, machine, qsys, id);
      DoQ(now, Hardware(flags), 0, smi, qi, count);
    }

    // The queue and the machine are found, and bytes are dequeued.
    method FindAndDraw(now: nat, flags: nat, sys: nat, machine: Id, qsys: nat, id: Id, count: int) returns (ok: bool)
      requires Sound(log, queues) && Numbers(numQ, qns) && BothReady(Abs(), sys, qsys, id) && (count == -1 || count > 0)
      modifies this
      ensures Grows(old(log), log) && ok == HwDrawn(old(Abs()), now, flags, sys, machine, qsys, id, count).Alive?
      ensures ok ==> Sound(log, queues) && Numbers(numQ, qns)
      ensures ok ==> Abs() == HwDrawn(old(Abs()), now, flags, sys, machine, qsys, id, count).m
      ensures !ok ==> log.pending == [] && log.file == old(Abs()).lines
    {
      var qi, smi := FindBoth(sys, machine, qsys, id);
      ok := DoDq(now, Hardware(flags), 0, smi, qi, count);
    }

    /** Hardware dequeues bytes. */
    method HwDq(now: nat, flags: nat, sys: nat, machine: Id, qsys: nat, id: Id, count: int) returns (ok: bool)
      requires Valid() && HwPossible(WithSystem(Abs(), sys), SystemOf(Abs(), sys), machine, qsys, id)
      requires count == -1 || count > 0
      modifies this
      ensures Grows(old(log), log) && ok == HwDrawn(old(Abs()), now, flags, sys, machine, qsys, id, count).Alive?
      ensures ok ==> Valid() && Abs() == HwDrawn(old(Abs()), now, flags, sys, machine, qsys, id, count).m
      ensures !ok ==> log.pending == [] && log.file == old(Abs()).lines
    {
      TidyHwDrawn(Abs(), now, flags, sys, machine, qsys, id, count);
      ok := FindAndDraw(now, flags, sys, machine, qsys, id, count);
    }
  }

  // The log without the first i pending records.
  function Rest(log: Log, i: nat): (r: Log)
    requires Fits(log) && i <= |log.pending|
    ensures Fits(r)
  {
    log.(pending := log.pending[i..])
  }

  // The name begins with an entry of the table.
  method IsIgnored(st: string) returns (ignored: bool)
    ensures ignored == Ignored(st)
  {
    for x := 0 to |IgnoreSymbols|
      invariant forall k :: 0 <= k < x ==> !(InTable(IgnoreSymbols[k]) <= st)
    {
      if InTable(IgnoreSymbols[x]) <= st {
        return true;
      }
    }
    return false;
  }

  lemma PutIs(m: Model, now: nat, flags: nat, cpu: int, sm: int, q: int, count: int, lines: seq<Line>, queues: seq<seq<nat>>)
    requires 1 <= q <= |m.queues| && lines == m.lines + [QueueLine(now, OpQueue, flags, cpu, sm, q, count)]
    requires queues == m.queues[q - 1 := Joined(m.queues[q - 1], Run(|m.lines|, count), HasFlag(flags, FlagOpposite))]
    ensures m.(lines := lines, queues := queues) == Put(m, now, flags, cpu, sm, q, count)
  {}

  lemma NoBytes(items: seq<nat>, records: seq<Rec>)
    ensures items == [] ==> Content(items, records) == []
  {}
}
