/**
 Whole runs of the log, told from the events alone: which records have been created, and which
 target each waiting link was given.
 */
module AnnotateHistory {
  import opened AnnotateLog

  // What the annotator does to its log: add a record that can be written, add a link that has to
  // wait, give a waiting link its target, take bytes of a queue record away.
  datatype Event = Create(r: Rec) | Wait(r: Rec) | Resolve(k: nat, target: int) | Consume(k: nat, n: int)

  predicate Allowed(log: Log, e: Event) {
    match e
    case Create(r) => r.dump && !Unresolved(r)
    case Wait(r) => !r.dump && Unresolved(r)
    case Resolve(k, target) => k < |log.records| && Unresolved(log.records[k]) && target != Unknown
    case Consume(k, n) => k < |log.records|
  }

  function Next(log: Log, e: Event): Log
    requires Fits(log) && Allowed(log, e)
  {
    match e
    case Create(r) => Added(log, r)
    case Wait(r) => Added(log, r)
    case Resolve(k, target) => log.(records := log.records[k := log.records[k].(stq := target, dump := true)])
    case Consume(k, n) => log.(records := log.records[k := log.records[k].(data := log.records[k].data - n)])
  }

  ghost predicate Leads(log: Log, events: seq<Event>, end: Log)
    decreases |events|
  {
    if events == [] then end == log
    else Fits(log) && Allowed(log, events[0]) && Leads(Next(log, events[0]), events[1..], end)
  }

  // ---------------------------------------------------------------- the events alone

  function CreatedBy(e: Event): seq<Rec> {
    match e
    case Create(r) => [r]
    case Wait(r) => [r]
    case _ => []
  }

  // The records in order of creation, as they were created.
  function Created(events: seq<Event>): seq<Rec> {
    if events == [] then [] else CreatedBy(events[0]) + Created(events[1..])
  }

  datatype Target = Unchanged | To(machine: int)

  // The target that record k was given.
  function TargetOf(events: seq<Event>, k: int): Target {
    if events == [] then Unchanged
    else
      var later := TargetOf(events[1..], k);
      if later.To? then later
      else if events[0].Resolve? && events[0].k == k then To(events[0].target)
      else Unchanged
  }

  function Retold(l: Line, t: Target): Line {
    match t
    case Unchanged => l
    case To(machine) => l.(stq := machine)
  }

  /** What the events say is to be written: every record that was created, in order, with its
      original count and with the target it was given. */
  function History(events: seq<Event>): seq<Line> {
    var all := Created(events);
    seq(|all|, k requires 0 <= k < |all| => Retold(LineOf(all[k]), TargetOf(events, k)))
  }

  // ---------------------------------------------------------------- runs

  lemma NextKeeps(log: Log, e: Event)
    requires InOrder(log) && Clean(log) && Allowed(log, e)
    ensures Fits(log) && InOrder(Next(log, e)) && Clean(Next(log, e)) && Grows(log, Next(log, e))
  {
    InOrderFits(log);
    match e
    case Create(r) => AddedKeeps(log, r); AddedGrows(log, r);
    case Wait(r) => AddedKeeps(log, r); AddedGrows(log, r);
    case Resolve(k, target) => UpdateKeeps(log, k, log.records[k].(stq := target, dump := true));
    case Consume(k, n) => UpdateKeeps(log, k, log.records[k].(data := log.records[k].data - n));
  }

  // One event adds what it creates, and changes what is written of a record only to its target.
  lemma NextTells(log: Log, e: Event, k: int)
    requires InOrder(log) && Allowed(log, e) && Fits(log)
    ensures |Next(log, e).records| == |log.records| + |CreatedBy(e)|
    ensures 0 <= k < |Next(log, e).records| ==>
      LineOf(Next(log, e).records[k]) == Retold(LineOf((log.records + CreatedBy(e))[k]), TargetOf([e], k))
  {
    assert [e][1..] == [];
    match e
    case Create(r) => AddedKeeps(log, r);
    case Wait(r) => AddedKeeps(log, r);
    case Resolve(j, target) =>
    case Consume(j, n) =>
  }

  lemma RetoldTwice(l: Line, e: Event, rest: seq<Event>, k: int)
    ensures Retold(Retold(l, TargetOf([e], k)), TargetOf(rest, k)) == Retold(l, TargetOf([e] + rest, k))
  {
    assert ([e] + rest)[1..] == rest && [e][1..] == [];
  }

  // The line of record k at the end, from what there was and what was created.
  ghost predicate Told(log: Log, events: seq<Event>, end: Log) {
    && |end.records| == |log.records| + |Created(events)|
    && (forall k :: 0 <= k < |end.records| ==>
          LineOf(end.records[k]) == Retold(LineOf((log.records + Created(events))[k]), TargetOf(events, k)))
  }

  lemma ToldNext(log: Log, e: Event, rest: seq<Event>, end: Log)
    requires InOrder(log) && Allowed(log, e) && Fits(log) && Told(Next(log, e), rest, end)
    ensures Told(log, [e] + rest, end)
  {
    var next, events := Next(log, e), [e] + rest;
    assert events[1..] == rest && Created(events) == CreatedBy(e) + Created(rest);
    NextTells(log, e, 0);
    forall k | 0 <= k < |end.records|
      ensures LineOf(end.records[k]) == Retold(LineOf((log.records + Created(events))[k]), TargetOf(events, k))
    {
      NextTells(log, e, k);
      if k < |next.records| {
        RetoldTwice(LineOf((log.records + CreatedBy(e))[k]), e, rest, k);
        assert (log.records + Created(events))[k] == (log.records + CreatedBy(e))[k];
      } else {
        NotYet(log, e, k);
        RetoldTwice(LineOf((next.records + Created(rest))[k]), e, rest, k);
        assert (log.records + Created(events))[k] == (next.records + Created(rest))[k];
      }
    }
  }

  // Only records that exist are given a target.
  lemma NotYet(log: Log, e: Event, k: int)
    requires Allowed(log, e) && k >= |log.records|
    ensures TargetOf([e], k) == Unchanged
  {
    assert [e][1..] == [];
  }

  /** In every run, from any log in order: the records at the end are those there were and those
      the events created, in this order; each has its original count and differs from what was
      created only by the target it was given; and no unresolved link has been written. */
  lemma {:induction false} EveryRunInOrder(log: Log, events: seq<Event>, end: Log)
    requires InOrder(log) && Clean(log) && Leads(log, events, end)
    ensures InOrder(end) && Clean(end) && Grows(log, end) && Told(log, events, end)
    decreases |events|
  {
    if events == [] {
      assert log.records + Created(events) == log.records;
    } else {
      NextKeeps(log, events[0]);
      EveryRunInOrder(Next(log, events[0]), events[1..], end);
      GrowsTwice(log, Next(log, events[0]), end);
      ToldNext(log, events[0], events[1..], end);
      assert [events[0]] + events[1..] == events;
    }
  }

  lemma ToldFromStart(events: seq<Event>, end: Log)
    requires Told(NewLog, events, end)
    ensures Lines(end.records) == History(events)
  {
    assert NewLog.records + Created(events) == Created(events);
  }

  /** In every run from the start: the file followed by the pending records is the history that the
      events tell; no unresolved link is in the file; and dumping everything writes exactly the
      rest of the history. */
  lemma RunsFromStart(events: seq<Event>, end: Log)
    requires Leads(NewLog, events, end)
    ensures Fits(end) && end.file + PendingLines(end) == History(events)
    ensures forall k :: 0 <= k < |end.file| ==> !OpenLine(end.file[k])
    ensures Dumped(end, true).file == History(events) && Dumped(end, true).pending == []
  {
    EveryRunInOrder(NewLog, events, end);
    ToldFromStart(events, end);
    WholeInOrder(end);
    FinalDump(end);
  }
}
