/**
 The annotator's log and queues together, and the plain lines and queues they stand for.
 */
module CpaSpec {
  import opened AnnotateLog
  import opened AnnotateNames
  import opened AnnotateQueue

  /** Records are written in order of creation and as they are, exactly the unresolved links are
      held back, and every queue's counters are right. */
  ghost predicate Sound(log: Log, qs: Queues) {
    InOrder(log) && Clean(log) && Consistent(qs, log.records)
  }

  // The queues as plain queues of bytes.
  ghost function Plain(qs: Queues, records: seq<Rec>): (p: seq<seq<nat>>)
    ensures |p| == |qs.data|
  {
    seq(|qs.data|, i requires 0 <= i < |qs.data| => Content(qs.data[i], records))
  }

  // The number of queues of each system.
  predicate Numbers(numQ: seq<int>, t: Table) {
    |numQ| == |t.cache| && forall s :: 0 <= s < |numQ| ==> numQ[s] == |t.cache[s]|
  }

  function Fresh(now: nat, op: int, flag: int, cpu: int, sm: int, stq: int, d: int): Rec {
    Rec(now, d, d, op, flag, sm, stq, cpu, true)
  }

  function Directed(records: seq<Rec>, k: int, target: int): seq<Rec> {
    if 0 <= k < |records| then records[k := records[k].(stq := target, dump := true)] else records
  }
}
