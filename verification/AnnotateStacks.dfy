/**
 The annotator's stacks of running state machines, one per system and frame, and its table of
 system-call links that wait for their target machine to begin.
 */
module AnnotateStacks {
  import opened AnnotateLog
  import opened AnnotateNames

  // ---------------------------------------------------------------- stacks

  datatype Sid = Sid(sys: int, frame: nat)

  type Stacks = map<Sid, seq<int>>

  function StackOf(m: Stacks, sid: Sid): seq<int> {
    if sid in m then m[sid] else []
  }

  // Every machine on the stack belongs to the system.
  predicate Own(stack: seq<int>, sys: int, names: seq<Entry>) {
    forall i :: 0 <= i < |stack| ==> 1 <= stack[i] <= |names| && names[stack[i] - 1].sys == sys
  }

  ghost predicate OwnMachines(m: Stacks, names: seq<Entry>) {
    forall sid :: sid in m ==> Own(m[sid], sid.sys, names)
  }

  lemma OwnMore(m: Stacks, names: seq<Entry>, names': seq<Entry>)
    requires OwnMachines(m, names) && names <= names'
    ensures OwnMachines(m, names')
  {}

  lemma OwnSet(m: Stacks, sid: Sid, stack: seq<int>, names: seq<Entry>)
    requires OwnMachines(m, names) && Own(stack, sid.sys, names)
    ensures OwnMachines(m[sid := stack], names)
  {}

  lemma OwnStack(m: Stacks, sid: Sid, names: seq<Entry>)
    requires OwnMachines(m, names)
    ensures Own(StackOf(m, sid), sid.sys, names)
  {}

  /** A system that is not known has no running machines. */
  lemma NoStack(m: Stacks, sid: Sid, t: Table)
    requires OwnMachines(m, t.names) && Inverse(t) && sid.sys > |t.cache|
    ensures StackOf(m, sid) == []
  {
    var stack := StackOf(m, sid);
    OwnStack(m, sid, t.names);
    assert Back(t, if stack == [] then 0 else stack[0]);
  }

  /** The machine on top of a stack is found again by its name: the check when it ends holds. */
  lemma TopFound(m: Stacks, sid: Sid, t: Table)
    requires OwnMachines(m, t.names) && Inverse(t) && StackOf(m, sid) != []
    ensures var top := StackOf(m, sid)[|StackOf(m, sid)| - 1];
      && 1 <= top <= t.num && Interned(t, sid.sys, t.names[top - 1].id)
      && NumberOf(t, sid.sys, t.names[top - 1].id) == top && Enter(t, sid.sys, t.names[top - 1].id) == t
  {
    var stack := StackOf(m, sid);
    var top := stack[|stack| - 1];
    OwnStack(m, sid, t.names);
    NumberMeaning(t, sid.sys, t.names[top - 1].id, top);
  }

  function Top(stack: seq<int>): int {
    if stack == [] then 0 else stack[|stack| - 1]
  }

  function Popped(stack: seq<int>): seq<int> {
    if stack == [] then [] else stack[..|stack| - 1]
  }

  // The machine on top of the stack has this name.
  predicate OnTop(stack: seq<int>, names: seq<Entry>, name: string) {
    1 <= Top(stack) <= |names| && names[Top(stack) - 1].id.name == name
  }

  // ---------------------------------------------------------------- waiting links

  // For each system, the record of the link that waits for a machine to begin in a frame.
  type Links = seq<map<Id, int>>

  predicate LinkAt(links: Links, s: int, id: Id, k: int) {
    0 <= s < |links| && id in links[s] && links[s][id] == k
  }

  function Linked(links: Links, s: int, id: Id, k: int): (l: Links)
    ensures |l| == |links|
  {
    if 0 <= s < |links| then links[s := links[s][id := k]] else links
  }

  function Unlinked(links: Links, s: int, id: Id): (l: Links)
    ensures |l| == |links|
  {
    if 0 <= s < |links| then links[s := links[s] - {id}] else links
  }

  // The record of the link that waits for a machine of this name and frame, or -1.
  function WaitingFor(links: Links, sys: int, key: Id): int {
    if 1 <= sys <= |links| && key in links[sys - 1] then links[sys - 1][key] else -1
  }

  ghost predicate Waits(links: Links, k: int) {
    exists s, id :: LinkAt(links, s, id, k)
  }

  /** The links that wait are exactly the unresolved lines, one for one, and each comes from one
      of the n machines. */
  ghost predicate Held(links: Links, lines: seq<Line>, n: int) {
    && (forall s, id, k :: LinkAt(links, s, id, k) ==>
          0 <= k < |lines| && OpenLine(lines[k]) && 1 <= lines[k].sm <= n)
    && (forall s, id, s', id', k :: LinkAt(links, s, id, k) && LinkAt(links, s', id', k) ==> s == s' && id == id')
    && (forall k :: 0 <= k < |lines| && OpenLine(lines[k]) ==> Waits(links, k))
  }

  lemma HeldMore(links: Links, lines: seq<Line>, n: int, n': int)
    requires Held(links, lines, n) && n <= n'
    ensures Held(links, lines, n')
  {}

  lemma HeldAdd(links: Links, lines: seq<Line>, n: int, l: Line)
    requires Held(links, lines, n) && !OpenLine(l)
    ensures Held(links, lines + [l], n)
  {
    forall k | 0 <= k < |lines + [l]| && OpenLine((lines + [l])[k])
      ensures Waits(links, k)
    {
      assert k < |lines| && OpenLine(lines[k]);
    }
  }

  lemma HeldSystem(links: Links, lines: seq<Line>, n: int)
    requires Held(links, lines, n)
    ensures Held(links + [map[]], lines, n)
  {
    var more := links + [map[]];
    forall s, id, k
      ensures LinkAt(more, s, id, k) == LinkAt(links, s, id, k)
    {}
    forall k | 0 <= k < |lines| && OpenLine(lines[k])
      ensures Waits(more, k)
    {
      var s, id :| LinkAt(links, s, id, k);
      assert LinkAt(more, s, id, k);
    }
  }

  /** A new link that waits. */
  lemma HeldWait(links: Links, lines: seq<Line>, n: int, s: int, id: Id, l: Line)
    requires Held(links, lines, n) && 0 <= s < |links| && id !in links[s]
    requires OpenLine(l) && 1 <= l.sm <= n
    ensures Held(Linked(links, s, id, |lines|), lines + [l], n)
  {
    var more, after, k0 := Linked(links, s, id, |lines|), lines + [l], |lines|;
    forall s', id', k
      ensures LinkAt(more, s', id', k) == (LinkAt(links, s', id', k) || (s' == s && id' == id && k == k0))
    {}
    forall k | 0 <= k < |after| && OpenLine(after[k])
      ensures Waits(more, k)
    {
      if k == k0 {
        assert LinkAt(more, s, id, k);
      } else {
        assert OpenLine(lines[k]) && Waits(links, k);
        var s', id' :| LinkAt(links, s', id', k);
        assert LinkAt(more, s', id', k);
      }
    }
  }

  /** A link that need not wait any longer. */
  lemma HeldResolve(links: Links, lines: seq<Line>, n: int, s: int, id: Id, l: Line)
    requires Held(links, lines, n) && 0 <= s < |links| && id in links[s] && !OpenLine(l)
    ensures 0 <= links[s][id] < |lines|
    ensures Held(Unlinked(links, s, id), lines[links[s][id] := l], n)
  {
    var k0 := links[s][id];
    assert LinkAt(links, s, id, k0);
    var less, after := Unlinked(links, s, id), lines[k0 := l];
    forall s', id', k
      ensures LinkAt(less, s', id', k) == (LinkAt(links, s', id', k) && !(s' == s && id' == id))
    {}
    forall k | 0 <= k < |after| && OpenLine(after[k])
      ensures Waits(less, k)
    {
      assert k != k0 && OpenLine(lines[k]) && Waits(links, k);
      var s', id' :| LinkAt(links, s', id', k);
      assert LinkAt(less, s', id', k);
    }
  }

  // Where a machine's end links back to.
  ghost predicate LinksBack(ln: map<int, int>, n: int) {
    forall v :: v in ln ==> 1 <= v <= n && 1 <= ln[v] <= n
  }
}
