/**
 A queue of bytes kept as runs, and the plain queue of tagged bytes it stands for.
 */
module ByteQueue {

  // n bytes queued by the record with this number.
  datatype Run = Run(tag: nat, n: int)

  function Tagged(r: Run): seq<nat> {
    if r.n <= 0 then [] else seq(r.n, _ => r.tag)
  }

  function Flat(runs: seq<Run>): seq<nat> {
    if runs == [] then [] else Tagged(runs[0]) + Flat(runs[1..])
  }

  predicate NotNegative(runs: seq<Run>) {
    forall i :: 0 <= i < |runs| ==> runs[i].n >= 0
  }

  // How far taking bytes away goes: whole runs up to (or from) here, and part of one more.
  datatype Cut = Cut(at: nat, part: int)

  // Take need bytes away in front of run i.
  function FrontCut(runs: seq<Run>, i: nat, need: int): (c: Cut)
    requires i <= |runs|
    ensures i <= c.at <= |runs| && 0 <= c.part && (c.part > 0 ==> c.at < |runs| && c.part < runs[c.at].n)
    decreases |runs| - i
  {
    if need <= 0 || i == |runs| then Cut(i, 0)
    else if runs[i].n > need then Cut(i, need)
    else FrontCut(runs, i + 1, need - runs[i].n)
  }

  // Take need bytes away behind the first i runs.
  function BackCut(runs: seq<Run>, i: nat, need: int): (c: Cut)
    requires i <= |runs|
    ensures c.at <= i && 0 <= c.part && (c.part > 0 ==> 0 < c.at && c.part < runs[c.at - 1].n)
    decreases i
  {
    if need <= 0 || i == 0 then Cut(i, 0)
    else if runs[i - 1].n > need then Cut(i, need)
    else BackCut(runs, i - 1, need - runs[i - 1].n)
  }

  function Shorter(r: Run, n: int): Run {
    Run(r.tag, r.n - n)
  }

  function AfterFront(runs: seq<Run>, c: Cut): seq<Run>
    requires c.at <= |runs| && (c.part > 0 ==> c.at < |runs|)
  {
    if c.part > 0 then [Shorter(runs[c.at], c.part)] + runs[c.at + 1..] else runs[c.at..]
  }

  function BeforeBack(runs: seq<Run>, c: Cut): seq<Run>
    requires c.at <= |runs| && (c.part > 0 ==> 0 < c.at)
  {
    if c.part > 0 then runs[..c.at - 1] + [Shorter(runs[c.at - 1], c.part)] else runs[..c.at]
  }

  lemma FlatOne(r: Run)
    ensures Flat([r]) == Tagged(r)
  {
    assert Flat([]) == [];
  }

  lemma Associate(x: seq<nat>, y: seq<nat>, z: seq<nat>)
    ensures (x + y) + z == x + (y + z)
  {}

  // The definition of flattening, as a law.
  ghost predicate Unfolds(flat: seq<Run> -> seq<nat>) {
    flat([]) == [] && forall a :: a != [] ==> flat(a) == Tagged(a[0]) + flat(a[1..])
  }

  lemma {:induction false} AppendFlattened(flat: seq<Run> -> seq<nat>, a: seq<Run>, b: seq<Run>)
    requires Unfolds(flat)
    ensures flat(a + b) == flat(a) + flat(b)
    decreases |a|
  {
    if a == [] {
      assert a + b == b;
    } else {
      AppendFlattened(flat, a[1..], b);
      assert (a + b)[1..] == a[1..] + b;
      Associate(Tagged(a[0]), flat(a[1..]), flat(b));
    }
  }

  lemma FlatAppend(a: seq<Run>, b: seq<Run>)
    ensures Flat(a + b) == Flat(a) + Flat(b)
  {
    AppendFlattened(Flat, a, b);
  }

  lemma FlatFirst(r: Run, rest: seq<Run>)
    ensures Flat([r] + rest) == Tagged(r) + Flat(rest)
  {
    assert ([r] + rest)[1..] == rest;
  }

  lemma FlatLast(head: seq<Run>, r: Run)
    ensures Flat(head + [r]) == Flat(head) + Tagged(r)
  {
    FlatAppend(head, [r]);
    FlatOne(r);
  }

  lemma ShorterFront(r: Run, need: int, tail: seq<nat>)
    requires 0 <= need <= r.n
    ensures (Tagged(r) + tail)[need..] == Tagged(Shorter(r, need)) + tail
  {}

  lemma ShorterBack(head: seq<nat>, r: Run, need: int)
    requires 0 <= need <= r.n
    ensures var s := head + Tagged(r); s[..|s| - need] == head + Tagged(Shorter(r, need))
  {}

  lemma SkipFirst(a: seq<nat>, b: seq<nat>, n: nat)
    requires |a| <= n <= |a| + |b|
    ensures (a + b)[n..] == b[n - |a|..]
  {}

  lemma SkipLast(a: seq<nat>, b: seq<nat>, n: nat)
    requires |b| <= n <= |a| + |b|
    ensures (a + b)[..|a| + |b| - n] == a[..|a| - (n - |b|)]
  {}

  // The laws of flattening that matter.
  ghost predicate Flattens(flat: seq<Run> -> seq<nat>) {
    && flat([]) == []
    && (forall r, rest :: flat([r] + rest) == Tagged(r) + flat(rest))
    && (forall head, r :: flat(head + [r]) == flat(head) + Tagged(r))
  }

  lemma FlatFlattens()
    ensures Flattens(Flat)
  {
    forall r, rest
      ensures Flat([r] + rest) == Tagged(r) + Flat(rest)
    {
      FlatFirst(r, rest);
    }
    forall head, r
      ensures Flat(head + [r]) == Flat(head) + Tagged(r)
    {
      FlatLast(head, r);
    }
  }

  // One run at either end.
  lemma FirstRun(flat: seq<Run> -> seq<nat>, runs: seq<Run>, i: nat)
    requires Flattens(flat) && i < |runs|
    ensures flat(runs[i..]) == Tagged(runs[i]) + flat(runs[i + 1..])
  {
    assert runs[i..] == [runs[i]] + runs[i + 1..];
  }

  lemma LastRun(flat: seq<Run> -> seq<nat>, runs: seq<Run>, i: nat)
    requires Flattens(flat) && i < |runs|
    ensures flat(runs[..i + 1]) == flat(runs[..i]) + Tagged(runs[i])
  {
    assert runs[..i + 1] == runs[..i] + [runs[i]];
  }

  lemma {:induction false} FrontCutFlattened(flat: seq<Run> -> seq<nat>, runs: seq<Run>, i: nat, need: int, f: seq<nat>)
    requires Flattens(flat) && NotNegative(runs) && i <= |runs| && f == flat(runs[i..]) && 0 <= need <= |f|
    ensures flat(AfterFront(runs, FrontCut(runs, i, need))) == f[need..]
    decreases |runs| - i
  {
    if need > 0 && i < |runs| {
      var r, tail := runs[i], flat(runs[i + 1..]);
      FirstRun(flat, runs, i);
      if r.n > need {
        ShorterFront(r, need, tail);
      } else {
        SkipFirst(Tagged(r), tail, need);
        FrontCutFlattened(flat, runs, i + 1, need - r.n, tail);
      }
    } else {
      assert i == |runs| ==> runs[i..] == [];
    }
  }

  lemma {:induction false} BackCutFlattened(flat: seq<Run> -> seq<nat>, runs: seq<Run>, i: nat, need: int, f: seq<nat>)
    requires Flattens(flat) && NotNegative(runs) && i <= |runs| && f == flat(runs[..i]) && 0 <= need <= |f|
    ensures flat(BeforeBack(runs, BackCut(runs, i, need))) == f[..|f| - need]
    decreases i
  {
    if need > 0 && i > 0 {
      var head, r := flat(runs[..i - 1]), runs[i - 1];
      LastRun(flat, runs, i - 1);
      if r.n > need {
        ShorterBack(head, r, need);
      } else {
        SkipLast(head, Tagged(r), need);
        BackCutFlattened(flat, runs, i - 1, need - r.n, head);
      }
    } else {
      assert i == 0 ==> runs[..i] == [];
    }
  }

  /** Taking bytes away in front drops exactly the first bytes. */
  lemma FrontCutFlat(runs: seq<Run>, need: int)
    requires NotNegative(runs) && 0 <= need <= |Flat(runs)|
    ensures Flat(AfterFront(runs, FrontCut(runs, 0, need))) == Flat(runs)[need..]
  {
    FlatFlattens();
    assert runs[0..] == runs;
    FrontCutFlattened(Flat, runs, 0, need, Flat(runs));
  }

  /** Taking bytes away at the back drops exactly the last bytes. */
  lemma BackCutFlat(runs: seq<Run>, need: int)
    requires NotNegative(runs) && 0 <= need <= |Flat(runs)|
    ensures Flat(BeforeBack(runs, BackCut(runs, |runs|, need))) == Flat(runs)[..|Flat(runs)| - need]
  {
    FlatFlattens();
    assert runs[..|runs|] == runs;
    BackCutFlattened(Flat, runs, |runs|, need, Flat(runs));
  }

  // Enough bytes to take means that the runs do not run out before.
  lemma FrontEnough(runs: seq<Run>, i: nat, need: int)
    requires i <= |runs| && need <= |Flat(runs[i..])|
    ensures i == |runs| ==> need <= 0
    ensures i < |runs| && runs[i].n >= 0 ==> need - runs[i].n <= |Flat(runs[i + 1..])|
  {
    FlatFlattens();
    FrontEnoughFlattened(Flat, runs, i, need);
  }

  lemma FrontEnoughFlattened(flat: seq<Run> -> seq<nat>, runs: seq<Run>, i: nat, need: int)
    requires Flattens(flat) && i <= |runs| && need <= |flat(runs[i..])|
    ensures i == |runs| ==> need <= 0
    ensures i < |runs| && runs[i].n >= 0 ==> need - runs[i].n <= |flat(runs[i + 1..])|
  {
    if i < |runs| {
      assert runs[i..] == [runs[i]] + runs[i + 1..];
    }
  }

  lemma BackEnough(runs: seq<Run>, i: nat, need: int)
    requires i <= |runs| && need <= |Flat(runs[..i])|
    ensures i == 0 ==> need <= 0
    ensures i > 0 && runs[i - 1].n >= 0 ==> need - runs[i - 1].n <= |Flat(runs[..i - 1])|
  {
    FlatFlattens();
    BackEnoughFlattened(Flat, runs, i, need);
  }

  lemma BackEnoughFlattened(flat: seq<Run> -> seq<nat>, runs: seq<Run>, i: nat, need: int)
    requires Flattens(flat) && i <= |runs| && need <= |flat(runs[..i])|
    ensures i == 0 ==> need <= 0
    ensures i > 0 && runs[i - 1].n >= 0 ==> need - runs[i - 1].n <= |flat(runs[..i - 1])|
  {
    if i > 0 {
      assert runs[..i] == runs[..i - 1] + [runs[i - 1]];
    }
  }
}
