/**
 What the buckets mean after any run of samples.

 `pos[k]` is the bucket in which the k-th sample of the log is currently counted, or -1 once a
 fold has thrown it away.
 */
module HistogramTheorems {
  import opened HistogramSpec

  function CountAt(log: seq<Sample>, pos: seq<int>, i: int): real
    requires |pos| == |log|
  {
    if log == [] then 0.0
    else
      var m := |log| - 1;
      CountAt(log[..m], pos[..m], i) + if pos[m] == i then log[m].number as real else 0.0
  }

  // How far below the nominal range of its bucket a value may lie.
  function Slack(h: Hist): real {
    if h.min == 0.0 then 0.0 else h.size / 2.0
  }

  predicate Near(h: Hist, v: real, i: int) {
    Nom(h, i) - Slack(h) <= v < Nom(h, i) + h.size
  }

  // pos accounts for every counter, and puts no value further than Slack from its bucket.
  ghost predicate Explains(h: Hist, log: seq<Sample>, pos: seq<int>) {
    && |pos| == |log|
    && (forall k :: 0 <= k < |pos| ==> -1 <= pos[k] < |h.cvec|)
    && (forall k :: 0 <= k < |pos| && pos[k] >= 0 ==> Near(h, log[k].val, pos[k]))
    && (forall i :: 0 <= i < |h.cvec| ==> h.cvec[i] == CountAt(log, pos, i))
  }

  ghost predicate Keeps(pos: seq<int>) {
    forall k :: 0 <= k < |pos| ==> pos[k] >= 0
  }

  // ---------------------------------------------------------------- one fold

  function Moved(pos: seq<int>, off: int, drops: bool): seq<int> {
    seq(|pos|, k requires 0 <= k < |pos| =>
      if pos[k] < 0 || (drops && pos[k] == 0) then -1 else MovedTo(pos[k], off))
  }

  function Source(log: seq<Sample>, pos: seq<int>, drops: bool, j: int): real
    requires |pos| == |log|
  {
    if j < 0 || (drops && j == 0) then 0.0 else CountAt(log, pos, j)
  }

  // A merged bucket counts exactly the samples of the two buckets it came from.
  lemma {:induction false} CountMoved(log: seq<Sample>, pos: seq<int>, off: int, drops: bool, i: int)
    requires |pos| == |log| && off >= 0 && i >= 0
    ensures CountAt(log, Moved(pos, off, drops), i)
         == Source(log, pos, drops, 2 * i - off) + Source(log, pos, drops, 2 * i - off + 1)
  {
    if log != [] {
      var m := |log| - 1;
      CountMoved(log[..m], pos[..m], off, drops, i);
      assert Moved(pos, off, drops)[..m] == Moved(pos[..m], off, drops);
      assert Moved(pos, off, drops)[m] == i <==>
             pos[m] >= 0 && !(drops && pos[m] == 0) && 2 * i - off <= pos[m] <= 2 * i - off + 1;
    }
  }

  lemma {:induction false} CountAbsent(log: seq<Sample>, pos: seq<int>, i: int)
    requires |pos| == |log| && i !in pos
    ensures CountAt(log, pos, i) == 0.0
  {
    if log != [] {
      var m := |log| - 1;
      CountAbsent(log[..m], pos[..m], i);
    }
  }

  lemma FoldCounts(c: seq<real>, log: seq<Sample>, pos: seq<int>, off: int, drops: bool)
    requires |pos| == |log| && 0 <= off <= |c|
    requires forall k :: 0 <= k < |pos| ==> -1 <= pos[k] < |c|
    requires forall i :: 0 <= i < |c| ==> c[i] == CountAt(log, pos, i)
    ensures forall i :: 0 <= i < |c| ==>
      Fold(if drops then Drop0(c) else c, off)[i] == CountAt(log, Moved(pos, off, drops), i)
  {
    var d := if drops then Drop0(c) else c;
    forall i | 0 <= i < |c|
      ensures Fold(d, off)[i] == CountAt(log, Moved(pos, off, drops), i)
    {
      CountMoved(log, pos, off, drops, i);
      SourceAt(c, log, pos, drops, 2 * i - off);
      SourceAt(c, log, pos, drops, 2 * i - off + 1);
    }
  }

  lemma SourceAt(c: seq<real>, log: seq<Sample>, pos: seq<int>, drops: bool, j: int)
    requires |pos| == |log|
    requires forall k :: 0 <= k < |pos| ==> -1 <= pos[k] < |c|
    requires forall i :: 0 <= i < |c| ==> c[i] == CountAt(log, pos, i)
    ensures Source(log, pos, drops, j) == At(if drops then Drop0(c) else c, j)
  {
    if j >= |c| {
      CountAbsent(log, pos, j);
    }
  }

  // Where bucket i goes, its nominal lower end goes along, by these exact amounts.
  lemma NomUp(h: Hist, i: int)
    requires Shape(h) && h.min == 0.0
    ensures Nom(GrownUp(h), MovedTo(i, 0)) == Nom(h, i) - (i % 2) as real * h.size
  {
    TwiceHalf(i, h.size);
  }

  lemma NomConvert(h: Hist, i: int)
    requires Shape(h) && h.min == 0.0
    ensures var n := |h.cvec|;
            Nom(GrownConvert(h), MovedTo(i, n)) == Nom(h, i) + h.size - ((i + n) % 2) as real * h.size
  {
    var n := |h.cvec|;
    TwiceHalf(i + n, h.size);
    Spread(i, n, h.size);
    Spread(n, -1, h.size);
  }

  lemma NomOut(h: Hist, i: int)
    requires Shape(h) && h.min < 0.0
    ensures var n := |h.cvec|;
            Nom(GrownOut(h), MovedTo(i, n / 2))
            == Nom(h, i) + h.size / 2.0 - (n % 2) as real * (h.size / 2.0)
               - ((i + n / 2) % 2) as real * h.size
  {
    var n := |h.cvec|;
    TwiceHalf(i + n / 2, h.size);
    TwiceHalf(n, h.size / 2.0);
    Spread(i, n / 2, h.size);
    Spread(n, -1, h.size);
    assert n as real * (h.size / 2.0) == (n as real * h.size) / 2.0;
  }

  lemma Spread(a: int, b: int, d: real)
    ensures (a + b) as real * d == a as real * d + b as real * d
  {
    assert (a + b) as real == a as real + b as real;
  }

  lemma TwiceHalf(a: int, size: real)
    ensures (a / 2) as real * (2.0 * size) == a as real * size - (a % 2) as real * size
  {
    var q, r := (a / 2) as real, (a % 2) as real;
    assert a as real == 2.0 * q + r;
    assert q * (2.0 * size) == (2.0 * q) * size;
    assert (2.0 * q + r) * size == (2.0 * q) * size + r * size;
  }

  // ---------------------------------------------------------------- folds keep the explanation

  lemma NearUp(h: Hist, v: real, i: int)
    requires Shape(h) && h.min == 0.0 && Near(h, v, i)
    ensures Near(GrownUp(h), v, MovedTo(i, 0))
  {
    NomUp(h, i);
    Bit(i, h.size);
  }

  lemma NearConvert(h: Hist, v: real, i: int)
    requires Shape(h) && h.min == 0.0 && Near(h, v, i)
    ensures Near(GrownConvert(h), v, MovedTo(i, |h.cvec|))
  {
    NomConvert(h, i);
    Bit(i + |h.cvec|, h.size);
    ShapeGrownConvert(h);
  }

  lemma NearOut(h: Hist, v: real, i: int)
    requires Shape(h) && h.min < 0.0 && Near(h, v, i)
    ensures Near(GrownOut(h), v, MovedTo(i, |h.cvec| / 2))
  {
    var n := |h.cvec|;
    NomOut(h, i);
    Bit(n, h.size / 2.0);
    Bit(i + n / 2, h.size);
    ShapeGrownOut(h);
    Shifted(Nom(h, i), Nom(GrownOut(h), MovedTo(i, n / 2)), h.size, n % 2 == 1, (i + n / 2) % 2 == 1, v);
  }

  // Half a bucket of slack is enough for a bucket of twice the size that begins so much earlier or later.
  lemma Shifted(lo: real, out: real, size: real, odd: bool, late: bool, v: real)
    requires size > 0.0 && lo - size / 2.0 <= v < lo + size
    requires out == lo + size / 2.0 - (if odd then size / 2.0 else 0.0) - if late then size else 0.0
    ensures out - size <= v < out + 2.0 * size
  {}

  lemma Bit(a: int, d: real)
    ensures (a % 2) as real * d == if a % 2 == 0 then 0.0 else d
  {
    assert (a % 2) as real == if a % 2 == 0 then 0.0 else 1.0;
  }

  lemma UpExplains(h: Hist, log: seq<Sample>, pos: seq<int>)
    requires Shape(h) && h.min == 0.0 && Explains(h, log, pos)
    ensures Explains(GrownUp(h), log, Moved(pos, 0, false))
  {
    FoldCounts(h.cvec, log, pos, 0, false);
    forall k | 0 <= k < |pos| && pos[k] >= 0
      ensures Near(GrownUp(h), log[k].val, MovedTo(pos[k], 0))
    {
      NearUp(h, log[k].val, pos[k]);
    }
  }

  lemma ConvertExplains(h: Hist, log: seq<Sample>, pos: seq<int>)
    requires Shape(h) && h.min == 0.0 && Explains(h, log, pos)
    ensures var n := |h.cvec|; Explains(GrownConvert(h), log, Moved(pos, n, ConvertDrops(n)))
  {
    var n := |h.cvec|;
    ShapeGrownConvert(h);
    FoldCounts(h.cvec, log, pos, n, ConvertDrops(n));
    forall k | 0 <= k < |pos| && pos[k] >= 0
      ensures Near(GrownConvert(h), log[k].val, MovedTo(pos[k], n))
    {
      NearConvert(h, log[k].val, pos[k]);
    }
  }

  lemma OutExplains(h: Hist, log: seq<Sample>, pos: seq<int>)
    requires Shape(h) && h.min < 0.0 && Explains(h, log, pos)
    ensures var n := |h.cvec|; Explains(GrownOut(h), log, Moved(pos, n / 2, OutDrops(n)))
  {
    var n := |h.cvec|;
    FoldCounts(h.cvec, log, pos, n / 2, OutDrops(n));
    forall k | 0 <= k < |pos| && pos[k] >= 0
      ensures Near(GrownOut(h), log[k].val, MovedTo(pos[k], n / 2))
    {
      NearOut(h, log[k].val, pos[k]);
    }
  }

  lemma {:induction false} UpToExplains(h: Hist, log: seq<Sample>, pos: seq<int>, v: real)
      returns (pos': seq<int>)
    requires Shape(h) && h.min == 0.0 && v >= 0.0 && Explains(h, log, pos)
    ensures Explains(UpTo(h, v), log, pos') && (Keeps(pos) ==> Keeps(pos'))
    decreases if v >= h.max + h.size then (v - h.max - h.size).Floor + 1 else 0
  {
    pos' := pos;
    if v >= h.max + h.size {
      ShapeGrownUp(h);
      UpExplains(h, log, pos);
      pos' := UpToExplains(GrownUp(h), log, Moved(pos, 0, false), v);
    }
  }

  lemma {:induction false} OutToExplains(h: Hist, log: seq<Sample>, pos: seq<int>, v: real)
      returns (pos': seq<int>)
    requires Shape(h) && h.min < 0.0 && Explains(h, log, pos)
    ensures Explains(OutTo(h, v), log, pos')
    ensures Keeps(pos) && !OutDrops(|h.cvec|) ==> Keeps(pos')
    decreases if v < h.min then (h.min - v).Floor + 1
              else if v >= h.max + h.size then (v - h.max - h.size).Floor + 1 else 0
  {
    pos' := pos;
    ShapeGrownOut(h);
    if v < h.min || v >= h.max + h.size {
      OutExplains(h, log, pos);
      pos' := OutToExplains(GrownOut(h), log, Moved(pos, |h.cvec| / 2, OutDrops(|h.cvec|)), v);
    }
  }

  lemma FittedExplains(h: Hist, log: seq<Sample>, pos: seq<int>, v: real) returns (pos': seq<int>)
    requires Shape(h) && Explains(h, log, pos)
    ensures Explains(Fitted(h, v), log, pos')
    ensures Keeps(pos) && |h.cvec| % 2 == 0 ==> Keeps(pos')
  {
    if v < h.min && h.min == 0.0 {
      ShapeGrownConvert(h);
      ConvertExplains(h, log, pos);
      pos' := OutToExplains(GrownConvert(h), log, Moved(pos, |h.cvec|, ConvertDrops(|h.cvec|)), v);
    } else if h.min == 0.0 {
      pos' := UpToExplains(h, log, pos, v);
    } else {
      pos' := OutToExplains(h, log, pos, v);
    }
  }

  lemma {:induction false} CountAppend(log: seq<Sample>, pos: seq<int>, s: Sample, p: int, i: int)
    requires |pos| == |log|
    ensures CountAt(log + [s], pos + [p], i)
         == CountAt(log, pos, i) + if i == p then s.number as real else 0.0
  {
    assert (log + [s])[..|log|] == log && (pos + [p])[..|log|] == pos;
  }

  lemma AppendExplains(g: Hist, log: seq<Sample>, pos: seq<int>, s: Sample)
    requires Shape(g) && g.min <= s.val < g.max + g.size && Explains(g, log, pos)
    ensures 0 <= IndexOf(g, s.val) < |g.cvec|
    ensures Explains(Counted(g, s), log + [s], pos + [IndexOf(g, s.val)])
  {
    IndexInRange(g, s.val);
    var p := IndexOf(g, s.val);
    var r := Counted(g, s);
    forall k | 0 <= k <= |log| && (pos + [p])[k] >= 0
      ensures Near(r, (log + [s])[k].val, (pos + [p])[k])
    {
      assert Near(g, (log + [s])[k].val, (pos + [p])[k]);
    }
    forall i | 0 <= i < |r.cvec|
      ensures r.cvec[i] == CountAt(log + [s], pos + [p], i)
    {
      CountAppend(log, pos, s, p, i);
    }
  }

  lemma SampledExplains(h: Hist, log: seq<Sample>, pos: seq<int>, s: Sample) returns (pos': seq<int>)
    requires Shape(h) && Explains(h, log, pos)
    ensures Explains(Sampled(h, s), log + [s], pos')
    ensures Keeps(pos) && |h.cvec| % 2 == 0 ==> Keeps(pos')
  {
    var p := FittedExplains(h, log, pos, s.val);
    AppendExplains(Fitted(h, s.val), log, p, s);
    pos' := p + [IndexOf(Fitted(h, s.val), s.val)];
  }

  /** Every run, every bucket count >= 2: each counter is the number of samples placed in that
      bucket, no placed sample lies further than half a bucket below (and never above) the
      nominal range of its bucket, and with an even bucket count no sample is ever lost. */
  lemma {:induction false} EveryRunExplained(n: nat, log: seq<Sample>) returns (pos: seq<int>)
    requires n >= 2
    ensures Explains(Run(n, log), log, pos)
    ensures n % 2 == 0 ==> Keeps(pos)
    decreases |log|
  {
    FreshShape(n);
    if log == [] {
      pos := [];
    } else {
      var m := |log| - 1;
      var p := EveryRunExplained(n, log[..m]);
      pos := SampledExplains(Run(n, log[..m]), log[..m], p, log[m]);
      assert log[..m] + [log[m]] == log;
    }
  }

  // ---------------------------------------------------------------- runs of non-negative samples

  // How often the log holds a value in [lo, hi).
  function Recount(log: seq<Sample>, lo: real, hi: real): real {
    if log == [] then 0.0
    else
      var s := log[|log| - 1];
      Recount(log[..|log| - 1], lo, hi) + if lo <= s.val < hi then s.number as real else 0.0
  }

  ghost predicate NonNegative(log: seq<Sample>) {
    forall k :: 0 <= k < |log| ==> log[k].val >= 0.0
  }

  lemma {:induction false} CountIsRecount(log: seq<Sample>, pos: seq<int>, i: int, lo: real, hi: real)
    requires |pos| == |log|
    requires forall k :: 0 <= k < |log| ==> (pos[k] == i <==> lo <= log[k].val < hi)
    ensures CountAt(log, pos, i) == Recount(log, lo, hi)
  {
    if log != [] {
      var m := |log| - 1;
      CountIsRecount(log[..m], pos[..m], i, lo, hi);
    }
  }

  // Buckets are laid out in order, each one bucket size after the last.
  lemma NomOrder(h: Hist, i: int, j: int)
    requires h.size > 0.0
    ensures i < j <==> Nom(h, i) + h.size <= Nom(h, j)
    ensures i <= j <==> Nom(h, i) <= Nom(h, j)
  {
    var a, b := i as real * h.size, j as real * h.size;
    NomIs(h, i, a);
    NomIs(h, j, b);
    if i <= j {
      Multiples(i, j, h.size, a, b);
    } else {
      Multiples(j, i, h.size, b, a);
    }
  }

  lemma NomIs(h: Hist, i: int, a: real)
    requires a == i as real * h.size
    ensures Nom(h, i) == h.min + a
  {}

  // Products, as steps of one factor.
  lemma Multiples(i: int, j: int, d: real, a: real, b: real)
    requires d > 0.0 && i <= j && a == i as real * d && b == j as real * d
    ensures if i < j then a + d <= b else a == b
  {
    var k := j - i;
    var c := k as real * d;
    Added(i, k, d, a, c, b);
    Steps(k, d, c);
  }

  lemma Added(i: int, k: int, d: real, a: real, c: real, b: real)
    requires a == i as real * d && c == k as real * d && b == (i + k) as real * d
    ensures b == a + c
  {
    Spread(i, k, d);
  }

  lemma Steps(k: nat, d: real, c: real)
    requires d > 0.0 && c == k as real * d
    ensures if k == 0 then c == 0.0 else c >= d
  {
    if k == 0 {
      assert k as real == 0.0;
    } else {
      SpanAtLeast(k, d);
    }
  }

  /** In every run, the histogram still begins at 0 if and only if no sample was negative. */
  lemma {:induction false} MinZeroIff(n: nat, log: seq<Sample>)
    requires n >= 2
    ensures Run(n, log).min == 0.0 <==> NonNegative(log)
    decreases |log|
  {
    if log != [] {
      var m := |log| - 1;
      MinZeroIff(n, log[..m]);
      FittedMin(Run(n, log[..m]), log[m].val);
      if NonNegative(log[..m]) && log[m].val >= 0.0 {
        assert log[..m] + [log[m]] == log;
      }
    }
  }

  lemma FittedMin(h: Hist, v: real)
    requires Shape(h)
    ensures Fitted(h, v).min == 0.0 <==> h.min == 0.0 && v >= 0.0
  {
    if h.min != 0.0 {
      SpanAtLeast(|h.cvec| - 1, h.size);
    }
  }

  lemma {:induction false} NonNegativeKeeps(n: nat, log: seq<Sample>) returns (pos: seq<int>)
    requires n >= 2 && NonNegative(log)
    ensures Explains(Run(n, log), log, pos) && Keeps(pos) && Run(n, log).min == 0.0
    decreases |log|
  {
    FreshShape(n);
    if log == [] {
      pos := [];
    } else {
      var m := |log| - 1;
      var p := NonNegativeKeeps(n, log[..m]);
      var h := Run(n, log[..m]);
      var q := UpToExplains(h, log[..m], p, log[m].val);
      pos := q + [IndexOf(Fitted(h, log[m].val), log[m].val)];
      AppendExplains(Fitted(h, log[m].val), log[..m], q, log[m]);
      assert log[..m] + [log[m]] == log;
    }
  }

  lemma NearIffEqual(h: Hist, v: real, p: int, i: int)
    requires h.size > 0.0 && h.min == 0.0 && Near(h, v, p)
    ensures p == i <==> Nom(h, i) <= v < Nom(h, i) + h.size
  {
    NomOrder(h, i, p);
    NomOrder(h, p, i);
  }

  // Every bucket counts exactly the logged values of its nominal range.
  ghost predicate ExactRecount(h: Hist, log: seq<Sample>) {
    forall i :: 0 <= i < |h.cvec| ==> h.cvec[i] == Recount(log, Nom(h, i), Nom(h, i) + h.size)
  }

  lemma ExplainedExact(h: Hist, log: seq<Sample>, pos: seq<int>)
    requires h.size > 0.0 && h.min == 0.0 && Explains(h, log, pos) && Keeps(pos)
    ensures ExactRecount(h, log)
  {
    forall i | 0 <= i < |h.cvec|
      ensures h.cvec[i] == Recount(log, Nom(h, i), Nom(h, i) + h.size)
    {
      forall k | 0 <= k < |log|
        ensures pos[k] == i <==> Nom(h, i) <= log[k].val < Nom(h, i) + h.size
      {
        NearIffEqual(h, log[k].val, pos[k], i);
      }
      CountIsRecount(log, pos, i, Nom(h, i), Nom(h, i) + h.size);
    }
  }

  /** Every run of non-negative samples, every bucket count >= 2: each bucket is an exact recount
      of the whole log over its nominal range, after any number of in-place folds. */
  lemma {:induction false} NonNegativeRunsExact(n: nat, log: seq<Sample>)
    requires n >= 2 && NonNegative(log)
    ensures Run(n, log).min == 0.0 && ExactRecount(Run(n, log), log)
  {
    var pos := NonNegativeKeeps(n, log);
    ExplainedExact(Run(n, log), log, pos);
  }

  // ---------------------------------------------------------------- cumulative counts

  function Below(log: seq<Sample>, x: real): real {
    if log == [] then 0.0
    else
      var s := log[|log| - 1];
      Below(log[..|log| - 1], x) + if s.val < x then s.number as real else 0.0
  }

  function PlacedBelow(log: seq<Sample>, pos: seq<int>, i: int): real
    requires |pos| == |log|
  {
    if log == [] then 0.0
    else
      var m := |log| - 1;
      PlacedBelow(log[..m], pos[..m], i) + if 0 <= pos[m] < i then log[m].number as real else 0.0
  }

  lemma {:induction false} PlacedBelowStep(log: seq<Sample>, pos: seq<int>, i: int)
    requires |pos| == |log| && i >= 0
    ensures PlacedBelow(log, pos, i + 1) == PlacedBelow(log, pos, i) + CountAt(log, pos, i)
  {
    if log != [] {
      PlacedBelowStep(log[..|log| - 1], pos[..|log| - 1], i);
    }
  }

  lemma {:induction false} PlacedBelowNone(log: seq<Sample>, pos: seq<int>)
    requires |pos| == |log|
    ensures PlacedBelow(log, pos, 0) == 0.0
  {
    if log != [] {
      PlacedBelowNone(log[..|log| - 1], pos[..|log| - 1]);
    }
  }

  lemma {:induction false} PrefixCounts(c: seq<real>, log: seq<Sample>, pos: seq<int>, i: nat)
    requires |pos| == |log| && i <= |c|
    requires forall j :: 0 <= j < |c| ==> c[j] == CountAt(log, pos, j)
    ensures Total(c[..i]) == PlacedBelow(log, pos, i)
  {
    if i == 0 {
      PlacedBelowNone(log, pos);
    } else {
      PrefixCounts(c, log, pos, i - 1);
      TotalSnoc(c, i - 1);
      PlacedBelowStep(log, pos, i - 1);
    }
  }

  lemma {:induction false} Bracket(log: seq<Sample>, pos: seq<int>, i: int, lo: real, hi: real)
    requires |pos| == |log|
    requires forall k :: 0 <= k < |log| ==> log[k].number >= 0
    requires forall k :: 0 <= k < |log| ==> (log[k].val < lo ==> 0 <= pos[k] < i)
    requires forall k :: 0 <= k < |log| ==> (0 <= pos[k] < i ==> log[k].val < hi)
    ensures Below(log, lo) <= PlacedBelow(log, pos, i) <= Below(log, hi)
  {
    if log != [] {
      var m := |log| - 1;
      Bracket(log[..m], pos[..m], i, lo, hi);
    }
  }

  /** Every run of samples of any sign, every even bucket count: the cumulative counts of the
      histogram agree with those of the log up to a shift of half a bucket, and exactly as
      long as no negative sample has been seen. */
  lemma {:induction false} CumulativeBracket(n: nat, log: seq<Sample>, i: nat)
    requires n >= 2 && n % 2 == 0 && i <= n
    requires forall k :: 0 <= k < |log| ==> log[k].number >= 0
    ensures var h := Run(n, log);
            Below(log, Nom(h, i) - Slack(h)) <= Total(h.cvec[..i]) <= Below(log, Nom(h, i))
  {
    var h := Run(n, log);
    var pos := EveryRunExplained(n, log);
    PrefixCounts(h.cvec, log, pos, i);
    forall k | 0 <= k < |log|
      ensures log[k].val < Nom(h, i) - Slack(h) ==> 0 <= pos[k] < i
      ensures 0 <= pos[k] < i ==> log[k].val < Nom(h, i)
    {
      assert Near(h, log[k].val, pos[k]);
      NomOrder(h, i, pos[k]);
      NomOrder(h, pos[k], i);
    }
    Bracket(log, pos, i, Nom(h, i) - Slack(h), Nom(h, i));
  }

  // ---------------------------------------------------------------- what is lost, and when

  lemma {:induction false} UpToTotal(h: Hist, v: real)
    requires Shape(h) && h.min == 0.0 && v >= 0.0
    ensures Total(UpTo(h, v).cvec) == Total(h.cvec)
    decreases if v >= h.max + h.size then (v - h.max - h.size).Floor + 1 else 0
  {
    if v >= h.max + h.size {
      ShapeGrownUp(h);
      FoldLosses(h);
      UpToTotal(GrownUp(h), v);
    }
  }

  // What the folds throw away while a histogram grows: bucket 0, each time one of them drops it.
  function LostOut(h: Hist, v: real): real
    requires Shape(h) && h.min < 0.0
    decreases if v < h.min then (h.min - v).Floor + 1
              else if v >= h.max + h.size then (v - h.max - h.size).Floor + 1 else 0
  {
    ShapeGrownOut(h);
    if v < h.min || v >= h.max + h.size then
      (if OutDrops(|h.cvec|) then h.cvec[0] else 0.0) + LostOut(GrownOut(h), v)
    else 0.0
  }

  function LostFitting(h: Hist, v: real): real
    requires Shape(h)
  {
    if v < h.min && h.min == 0.0 then
      ShapeGrownConvert(h);
      (if ConvertDrops(|h.cvec|) then h.cvec[0] else 0.0) + LostOut(GrownConvert(h), v)
    else if h.min == 0.0 then 0.0
    else LostOut(h, v)
  }

  function Lost(n: nat, log: seq<Sample>): real
    requires n >= 2
    decreases |log|
  {
    if log == [] then 0.0
    else
      var m := |log| - 1;
      Lost(n, log[..m]) + LostFitting(Run(n, log[..m]), log[m].val)
  }

  lemma {:induction false} OutToTotal(h: Hist, v: real)
    requires Shape(h) && h.min < 0.0
    ensures Total(OutTo(h, v).cvec) == Total(h.cvec) - LostOut(h, v)
    ensures |h.cvec| % 2 == 0 ==> LostOut(h, v) == 0.0
    decreases if v < h.min then (h.min - v).Floor + 1
              else if v >= h.max + h.size then (v - h.max - h.size).Floor + 1 else 0
  {
    ShapeGrownOut(h);
    if v < h.min || v >= h.max + h.size {
      OutTotal(h, GrownOut(h));
      OutToTotal(GrownOut(h), v);
    }
  }

  lemma OutTotal(h: Hist, g: Hist)
    requires |h.cvec| >= 2 && g == GrownOut(h)
    ensures |g.cvec| == |h.cvec| && (OutDrops(|h.cvec|) ==> |h.cvec| % 2 == 1)
    ensures Total(g.cvec) == Total(h.cvec) - if OutDrops(|h.cvec|) then h.cvec[0] else 0.0
  {
    FoldLosses(h);
  }

  lemma FittedTotal(h: Hist, v: real)
    requires Shape(h)
    ensures Total(Fitted(h, v).cvec) == Total(h.cvec) - LostFitting(h, v)
    ensures |h.cvec| % 2 == 0 ==> LostFitting(h, v) == 0.0
  {
    if v < h.min && h.min == 0.0 {
      ShapeGrownConvert(h);
      FoldLosses(h);
      OutToTotal(GrownConvert(h), v);
    } else if h.min == 0.0 {
      UpToTotal(h, v);
    } else {
      OutToTotal(h, v);
    }
  }

  lemma {:induction false} BumpTotal(c: seq<real>, i: nat, x: real)
    requires i < |c|
    ensures Total(c[i := c[i] + x]) == Total(c) + x
  {
    var m := |c| - 1;
    if i < m {
      BumpTotal(c[..m], i, x);
      assert c[i := c[i] + x][..m] == c[..m][i := c[i] + x];
    } else {
      assert c[i := c[i] + x][..m] == c[..m];
    }
  }

  lemma SampledTotal(h: Hist, s: Sample)
    requires Shape(h)
    ensures Total(Sampled(h, s).cvec) == Total(Fitted(h, s.val).cvec) + s.number as real
    ensures Sampled(h, s).samples == h.samples + s.number as real
  {
    var g := Fitted(h, s.val);
    IndexInRange(g, s.val);
    BumpTotal(g.cvec, IndexOf(g, s.val), s.number as real);
  }

  lemma {:induction false} ZeroTotal(c: seq<real>)
    requires forall i :: 0 <= i < |c| ==> c[i] == 0.0
    ensures Total(c) == 0.0
  {
    if c != [] {
      ZeroTotal(c[..|c| - 1]);
    }
  }

  /** Every run, every bucket count: the buckets add up to the number of samples less what bucket 0
      held at each fold that drops it; with an even bucket count none does. */
  lemma {:induction false} RunTotal(n: nat, log: seq<Sample>)
    requires n >= 2
    ensures Total(Run(n, log).cvec) == Run(n, log).samples - Lost(n, log)
    ensures n % 2 == 0 ==> Lost(n, log) == 0.0
    decreases |log|
  {
    if log == [] {
      ZeroTotal(Fresh(n).cvec);
    } else {
      var m := |log| - 1;
      RunTotal(n, log[..m]);
      SampledTotal(Run(n, log[..m]), log[m]);
      FittedTotal(Run(n, log[..m]), log[m].val);
    }
  }

  // A zero followed by a minus one: the zero is converted, and then -1 fits as it is.
  lemma {:induction false} ZeroThenMinusOne(n: nat) returns (h: Hist)
    requires n >= 2
    ensures Shape(h) && h.min == 0.0 && h.cvec == Fresh(n).cvec[0 := 1.0]
    ensures h.samples == 1.0 && h.max == (n - 1) as real && h.size == 1.0
    ensures Shape(GrownConvert(h)) && Fitted(h, -1.0) == GrownConvert(h)
    ensures Run(n, [Sample(0.0, 1), Sample(-1.0, 1)]) == Sampled(h, Sample(-1.0, 1))
  {
    var a, b := Sample(0.0, 1), Sample(-1.0, 1);
    assert [a, b][..1] == [a] && [a][..0] == [];
    var f := Fresh(n);
    FreshShape(n);
    assert Run(n, []) == f;
    assert Fitted(f, 0.0) == f;
    assert IndexOf(f, 0.0) == 0;
    h := Sampled(f, a);
    assert Run(n, [a]) == h;
    ShapeGrownConvert(h);
  }

  lemma OnlyZeroLost(h: Hist)
    requires |h.cvec| % 2 == 1 && h.cvec == Fresh(|h.cvec|).cvec[0 := 1.0]
    ensures Total(GrownConvert(h).cvec) == 0.0
  {
    var f := Fresh(|h.cvec|).cvec;
    ZeroTotal(f);
    BumpTotal(f, 0, 1.0);
    FoldLosses(h);
  }

  // With an odd bucket count that run loses the zero.
  lemma {:induction false} OddLoses(n: nat)
    requires n >= 2 && n % 2 == 1
    ensures var h := Run(n, [Sample(0.0, 1), Sample(-1.0, 1)]);
            Total(h.cvec) == 1.0 && h.samples == 2.0
  {
    var h := ZeroThenMinusOne(n);
    OnlyZeroLost(h);
    SampledTotal(h, Sample(-1.0, 1));
  }

  // With an even bucket count it counts the zero in the bucket whose nominal range is [1, 3).
  lemma {:induction false} EvenShifts(n: nat)
    requires n >= 2 && n % 2 == 0
    ensures var h := Run(n, [Sample(0.0, 1), Sample(-1.0, 1)]);
            Nom(h, n / 2) == 1.0 && h.size == 2.0 && h.cvec[n / 2] == 1.0
    ensures !ExactRecount(Run(n, [Sample(0.0, 1), Sample(-1.0, 1)]), [Sample(0.0, 1), Sample(-1.0, 1)])
  {
    var a, b := Sample(0.0, 1), Sample(-1.0, 1);
    var h := ZeroThenMinusOne(n);
    var g := GrownConvert(h);
    NomConvert(h, 0);
    assert g.cvec[n / 2] == 1.0;
    IndexInRange(g, -1.0);
    var r := Sampled(h, b);
    assert Nom(g, n / 2) == Nom(r, n / 2);
    assert IndexOf(g, -1.0) != n / 2;
    assert [a, b][..1] == [a] && [a][..0] == [];
    assert Recount([a, b], 1.0, 3.0) == 0.0;
  }

  /** The buckets add up to the number of samples in every run if and only if the bucket count
      is even. */
  lemma {:induction false} ConservesIffEven(n: nat)
    requires n >= 2
    ensures (forall log: seq<Sample> :: Total(Run(n, log).cvec) == Run(n, log).samples) <==> n % 2 == 0
  {
    if n % 2 == 0 {
      forall log: seq<Sample>
        ensures Total(Run(n, log).cvec) == Run(n, log).samples
      {
        RunTotal(n, log);
      }
    } else {
      OddLoses(n);
    }
  }

  /** What lies in the nominal range of its bucket still does after a fold: always when growing up,
      and when growing out with an odd bucket count; otherwise exactly when the merged pair is
      aligned with the bucket. */
  lemma FoldExactIff(h: Hist, i: nat)
    requires Shape(h) && i < |h.cvec|
    ensures h.min == 0.0 ==> Inside(h, i, GrownUp(h), MovedTo(i, 0))
    ensures h.min == 0.0 ==> (Inside(h, i, GrownConvert(h), MovedTo(i, |h.cvec|)) <==> (i + |h.cvec|) % 2 == 1)
    ensures h.min < 0.0 ==>
      (Inside(h, i, GrownOut(h), MovedTo(i, |h.cvec| / 2)) <==> |h.cvec| % 2 == 1 || (i + |h.cvec| / 2) % 2 == 1)
  {
    var n := |h.cvec|;
    if h.min == 0.0 {
      NomUp(h, i);
      Bit(i, h.size);
      InsideIff(h, i, GrownUp(h), MovedTo(i, 0), if i % 2 == 0 then 0.0 else -h.size);
      NomConvert(h, i);
      Bit(i + n, h.size);
      InsideIff(h, i, GrownConvert(h), MovedTo(i, n), if (i + n) % 2 == 0 then h.size else 0.0);
    } else {
      OutExactIff(h, i, n);
    }
  }

  lemma OutExactIff(h: Hist, i: nat, n: nat)
    requires Shape(h) && h.min < 0.0 && i < |h.cvec| == n
    ensures Inside(h, i, GrownOut(h), MovedTo(i, n / 2)) <==> n % 2 == 1 || (i + n / 2) % 2 == 1
  {
    NomOut(h, i);
    Bit(i + n / 2, h.size);
    Bit(n, h.size / 2.0);
    InsideIff(h, i, GrownOut(h), MovedTo(i, n / 2),
              (if n % 2 == 0 then h.size / 2.0 else 0.0) - if (i + n / 2) % 2 == 0 then 0.0 else h.size);
  }

  // Every value in the nominal range of bucket i of h is in that of bucket j of g.
  ghost predicate Inside(h: Hist, i: int, g: Hist, j: int) {
    forall v: real :: Within(h, i, v) ==> Within(g, j, v)
  }

  predicate Within(h: Hist, i: int, v: real) {
    Nom(h, i) <= v < Nom(h, i) + h.size
  }

  lemma InsideIff(h: Hist, i: int, g: Hist, j: int, shift: real)
    requires h.size > 0.0 && g.size == 2.0 * h.size && Nom(g, j) == Nom(h, i) + shift
    ensures Inside(h, i, g, j) <==> -h.size <= shift <= 0.0
  {
    if Inside(h, i, g, j) {
      var w := Nom(g, j) + g.size;
      assert Within(h, i, Nom(h, i));
      assert Within(h, i, w) ==> Within(g, j, w);
    }
  }

  // ---------------------------------------------------------------- the accumulators

  // Number of samples, sum and sum of squares.
  type Sums = (real, real, real)

  function Plus(m: Sums, s: Sample): Sums {
    var c := s.number as real;
    (m.0 + c, m.1 + s.val * c, m.2 + s.val * s.val * c)
  }

  function Moments(log: seq<Sample>): Sums {
    if log == [] then (0.0, 0.0, 0.0) else Plus(Moments(log[..|log| - 1]), log[|log| - 1])
  }

  function SumsOf(h: Hist): Sums { (h.samples, h.sum, h.squares) }

  lemma SampledSums(h: Hist, s: Sample)
    requires Shape(h)
    ensures SumsOf(Sampled(h, s)) == Plus(SumsOf(h), s)
  {}

  // No amount of growing disturbs the sums kept beside the buckets.
  lemma {:induction false} MomentsOfRun(n: nat, log: seq<Sample>)
    requires n >= 2
    ensures SumsOf(Run(n, log)) == Moments(log)
    decreases |log|
  {
    if log != [] {
      var m := |log| - 1;
      MomentsOfRun(n, log[..m]);
      SampledSums(Run(n, log[..m]), log[m]);
      assert Run(n, log) == Sampled(Run(n, log[..m]), log[m]);
    }
  }
}
