/**
 A histogram does not grow more than its samples ask for: the row before the last fold did not hold all
 of them.
 */
module HistogramTight {
  import opened HistogramSpec
  import opened HistogramTheorems

  function Pow(k: nat): real {
    if k == 0 then 1.0 else 2.0 * Pow(k - 1)
  }

  // The upper end of a row of n buckets that begins at 0, and the two ends of one that is centred.
  function End(n: nat, size: real): real {
    n as real * size
  }

  function Low(n: nat, size: real): real {
    -((n - 1) as real * size) / 2.0
  }

  function High(n: nat, size: real): real {
    (n - 1) as real * size / 2.0 + size
  }

  function FirstNegative(log: seq<Sample>): (i: nat)
    ensures i <= |log|
  {
    if log == [] then 0
    else
      var m := |log| - 1;
      var i := FirstNegative(log[..m]);
      if i < m || log[m].val < 0.0 then i else m + 1
  }

  // Some sample is not in a row of half the bucket size.
  ghost predicate TooNarrow(n: nat, size: real, log: seq<Sample>) {
    exists i :: 0 <= i < |log| && !(Low(n, size / 2.0) <= log[i].val < High(n, size / 2.0))
  }

  ghost predicate TooShort(n: nat, size: real, log: seq<Sample>) {
    exists i :: 0 <= i < |log| && log[i].val >= End(n, size / 2.0)
  }

  // ---------------------------------------------------------------- the ends of a row

  lemma ShapeEnds(h: Hist, n: nat)
    requires Shape(h) && |h.cvec| == n
    ensures h.min == 0.0 ==> h.max + h.size == End(n, h.size)
    ensures h.min != 0.0 ==> h.min == Low(n, h.size) && h.max + h.size == High(n, h.size)
  {
    Distribute(n - 1, h.size);
  }

  // ---------------------------------------------------------------- growth until a value fits

  // What asks for a fold is not in the row before it.
  lemma UpAsked(h: Hist, v: real, n: nat, size: real)
    requires Shape(h) && h.min == 0.0 && |h.cvec| == n && v >= h.max + h.size && size == GrownUp(h).size
    ensures v >= End(n, size / 2.0)
  {
    ShapeEnds(h, n);
    assert size / 2.0 == h.size;
  }

  lemma OutAsked(h: Hist, v: real, n: nat, size: real)
    requires Shape(h) && h.min < 0.0 && |h.cvec| == n && size == GrownOut(h).size
    requires v < h.min || v >= h.max + h.size
    ensures !(Low(n, size / 2.0) <= v < High(n, size / 2.0))
  {
    ShapeEnds(h, n);
    assert size / 2.0 == h.size;
  }

  lemma {:induction false} UpToTight(h: Hist, v: real, n: nat, j: nat, g: Hist) returns (k: nat)
    requires Shape(h) && h.min == 0.0 && v >= 0.0 && |h.cvec| == n && h.size == Pow(j) && g == UpTo(h, v)
    ensures g.size == Pow(k)
    ensures g == h || v >= End(n, g.size / 2.0)
    decreases if v >= h.max + h.size then (v - h.max - h.size).Floor + 1 else 0
  {
    k := j;
    if v >= h.max + h.size {
      ShapeGrownUp(h);
      UpAsked(h, v, n, GrownUp(h).size);
      k := UpToTight(GrownUp(h), v, n, j + 1, g);
    }
  }

  lemma {:induction false} OutToTight(h: Hist, v: real, n: nat, j: nat, g: Hist) returns (k: nat)
    requires Shape(h) && h.min < 0.0 && |h.cvec| == n && h.size == Pow(j) && g == OutTo(h, v)
    ensures g.size == Pow(k)
    ensures g == h || !(Low(n, g.size / 2.0) <= v < High(n, g.size / 2.0))
    decreases if v < h.min then (h.min - v).Floor + 1
              else if v >= h.max + h.size then (v - h.max - h.size).Floor + 1 else 0
  {
    k := j;
    ShapeGrownOut(h);
    if v < h.min || v >= h.max + h.size {
      OutAsked(h, v, n, GrownOut(h).size);
      k := OutToTight(GrownOut(h), v, n, j + 1, g);
    }
  }

  // ---------------------------------------------------------------- whole runs

  /** The bucket size of a run: 1, or as small as the samples allow; and once there are negative samples,
      twice that of the samples before them, or as small as the samples allow. */
  ghost predicate Tight(n: nat, log: seq<Sample>, h: Hist)
    requires n >= 2
  {
    if NonNegative(log) then h.size == 1.0 || TooShort(n, h.size, log)
    else h.size == 2.0 * Run(n, log[..FirstNegative(log)]).size || TooNarrow(n, h.size, log)
  }

  lemma {:induction false} FirstNegativeIs(log: seq<Sample>)
    ensures NonNegative(log[..FirstNegative(log)])
    ensures FirstNegative(log) < |log| ==> log[FirstNegative(log)].val < 0.0
    ensures FirstNegative(log) == |log| ==> NonNegative(log)
  {
    if log != [] {
      var m := |log| - 1;
      FirstNegativeIs(log[..m]);
      var i := FirstNegative(log[..m]);
      if i < m {
        assert log[..m][..i] == log[..i];
      } else {
        assert log[..m][..m] == log[..m];
      }
    }
  }

  lemma MoreNarrow(n: nat, size: real, log: seq<Sample>, s: Sample)
    ensures TooNarrow(n, size, log) ==> TooNarrow(n, size, log + [s])
    ensures !(Low(n, size / 2.0) <= s.val < High(n, size / 2.0)) ==> TooNarrow(n, size, log + [s])
    ensures TooShort(n, size, log) ==> TooShort(n, size, log + [s])
    ensures s.val >= End(n, size / 2.0) ==> TooShort(n, size, log + [s])
  {
    var more := log + [s];
    assert more[|log|] == s;
    if i :| 0 <= i < |log| && !(Low(n, size / 2.0) <= log[i].val < High(n, size / 2.0)) {
      assert more[i] == log[i];
    }
    if i :| 0 <= i < |log| && log[i].val >= End(n, size / 2.0) {
      assert more[i] == log[i];
    }
  }

  lemma {:induction false} FirstNegativeEnd(log: seq<Sample>)
    requires NonNegative(log)
    ensures FirstNegative(log) == |log|
  {
    if log != [] {
      FirstNegativeEnd(log[..|log| - 1]);
    }
  }

  lemma FirstNegativeMore(log: seq<Sample>, s: Sample, more: seq<Sample>)
    requires !NonNegative(log) && more == log + [s]
    ensures !NonNegative(more) && FirstNegative(more) == FirstNegative(log)
    ensures more[..FirstNegative(more)] == log[..FirstNegative(log)]
  {
    var i := FirstNegative(log);
    FirstNegativeIs(log);
    assert more[..|log|] == log && more[..i] == log[..i] && FirstNegative(more) == i;
    var bad :| 0 <= bad < |log| && log[bad].val < 0.0;
    assert more[bad] == log[bad];
  }

  // One sample more, after a run h of the others.
  lemma StaysTight(n: nat, log: seq<Sample>, s: Sample, h: Hist, g: Hist, j: nat) returns (k: nat)
    requires n >= 2 && h == Run(n, log) && h.size == Pow(j) && Tight(n, log, h) && g == Fitted(h, s.val)
    ensures g.size == Pow(k) && Tight(n, log + [s], g)
  {
    var more := log + [s];
    MinZeroIff(n, log);
    if h.min != 0.0 {
      k := StaysCentred(n, log, s, h, g, j, more);
    } else if s.val < 0.0 {
      k := TurnsNegative(n, log, s, h, g, j, more);
    } else {
      k := StaysPositive(n, log, s, h, g, j, more);
    }
  }

  lemma StaysPositive(n: nat, log: seq<Sample>, s: Sample, h: Hist, g: Hist, j: nat, more: seq<Sample>)
      returns (k: nat)
    requires n >= 2 && h == Run(n, log) && h.size == Pow(j) && Tight(n, log, h) && g == Fitted(h, s.val)
    requires h.min == 0.0 && NonNegative(log) && s.val >= 0.0 && more == log + [s]
    ensures g.size == Pow(k) && Tight(n, more, g)
  {
    assert NonNegative(more);
    k := UpToTight(h, s.val, n, j, g);
    MoreNarrow(n, g.size, log, s);
  }

  lemma TurnsNegative(n: nat, log: seq<Sample>, s: Sample, h: Hist, g: Hist, j: nat, more: seq<Sample>)
      returns (k: nat)
    requires n >= 2 && h == Run(n, log) && h.size == Pow(j) && g == Fitted(h, s.val) && more == log + [s]
    requires h.min == 0.0 && NonNegative(log) && s.val < 0.0
    ensures g.size == Pow(k) && Tight(n, more, g)
  {
    ShapeGrownConvert(h);
    k := OutToTight(GrownConvert(h), s.val, n, j + 1, g);
    MoreNarrow(n, g.size, log, s);
    FirstNegativeEnd(log);
    assert more[..|log|] == log && more[|log|] == s;
    assert !NonNegative(more) && FirstNegative(more) == |log|;
  }

  lemma StaysCentred(n: nat, log: seq<Sample>, s: Sample, h: Hist, g: Hist, j: nat, more: seq<Sample>)
      returns (k: nat)
    requires n >= 2 && h == Run(n, log) && h.size == Pow(j) && Tight(n, log, h) && g == Fitted(h, s.val)
    requires h.min != 0.0 && !NonNegative(log) && more == log + [s]
    ensures g.size == Pow(k) && Tight(n, more, g)
  {
    SpanAtLeast(n - 1, h.size);
    k := OutToTight(h, s.val, n, j, g);
    MoreNarrow(n, g.size, log, s);
    FirstNegativeMore(log, s, more);
  }

  /** Every run: the bucket size is a power of two, and the row before the last fold did not hold all
      samples, or that fold was the one that makes room for negative ones. */
  lemma {:induction false} EveryRunTight(n: nat, log: seq<Sample>) returns (k: nat)
    requires n >= 2
    ensures Run(n, log).size == Pow(k) && Tight(n, log, Run(n, log))
    decreases |log|
  {
    FreshShape(n);
    k := 0;
    if log != [] {
      var m := |log| - 1;
      var h := Run(n, log[..m]);
      k := EveryRunTight(n, log[..m]);
      var g := Fitted(h, log[m].val);
      k := StaysTight(n, log[..m], log[m], h, g, k);
      assert log[..m] + [log[m]] == log;
      SameSize(n, log, g, Run(n, log));
    }
  }

  // Counting a sample does not change the size.
  lemma SameSize(n: nat, log: seq<Sample>, g: Hist, h: Hist)
    requires n >= 2 && Tight(n, log, g) && h.size == g.size
    ensures Tight(n, log, h)
  {}

  // ---------------------------------------------------------------- the least power of two

  lemma {:induction false} UpToEnd(h: Hist, v: real)
    requires Shape(h) && h.min == 0.0 && v >= 0.0
    ensures UpTo(h, v).max + UpTo(h, v).size >= h.max + h.size
    decreases if v >= h.max + h.size then (v - h.max - h.size).Floor + 1 else 0
  {
    if v >= h.max + h.size {
      ShapeGrownUp(h);
      UpToEnd(GrownUp(h), v);
    }
  }

  lemma {:induction false} AllBelow(n: nat, log: seq<Sample>, i: nat)
    requires n >= 2 && NonNegative(log) && i < |log|
    ensures Run(n, log).min == 0.0 && log[i].val < Run(n, log).max + Run(n, log).size
    decreases |log|
  {
    var m := |log| - 1;
    var h := Run(n, log[..m]);
    MinZeroIff(n, log[..m]);
    MinZeroIff(n, log);
    UpToEnd(h, log[m].val);
    if i < m {
      AllBelow(n, log[..m], i);
    }
  }

  lemma {:induction false} PowOrder(j: nat, k: nat)
    requires j < k
    ensures Pow(k) / 2.0 >= Pow(j) >= 1.0
    decreases k
  {
    PowPositive(j);
    if j < k - 1 {
      PowOrder(j, k - 1);
    }
  }

  lemma {:induction false} PowPositive(k: nat)
    ensures Pow(k) >= 1.0
  {
    if k > 0 {
      PowPositive(k - 1);
    }
  }

  lemma EndOrder(n: nat, a: real, b: real)
    requires a <= b
    ensures End(n, a) <= End(n, b)
  {
    assert n as real * (b - a) >= 0.0;
  }

  lemma AllFit(n: nat, log: seq<Sample>, size: real)
    requires n >= 2 && NonNegative(log) && size == Run(n, log).size
    ensures forall i :: 0 <= i < |log| ==> log[i].val < End(n, size)
  {
    ShapeEnds(Run(n, log), n);
    forall i | 0 <= i < |log|
      ensures log[i].val < End(n, size)
    {
      AllBelow(n, log, i);
    }
  }

  lemma NoneSmaller(n: nat, log: seq<Sample>, size: real, smaller: real)
    requires size != 1.0 && (size == 1.0 || TooShort(n, size, log)) && smaller <= size / 2.0
    ensures exists i :: 0 <= i < |log| && log[i].val >= End(n, smaller)
  {
    var i :| 0 <= i < |log| && log[i].val >= End(n, size / 2.0);
    EndOrder(n, smaller, size / 2.0);
  }

  /** Every run of non-negative samples: n buckets hold them all, and do so with no smaller power of two
      as the bucket size. */
  lemma LeastSize(n: nat, log: seq<Sample>, j: nat) returns (k: nat)
    requires n >= 2 && NonNegative(log)
    ensures Run(n, log).size == Pow(k) && forall i :: 0 <= i < |log| ==> log[i].val < End(n, Pow(k))
    ensures (forall i :: 0 <= i < |log| ==> log[i].val < End(n, Pow(j))) ==> k <= j
  {
    k := EveryRunTight(n, log);
    AllFit(n, log, Pow(k));
    if j < k {
      PowOrder(j, k);
      NoneSmaller(n, log, Pow(k), Pow(j));
    }
  }
}
