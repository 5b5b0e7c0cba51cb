/**
 Value-level description of the self-resizing histogram: what each of the three folds does
 to the row of buckets, and what a whole run of samples leaves behind.

 All three folds merge neighbouring buckets two by two.  They differ only in the offset at
 which the merged pairs land, and in whether bucket 0 is thrown away on the way.
 */
module HistogramSpec {

  // One call of sample(val, number).
  datatype Sample = Sample(val: real, number: int)

  // The fields of HistStor, without the logarithm accumulator.
  datatype Hist = Hist(min: real, max: real, size: real, cvec: seq<real>,
                       sum: real, squares: real, samples: real)

  // ---------------------------------------------------------------- folds on rows of buckets

  function At(s: seq<real>, j: int): real {
    if 0 <= j < |s| then s[j] else 0.0
  }

  // Bucket i of the result collects buckets 2i-off and 2i-off+1.
  function Fold(s: seq<real>, off: int): seq<real> {
    seq(|s|, i => At(s, 2 * i - off) + At(s, 2 * i - off + 1))
  }

  // Forget bucket 0.
  function Drop0(s: seq<real>): seq<real> {
    if s == [] then s else s[0 := 0.0]
  }

  function Total(s: seq<real>): real {
    if s == [] then 0.0 else Total(s[..|s| - 1]) + s[|s| - 1]
  }

  // Which bucket the contents of bucket j move to.
  function MovedTo(j: int, off: int): int {
    (j + off) / 2
  }

  function Clamp(m: int, n: nat): (r: nat) {
    if m < 0 then 0 else if m > n then n else m
  }

  lemma TotalSnoc(s: seq<real>, k: nat)
    requires k < |s|
    ensures Total(s[..k + 1]) == Total(s[..k]) + s[k]
  {
    assert s[..k + 1][..k] == s[..k];
  }

  lemma TotalClamp(s: seq<real>, m: int)
    ensures Total(s[..Clamp(m + 1, |s|)]) == Total(s[..Clamp(m, |s|)]) + At(s, m)
  {
    if 0 <= m < |s| {
      TotalSnoc(s, m);
    }
  }

  // The first k merged buckets hold exactly what the first 2k-off old buckets held.
  lemma {:induction false} FoldPrefix(s: seq<real>, off: int, k: nat)
    requires 0 <= off && k <= |s|
    ensures Total(Fold(s, off)[..k]) == Total(s[..Clamp(2 * k - off, |s|)])
  {
    if k > 0 {
      FoldPrefix(s, off, k - 1);
      TotalSnoc(Fold(s, off), k - 1);
      TotalClamp(s, 2 * k - off - 2);
      TotalClamp(s, 2 * k - off - 1);
    }
  }

  // Merging at any offset up to the row length neither loses nor invents counts.
  lemma FoldConserves(s: seq<real>, off: int)
    requires 0 <= off <= |s|
    ensures Total(Fold(s, off)) == Total(s)
  {
    FoldPrefix(s, off, |s|);
    assert Fold(s, off)[..|s|] == Fold(s, off);
    assert s[..|s|] == s;
  }

  lemma {:induction false} Drop0Total(s: seq<real>)
    requires s != []
    ensures Total(Drop0(s)) == Total(s) - s[0]
  {
    if |s| > 1 {
      var t := s[..|s| - 1];
      Drop0Total(t);
      assert Drop0(s)[..|s| - 1] == Drop0(t);
    } else {
      assert Drop0(s)[..0] == s[..0] == [];
    }
  }

  // ---------------------------------------------------------------- the three folds

  predicate ConvertDrops(n: nat) { n % 2 == 1 }

  predicate OutDrops(n: nat) { n % 4 == 3 }

  function GrownUp(h: Hist): Hist {
    h.(cvec := Fold(h.cvec, 0), max := 2.0 * h.max, size := 2.0 * h.size)
  }

  function GrownConvert(h: Hist): Hist {
    var n := |h.cvec|;
    h.(cvec := Fold(if ConvertDrops(n) then Drop0(h.cvec) else h.cvec, n),
       min := -h.max, size := 2.0 * h.size)
  }

  function GrownOut(h: Hist): Hist {
    var n := |h.cvec|;
    h.(cvec := Fold(if OutDrops(n) then Drop0(h.cvec) else h.cvec, n / 2),
       min := 2.0 * h.min, max := 2.0 * h.max, size := 2.0 * h.size)
  }

  // Exact conservation law of each fold, for every number of buckets.
  lemma FoldLosses(h: Hist)
    requires h.cvec != []
    ensures Total(GrownUp(h).cvec) == Total(h.cvec)
    ensures Total(GrownConvert(h).cvec) ==
            Total(h.cvec) - if |h.cvec| % 2 == 1 then h.cvec[0] else 0.0
    ensures Total(GrownOut(h).cvec) ==
            Total(h.cvec) - if |h.cvec| % 4 == 3 then h.cvec[0] else 0.0
  {
    var n := |h.cvec|;
    FoldConserves(h.cvec, 0);
    FoldConserves(h.cvec, n);
    FoldConserves(h.cvec, n / 2);
    FoldConserves(Drop0(h.cvec), n);
    FoldConserves(Drop0(h.cvec), n / 2);
    Drop0Total(h.cvec);
  }

  // ---------------------------------------------------------------- reachable shapes

  // Nominal lower end of bucket i.
  function Nom(h: Hist, i: int): real {
    h.min + i as real * h.size
  }

  // Either the histogram has only ever seen values >= 0 and starts at 0, or it is centred on 0.
  ghost predicate Shape(h: Hist) {
    ShapeOf(|h.cvec|, h.min, h.max, h.size)
  }

  ghost predicate ShapeOf(n: nat, min: real, max: real, size: real) {
    var span := (n - 1) as real * size;
    && n >= 2
    && size >= 1.0
    && (min == 0.0 || (2.0 * min == -span && size >= 2.0))
    && max == min + span
  }

  function Fresh(n: nat): Hist
  {
    Hist(0.0, (n - 1) as real, 1.0, seq(n, _ => 0.0), 0.0, 0.0, 0.0)
  }

  lemma SpanAtLeast(m: nat, size: real)
    requires m >= 1 && size >= 0.0
    ensures m as real * size >= size
  {
    assert (m as real - 1.0) * size >= 0.0;
  }

  lemma ShapeGrownUp(h: Hist)
    requires Shape(h) && h.min == 0.0
    ensures Shape(GrownUp(h))
    ensures GrownUp(h).max + GrownUp(h).size >= h.max + h.size + 1.0
  {
    SpanAtLeast(|h.cvec| - 1, h.size);
  }

  lemma ShapeGrownConvert(h: Hist)
    requires Shape(h) && h.min == 0.0
    ensures Shape(GrownConvert(h)) && GrownConvert(h).min < 0.0
    ensures GrownConvert(h).max == h.max >= 0.0
  {
    SpanAtLeast(|h.cvec| - 1, h.size);
  }

  lemma ShapeGrownOut(h: Hist)
    requires Shape(h) && h.min < 0.0
    ensures Shape(GrownOut(h)) && GrownOut(h).min <= h.min - 1.0
    ensures GrownOut(h).max + GrownOut(h).size >= h.max + h.size + 1.0
    ensures h.max >= 0.0
  {
    SpanAtLeast(|h.cvec| - 1, h.size);
  }

  // ---------------------------------------------------------------- growth until a value fits

  function UpTo(h: Hist, v: real): (g: Hist)
    requires Shape(h) && h.min == 0.0 && v >= 0.0
    ensures Shape(g) && g.min == 0.0 && |g.cvec| == |h.cvec| && v < g.max + g.size
    ensures g.sum == h.sum && g.squares == h.squares && g.samples == h.samples
    decreases if v >= h.max + h.size then (v - h.max - h.size).Floor + 1 else 0
  {
    if v >= h.max + h.size then ShapeGrownUp(h); UpTo(GrownUp(h), v) else h
  }

  function OutTo(h: Hist, v: real): (g: Hist)
    requires Shape(h) && h.min < 0.0
    ensures Shape(g) && g.min < 0.0 && |g.cvec| == |h.cvec|
    ensures g.min <= v < g.max + g.size
    ensures g.sum == h.sum && g.squares == h.squares && g.samples == h.samples
    decreases if v < h.min then (h.min - v).Floor + 1
              else if v >= h.max + h.size then (v - h.max - h.size).Floor + 1 else 0
  {
    ShapeGrownOut(h);
    if v < h.min || v >= h.max + h.size then OutTo(GrownOut(h), v) else h
  }

  // The growth part of sample().
  function Fitted(h: Hist, v: real): (g: Hist)
    requires Shape(h)
    ensures Shape(g) && |g.cvec| == |h.cvec| && g.min <= v < g.max + g.size
    ensures g.sum == h.sum && g.squares == h.squares && g.samples == h.samples
    ensures h.min == 0.0 && v >= 0.0 ==> g.min == 0.0
  {
    if v < h.min && h.min == 0.0 then ShapeGrownConvert(h); OutTo(GrownConvert(h), v)
    else if h.min == 0.0 then UpTo(h, v)
    else OutTo(h, v)
  }

  function IndexOf(h: Hist, v: real): int
    requires h.size != 0.0
  {
    ((v - h.min) / h.size).Floor
  }

  lemma FloorDiv(x: real, d: real)
    requires d > 0.0
    ensures var i := (x / d).Floor; i as real * d <= x < i as real * d + d
  {
    var q := x / d;
    var f := q.Floor as real;
    assert q * d == x;
    MulLess(f, q, d);
    MulLess(q, f + 1.0, d);
    assert (f + 1.0) * d == f * d + d;
  }

  lemma MulLess(a: real, b: real, d: real)
    requires d > 0.0 && a <= b
    ensures a * d <= b * d
    ensures a < b ==> a * d < b * d
  {}

  lemma FactorLess(a: int, b: int, d: real)
    requires d > 0.0 && a as real * d < b as real * d
    ensures a < b
  {
    if a >= b {
      MulLess(b as real, a as real, d);
      assert false;
    }
  }

  lemma Distribute(i: int, d: real)
    ensures (i + 1) as real * d == i as real * d + d == (i as real + 1.0) * d
  {
    assert (i + 1) as real == i as real + 1.0;
  }

  // The assertion in sample(): the computed index is always in range; moreover the value
  // lies within the nominal range of that bucket.
  lemma IndexInRange(h: Hist, v: real)
    requires Shape(h) && h.min <= v < h.max + h.size
    ensures 0 <= IndexOf(h, v) < |h.cvec|
    ensures Nom(h, IndexOf(h, v)) <= v < Nom(h, IndexOf(h, v)) + h.size
  {
    var i := IndexOf(h, v);
    var n := |h.cvec|;
    FloorDiv(v - h.min, h.size);
    Distribute(i, h.size);
    Distribute(n - 1, h.size);
    FactorLess(0, i + 1, h.size);
    calc {
      i as real * h.size;
    <=
      v - h.min;
    <
      (n - 1) as real * h.size + h.size;
    ==
      n as real * h.size;
    }
    FactorLess(i, n, h.size);
  }

  // The counting part of sample(), once the value fits.
  function Counted(g: Hist, s: Sample): Hist
    requires Shape(g) && 0 <= IndexOf(g, s.val) < |g.cvec|
  {
    var i := IndexOf(g, s.val);
    var c := s.number as real;
    g.(cvec := g.cvec[i := g.cvec[i] + c],
       sum := g.sum + s.val * c,
       squares := g.squares + s.val * s.val * c,
       samples := g.samples + c)
  }

  function Sampled(h: Hist, s: Sample): (r: Hist)
    requires Shape(h)
    ensures Shape(r) && |r.cvec| == |h.cvec|
    ensures h.min == 0.0 && s.val >= 0.0 ==> r.min == 0.0
  {
    IndexInRange(Fitted(h, s.val), s.val);
    Counted(Fitted(h, s.val), s)
  }

  lemma FreshShape(n: nat)
    requires n >= 2
    ensures Shape(Fresh(n)) && |Fresh(n).cvec| == n
  {}

  // The histogram after a whole run of samples.
  function Run(n: nat, log: seq<Sample>): (h: Hist)
    requires n >= 2
    ensures Shape(h) && |h.cvec| == n
    decreases |log|
  {
    FreshShape(n);
    if log == [] then Fresh(n) else Sampled(Run(n, log[..|log| - 1]), log[|log| - 1])
  }
}
