/**
 Where every sample is counted after any run, for an even number of buckets: buckets are counted
 from an origin that depends on how wide the buckets were when the sample came.  From this follows
 which runs the histogram recounts exactly.
 */
module HistogramPlaces {
  import opened HistogramSpec
  import opened HistogramTheorems

  // The bucket that begins at the origin.
  function Middle(h: Hist): int {
    if h.min == 0.0 then 0 else |h.cvec| / 2
  }

  // Where the buckets of a new sample are counted from: 0, or half a bucket above it.
  function Origin(h: Hist): real {
    if h.min == 0.0 then 0.0 else h.size / 2.0
  }

  function Place(h: Hist, v: real, o: real): int
    requires h.size > 0.0
  {
    Middle(h) + ((v - o) / h.size).Floor
  }

  function Places(h: Hist, log: seq<Sample>, os: seq<real>): (pos: seq<int>)
    requires h.size > 0.0 && |os| == |log|
    ensures |pos| == |log|
  {
    seq(|log|, k requires 0 <= k < |log| => Place(h, log[k].val, os[k]))
  }

  // Sample v, counted from origin o, is in a bucket of h.
  ghost predicate Seated(h: Hist, v: real, o: real) {
    && h.size > 0.0 && h.min <= v < h.max + h.size && 0.0 <= o <= Origin(h)
    && 0 <= Place(h, v, o) < |h.cvec|
  }

  /** Every counter is the number of samples whose place it is. */
  ghost predicate Located(h: Hist, log: seq<Sample>, os: seq<real>) {
    && h.size > 0.0 && |os| == |log|
    && (forall k :: 0 <= k < |log| ==> Seated(h, log[k].val, os[k]))
    && (forall i :: 0 <= i < |h.cvec| ==> h.cvec[i] == CountAt(log, Places(h, log, os), i))
  }

  // ---------------------------------------------------------------- one fold

  lemma FloorHalf(x: real)
    ensures (x / 2.0).Floor == x.Floor / 2
  {
    var q := x.Floor / 2;
    assert 2.0 * q as real <= x < 2.0 * q as real + 2.0;
  }

  lemma HalfQuotient(x: real, s: real)
    requires s > 0.0
    ensures x / (2.0 * s) == (x / s) / 2.0
  {
    var q := x / s;
    assert q * s == x;
    assert (q / 2.0) * (2.0 * s) == x;
  }

  lemma FloorTwice(x: real, s: real)
    requires s > 0.0
    ensures (x / (2.0 * s)).Floor == (x / s).Floor / 2
  {
    HalfQuotient(x, s);
    FloorHalf(x / s);
  }

  lemma PlaceUp(h: Hist, v: real, o: real)
    requires Shape(h) && h.min == 0.0 && Seated(h, v, o)
    ensures Seated(GrownUp(h), v, o) && Place(GrownUp(h), v, o) == MovedTo(Place(h, v, o), 0)
  {
    ShapeGrownUp(h);
    FloorTwice(v - o, h.size);
  }

  lemma PlaceConvert(h: Hist, v: real, o: real)
    requires Shape(h) && h.min == 0.0 && |h.cvec| % 2 == 0 && Seated(h, v, o)
    ensures Seated(GrownConvert(h), v, o)
    ensures Place(GrownConvert(h), v, o) == MovedTo(Place(h, v, o), |h.cvec|)
  {
    ShapeGrownConvert(h);
    FloorTwice(v - o, h.size);
  }

  lemma PlaceOut(h: Hist, v: real, o: real)
    requires Shape(h) && h.min < 0.0 && |h.cvec| % 2 == 0 && Seated(h, v, o)
    ensures Seated(GrownOut(h), v, o) && Place(GrownOut(h), v, o) == MovedTo(Place(h, v, o), |h.cvec| / 2)
  {
    ShapeGrownOut(h);
    FloorTwice(v - o, h.size);
  }

  // A fold that moves every place with it.
  lemma FoldLocated(h: Hist, g: Hist, off: int, log: seq<Sample>, os: seq<real>)
    requires Located(h, log, os) && 0 <= off <= |h.cvec| && g.cvec == Fold(h.cvec, off) && g.size > 0.0
    requires forall k :: 0 <= k < |log| ==>
      Seated(g, log[k].val, os[k]) && Place(g, log[k].val, os[k]) == MovedTo(Place(h, log[k].val, os[k]), off)
    ensures Located(g, log, os)
  {
    var pos := Places(h, log, os);
    forall k | 0 <= k < |pos|
      ensures -1 <= pos[k] < |h.cvec|
    {
      assert Seated(h, log[k].val, os[k]);
    }
    FoldCounts(h.cvec, log, pos, off, false);
    MovedPlaces(h, g, off, log, os);
  }

  lemma MovedPlaces(h: Hist, g: Hist, off: int, log: seq<Sample>, os: seq<real>)
    requires h.size > 0.0 && g.size > 0.0 && |os| == |log|
    requires forall k :: 0 <= k < |log| ==> Seated(h, log[k].val, os[k])
    requires forall k :: 0 <= k < |log| ==> Place(g, log[k].val, os[k]) == MovedTo(Place(h, log[k].val, os[k]), off)
    ensures Moved(Places(h, log, os), off, false) == Places(g, log, os)
  {
    forall k | 0 <= k < |log|
      ensures Moved(Places(h, log, os), off, false)[k] == Places(g, log, os)[k]
    {
      assert Seated(h, log[k].val, os[k]);
    }
  }

  lemma UpLocated(h: Hist, log: seq<Sample>, os: seq<real>)
    requires Shape(h) && h.min == 0.0 && Located(h, log, os)
    ensures Located(GrownUp(h), log, os)
  {
    forall k | 0 <= k < |log|
      ensures Seated(GrownUp(h), log[k].val, os[k])
      ensures Place(GrownUp(h), log[k].val, os[k]) == MovedTo(Place(h, log[k].val, os[k]), 0)
    {
      PlaceUp(h, log[k].val, os[k]);
    }
    FoldLocated(h, GrownUp(h), 0, log, os);
  }

  lemma ConvertLocated(h: Hist, log: seq<Sample>, os: seq<real>)
    requires Shape(h) && h.min == 0.0 && |h.cvec| % 2 == 0 && Located(h, log, os)
    ensures Located(GrownConvert(h), log, os)
  {
    forall k | 0 <= k < |log|
      ensures Seated(GrownConvert(h), log[k].val, os[k])
      ensures Place(GrownConvert(h), log[k].val, os[k]) == MovedTo(Place(h, log[k].val, os[k]), |h.cvec|)
    {
      PlaceConvert(h, log[k].val, os[k]);
    }
    FoldLocated(h, GrownConvert(h), |h.cvec|, log, os);
  }

  lemma OutLocated(h: Hist, log: seq<Sample>, os: seq<real>)
    requires Shape(h) && h.min < 0.0 && |h.cvec| % 2 == 0 && Located(h, log, os)
    ensures Located(GrownOut(h), log, os)
  {
    forall k | 0 <= k < |log|
      ensures Seated(GrownOut(h), log[k].val, os[k])
      ensures Place(GrownOut(h), log[k].val, os[k]) == MovedTo(Place(h, log[k].val, os[k]), |h.cvec| / 2)
    {
      PlaceOut(h, log[k].val, os[k]);
    }
    FoldLocated(h, GrownOut(h), |h.cvec| / 2, log, os);
  }

  // ---------------------------------------------------------------- growing, and a new sample

  lemma {:induction false} UpToLocated(h: Hist, log: seq<Sample>, os: seq<real>, v: real)
    requires Shape(h) && h.min == 0.0 && v >= 0.0 && Located(h, log, os)
    ensures Located(UpTo(h, v), log, os)
    decreases if v >= h.max + h.size then (v - h.max - h.size).Floor + 1 else 0
  {
    if v >= h.max + h.size {
      ShapeGrownUp(h);
      UpLocated(h, log, os);
      UpToLocated(GrownUp(h), log, os, v);
    }
  }

  lemma {:induction false} OutToLocated(h: Hist, log: seq<Sample>, os: seq<real>, v: real)
    requires Shape(h) && h.min < 0.0 && |h.cvec| % 2 == 0 && Located(h, log, os)
    ensures Located(OutTo(h, v), log, os)
    decreases if v < h.min then (h.min - v).Floor + 1
              else if v >= h.max + h.size then (v - h.max - h.size).Floor + 1 else 0
  {
    ShapeGrownOut(h);
    if v < h.min || v >= h.max + h.size {
      OutLocated(h, log, os);
      OutToLocated(GrownOut(h), log, os, v);
    }
  }

  lemma FittedLocated(h: Hist, log: seq<Sample>, os: seq<real>, v: real)
    requires Shape(h) && |h.cvec| % 2 == 0 && Located(h, log, os)
    ensures Located(Fitted(h, v), log, os)
  {
    if v < h.min && h.min == 0.0 {
      ShapeGrownConvert(h);
      ConvertLocated(h, log, os);
      OutToLocated(GrownConvert(h), log, os, v);
    } else if h.min == 0.0 {
      UpToLocated(h, log, os, v);
    } else {
      OutToLocated(h, log, os, v);
    }
  }

  lemma Quotients(a: real, b: real, s: real)
    requires s > 0.0
    ensures (a - b) / s == a / s - b / s
  {
    assert (a / s - b / s) * s == a - b;
  }

  lemma QuotientIs(a: real, q: real, s: real)
    requires s > 0.0 && q * s == a
    ensures a / s == q
  {}

  // The lower end of a centred histogram with 2m buckets, in buckets.
  lemma CentredMin(n: nat, m: int, min: real, size: real)
    requires n == 2 * m && 2.0 * min == -((n - 1) as real * size) && size > 0.0
    ensures min / size == 0.5 - m as real
  {
    Spread(n, -1, size);
    assert n as real == 2.0 * m as real;
    assert n as real * size == 2.0 * (m as real * size);
    QuotientIs(min, 0.5 - m as real, size);
  }

  lemma HalfOf(size: real)
    requires size > 0.0
    ensures (size / 2.0) / size == 0.5
  {
    assert 0.5 * size == size / 2.0;
  }

  // Counted from its own origin, a sample's place is its nominal bucket.
  lemma PlaceIsIndex(g: Hist, v: real)
    requires Shape(g) && |g.cvec| % 2 == 0
    ensures Place(g, v, Origin(g)) == IndexOf(g, v)
  {
    if g.min != 0.0 {
      CentredMin(|g.cvec|, |g.cvec| / 2, g.min, g.size);
      HalfOf(g.size);
      Quotients(v, g.min, g.size);
      Quotients(v, g.size / 2.0, g.size);
    }
  }

  lemma AppendLocated(g: Hist, log: seq<Sample>, os: seq<real>, s: Sample)
    requires Shape(g) && |g.cvec| % 2 == 0 && g.min <= s.val < g.max + g.size && Located(g, log, os)
    ensures 0 <= IndexOf(g, s.val) < |g.cvec|
    ensures Located(Counted(g, s), log + [s], os + [Origin(g)])
  {
    IndexInRange(g, s.val);
    PlaceIsIndex(g, s.val);
    var r, log', os' := Counted(g, s), log + [s], os + [Origin(g)];
    forall k | 0 <= k < |log'|
      ensures Seated(r, log'[k].val, os'[k])
    {
      assert k < |log| ==> Seated(g, log[k].val, os[k]);
    }
    assert Places(r, log', os') == Places(g, log, os) + [IndexOf(g, s.val)];
    forall i | 0 <= i < |r.cvec|
      ensures r.cvec[i] == CountAt(log', Places(r, log', os'), i)
    {
      CountAppend(log, Places(g, log, os), s, IndexOf(g, s.val), i);
    }
  }

  // ---------------------------------------------------------------- whole runs

  // For each sample of a run, the origin at the time it was counted.
  function Origins(n: nat, log: seq<Sample>): (os: seq<real>)
    requires n >= 2
    ensures |os| == |log|
    decreases |log|
  {
    if log == [] then []
    else
      var m := |log| - 1;
      Origins(n, log[..m]) + [Origin(Fitted(Run(n, log[..m]), log[m].val))]
  }

  /** Every run, every even bucket count: bucket i holds exactly the samples that are i buckets of
      the final size away, counted from their origins. */
  lemma {:induction false} EveryRunLocated(n: nat, log: seq<Sample>)
    requires n >= 2 && n % 2 == 0
    ensures Located(Run(n, log), log, Origins(n, log))
    decreases |log|
  {
    FreshShape(n);
    if log != [] {
      var m := |log| - 1;
      var h, s := Run(n, log[..m]), log[m];
      EveryRunLocated(n, log[..m]);
      FittedLocated(h, log[..m], Origins(n, log[..m]), s.val);
      AppendLocated(Fitted(h, s.val), log[..m], Origins(n, log[..m]), s);
      assert log[..m] + [s] == log;
    }
  }

  // ---------------------------------------------------------------- which runs are recounted exactly

  // Less than half above a whole number, but not less than e above it.
  predicate Between(q: real, e: real, j: int) {
    j as real + e <= q < j as real + 0.5
  }

  ghost predicate LowHalf(q: real, e: real) {
    exists j: int :: Between(q, e, j)
  }

  // Buckets begin half a bucket away from 0 now, and v is counted on the wrong side of one.
  ghost predicate Astray(h: Hist, v: real, o: real)
    requires h.size > 0.0
  {
    h.min != 0.0 && LowHalf(v / h.size, o / h.size)
  }

  lemma NotBetween(q: real, e: real, i: int)
    requires i as real + 0.5 <= q < i as real + 1.0 + e
    ensures forall j: int :: !Between(q, e, j)
  {
    forall j: int
      ensures !Between(q, e, j)
    {
      assert j <= i ==> j as real <= i as real;
      assert j > i ==> j as real >= i as real + 1.0;
    }
  }

  // Two origins that are at most half a bucket apart.
  lemma TwoFloors(q: real, e: real)
    requires 0.0 <= e <= 0.5
    ensures var i, j := (q - 0.5).Floor, (q - e).Floor;
      (j == i && q < i as real + 1.0 + e) || (j == i + 1 && j as real + e <= q < j as real + 0.5)
  {}

  lemma OriginInBuckets(h: Hist, o: real)
    requires h.size > 0.0 && 0.0 <= o <= h.size / 2.0
    ensures 0.0 <= o / h.size <= 0.5
  {
    var e := o / h.size;
    assert e * h.size == o;
    if e < 0.0 {
      MulLess(e, 0.0, h.size);
    } else if e > 0.5 {
      MulLess(0.5, e, h.size);
    }
  }

  lemma AstrayInBuckets(q: real, e: real)
    requires 0.0 <= e <= 0.5
    ensures (q - e).Floor == (q - 0.5).Floor + if LowHalf(q, e) then 1 else 0
  {
    TwoFloors(q, e);
    var i, j := (q - 0.5).Floor, (q - e).Floor;
    if j == i {
      NotBetween(q, e, i);
    } else {
      assert Between(q, e, j);
    }
  }

  /** A sample that is astray is counted one bucket above its nominal one, and any other sample
      in its nominal one. */
  lemma AstrayIff(h: Hist, v: real, o: real)
    requires Shape(h) && |h.cvec| % 2 == 0 && Seated(h, v, o)
    ensures Place(h, v, o) == IndexOf(h, v) + if Astray(h, v, o) then 1 else 0
  {
    PlaceIsIndex(h, v);
    if h.min != 0.0 {
      OriginInBuckets(h, o);
      HalfOf(h.size);
      Quotients(v, o, h.size);
      Quotients(v, h.size / 2.0, h.size);
      AstrayInBuckets(v / h.size, o / h.size);
    }
  }

  lemma ScaleLe(x: real, s: real, c: real)
    requires s > 0.0
    ensures c * s <= x <==> c <= x / s
  {
    var q := x / s;
    assert q * s == x;
    if c <= q {
      MulLess(c, q, s);
    } else {
      MulLess(q, c, s);
    }
  }

  lemma FloorIs(x: real, s: real, j: int)
    requires s > 0.0
    ensures (x / s).Floor == j <==> j as real * s <= x < j as real * s + s
  {
    ScaleLe(x, s, j as real);
    ScaleLe(x, s, (j + 1) as real);
    Distribute(j, s);
  }

  // No sample of the run is astray.
  ghost predicate NoneAstray(h: Hist, log: seq<Sample>, os: seq<real>)
    requires h.size > 0.0 && |os| == |log|
  {
    forall k :: 0 <= k < |log| ==> !Astray(h, log[k].val, os[k])
  }

  function Nominal(h: Hist, log: seq<Sample>): (idx: seq<int>)
    requires h.size > 0.0
    ensures |idx| == |log|
  {
    seq(|log|, k requires 0 <= k < |log| => IndexOf(h, log[k].val))
  }

  lemma IndexIs(h: Hist, v: real, i: int, lo: real)
    requires h.size > 0.0 && lo == Nom(h, i)
    ensures IndexOf(h, v) == i <==> lo <= v < lo + h.size
  {
    FloorIs(v - h.min, h.size, i);
  }

  // The recount of a bucket is the count of the samples whose nominal bucket it is.
  lemma NominalRecount(h: Hist, log: seq<Sample>, i: int, lo: real)
    requires h.size > 0.0 && lo == Nom(h, i)
    ensures CountAt(log, Nominal(h, log), i) == Recount(log, lo, lo + h.size)
  {
    var idx, hi := Nominal(h, log), lo + h.size;
    forall k | 0 <= k < |log|
      ensures idx[k] == i <==> lo <= log[k].val < hi
    {
      IndexIs(h, log[k].val, i, lo);
    }
    CountIsRecount(log, idx, i, lo, hi);
  }

  // Moving a sample up takes it away from the buckets below.
  lemma {:induction false} FewerBelow(log: seq<Sample>, pos: seq<int>, idx: seq<int>, i: int)
    requires |pos| == |idx| == |log|
    requires forall k :: 0 <= k < |log| ==> 0 <= idx[k] <= pos[k] && log[k].number > 0
    ensures PlacedBelow(log, pos, i) <= PlacedBelow(log, idx, i)
    ensures (exists k :: 0 <= k < |log| && idx[k] < i <= pos[k]) ==> PlacedBelow(log, pos, i) < PlacedBelow(log, idx, i)
  {
    if log != [] {
      var m := |log| - 1;
      FewerBelow(log[..m], pos[..m], idx[..m], i);
      if k :| 0 <= k < |log| && idx[k] < i <= pos[k] && k < m {
        assert idx[..m][k] < i <= pos[..m][k];
      }
    }
  }

  // If both ways of counting agree on every bucket, no sample is above its nominal one.
  lemma SameCounts(c: seq<real>, log: seq<Sample>, pos: seq<int>, idx: seq<int>)
    requires |pos| == |idx| == |log|
    requires forall k :: 0 <= k < |log| ==> 0 <= idx[k] <= pos[k] < |c| && log[k].number > 0
    requires forall i :: 0 <= i < |c| ==> c[i] == CountAt(log, pos, i) && c[i] == CountAt(log, idx, i)
    ensures pos == idx
  {
    forall k | 0 <= k < |log|
      ensures pos[k] == idx[k]
    {
      var i := pos[k];
      PrefixCounts(c, log, pos, i);
      PrefixCounts(c, log, idx, i);
      FewerBelow(log, pos, idx, i);
    }
  }

  lemma LocatedExactIff(h: Hist, log: seq<Sample>, os: seq<real>)
    requires Shape(h) && |h.cvec| % 2 == 0 && Located(h, log, os)
    requires forall k :: 0 <= k < |log| ==> log[k].number > 0
    ensures ExactRecount(h, log) <==> NoneAstray(h, log, os)
  {
    var pos, idx := Places(h, log, os), Nominal(h, log);
    forall k | 0 <= k < |log|
      ensures pos[k] == idx[k] + if Astray(h, log[k].val, os[k]) then 1 else 0
      ensures 0 <= idx[k] && pos[k] < |h.cvec|
    {
      assert Seated(h, log[k].val, os[k]);
      AstrayIff(h, log[k].val, os[k]);
      IndexInRange(h, log[k].val);
    }
    forall i | 0 <= i < |h.cvec|
      ensures CountAt(log, idx, i) == Recount(log, Nom(h, i), Nom(h, i) + h.size)
    {
      NominalRecount(h, log, i, Nom(h, i));
    }
    if NoneAstray(h, log, os) {
      assert pos == idx;
    } else if ExactRecount(h, log) {
      SameCounts(h.cvec, log, pos, idx);
    }
  }

  /** Every run of samples with positive weights, every even bucket count: each bucket is an exact
      recount of the log over its nominal range if and only if no sample is astray. */
  lemma RunExactIff(n: nat, log: seq<Sample>)
    requires n >= 2 && n % 2 == 0 && forall k :: 0 <= k < |log| ==> log[k].number > 0
    ensures ExactRecount(Run(n, log), log) <==> NoneAstray(Run(n, log), log, Origins(n, log))
    ensures Run(n, log).min == 0.0 <==> NonNegative(log)
  {
    MinZeroIff(n, log);
    EveryRunLocated(n, log);
    LocatedExactIff(Run(n, log), log, Origins(n, log));
  }
}
