/**
 Where every sample is counted after any run, for an odd number of buckets, and which samples are
 lost.  Buckets are counted from 0, but for the samples that were there when the histogram made room
 for negative values: those are counted from one bucket of that time below 0.  A sample is lost at the
 first fold that drops bucket 0, if that is where it is counted.
 */
module HistogramOdd {
  import opened HistogramPlaces
  import opened HistogramSpec
  import opened HistogramTheorems

  datatype Seat = Seat(origin: real, lost: bool)

  function PlaceOf(h: Hist, v: real, t: Seat): int
    requires h.size > 0.0
  {
    if t.lost then -1 else Place(h, v, t.origin)
  }

  function PlacesOf(h: Hist, log: seq<Sample>, ts: seq<Seat>): (pos: seq<int>)
    requires h.size > 0.0 && |ts| == |log|
    ensures |pos| == |log|
  {
    seq(|log|, k requires 0 <= k < |log| => PlaceOf(h, log[k].val, ts[k]))
  }

  // The sample is in a bucket or lost; and nothing happens before there are negative values.
  ghost predicate Sits(h: Hist, v: real, t: Seat) {
    && h.size > 0.0 && t.origin <= 0.0 && h.min <= v < h.max + h.size
    && (t.lost || 0 <= Place(h, v, t.origin) < |h.cvec|)
    && (h.min == 0.0 ==> t == Seat(0.0, false))
  }

  /** Every counter is the number of samples that are not lost and whose place it is. */
  ghost predicate SatDown(h: Hist, log: seq<Sample>, ts: seq<Seat>) {
    && h.size > 0.0 && |ts| == |log|
    && (forall k :: 0 <= k < |log| ==> Sits(h, log[k].val, ts[k]))
    && (forall i :: 0 <= i < |h.cvec| ==> h.cvec[i] == CountAt(log, PlacesOf(h, log, ts), i))
  }

  // ---------------------------------------------------------------- what growing does to a seat

  // Room is made for negative values.
  function ConvertSeat(h: Hist, v: real, t: Seat): Seat
    requires h.size > 0.0
  {
    Seat(-h.size, t.lost || Place(h, v, t.origin) == 0)
  }

  // A centred histogram h grows to g, with or without folding.
  function OutSeat(h: Hist, g: Hist, v: real, t: Seat): Seat
    requires h.size > 0.0
  {
    t.(lost := t.lost || (OutDrops(|h.cvec|) && g.size > h.size && Place(h, v, t.origin) == 0))
  }

  function ConvertSeats(h: Hist, log: seq<Sample>, ts: seq<Seat>): (r: seq<Seat>)
    requires h.size > 0.0 && |ts| == |log|
    ensures |r| == |log|
  {
    seq(|log|, k requires 0 <= k < |log| => ConvertSeat(h, log[k].val, ts[k]))
  }

  function OutSeats(h: Hist, g: Hist, log: seq<Sample>, ts: seq<Seat>): (r: seq<Seat>)
    requires h.size > 0.0 && |ts| == |log|
    ensures |r| == |log|
  {
    seq(|log|, k requires 0 <= k < |log| => OutSeat(h, g, log[k].val, ts[k]))
  }

  function FittedSeats(h: Hist, log: seq<Sample>, ts: seq<Seat>, v: real): (r: seq<Seat>)
    requires Shape(h) && |ts| == |log|
    ensures |r| == |log|
  {
    if h.min != 0.0 then OutSeats(h, Fitted(h, v), log, ts)
    else if v < 0.0 then ConvertSeats(h, log, ts)
    else ts
  }

  // The seats after a run: a new sample is counted from 0.
  function Seats(n: nat, log: seq<Sample>): (ts: seq<Seat>)
    requires n >= 2
    ensures |ts| == |log|
    decreases |log|
  {
    if log == [] then []
    else
      var m := |log| - 1;
      FittedSeats(Run(n, log[..m]), log[..m], Seats(n, log[..m]), log[m].val) + [Seat(0.0, false)]
  }

  // ---------------------------------------------------------------- one fold

  function FoldPlace(p: int, off: int, drops: bool): int {
    if p < 0 || (drops && p == 0) then -1 else MovedTo(p, off)
  }

  // A fold that moves every place with it.
  lemma FoldSits(h: Hist, g: Hist, off: int, drops: bool, log: seq<Sample>, ts: seq<Seat>, us: seq<Seat>)
    requires SatDown(h, log, ts) && 0 <= off <= |h.cvec| && |us| == |log| && g.size > 0.0
    requires g.cvec == Fold(if drops then Drop0(h.cvec) else h.cvec, off)
    requires forall k :: 0 <= k < |log| ==> Sits(g, log[k].val, us[k])
    requires forall k :: 0 <= k < |log| ==>
      PlaceOf(g, log[k].val, us[k]) == FoldPlace(PlaceOf(h, log[k].val, ts[k]), off, drops)
    ensures SatDown(g, log, us)
  {
    var pos := PlacesOf(h, log, ts);
    forall k | 0 <= k < |pos|
      ensures -1 <= pos[k] < |h.cvec|
    {
      assert Sits(h, log[k].val, ts[k]);
    }
    FoldCounts(h.cvec, log, pos, off, drops);
    assert Moved(pos, off, drops) == PlacesOf(g, log, us);
  }

  lemma UpSits(h: Hist, log: seq<Sample>, ts: seq<Seat>)
    requires Shape(h) && h.min == 0.0 && SatDown(h, log, ts)
    ensures SatDown(GrownUp(h), log, ts)
  {
    ShapeGrownUp(h);
    forall k | 0 <= k < |log|
      ensures Sits(GrownUp(h), log[k].val, ts[k])
      ensures PlaceOf(GrownUp(h), log[k].val, ts[k]) == FoldPlace(PlaceOf(h, log[k].val, ts[k]), 0, false)
    {
      assert Sits(h, log[k].val, ts[k]);
      FloorTwice(log[k].val - 0.0, h.size);
    }
    FoldSits(h, GrownUp(h), 0, false, log, ts, ts);
  }

  // One bucket further.
  lemma FloorNext(x: real, s: real)
    requires s > 0.0
    ensures ((x + s) / s).Floor == (x / s).Floor + 1
  {
    QuotientIs(s, 1.0, s);
    Quotients(x, -s, s);
    QuotientIs(-s, -1.0, s);
  }

  lemma ConvertPlace(h: Hist, v: real, t: Seat)
    requires Shape(h) && h.min == 0.0 && |h.cvec| % 2 == 1 && Sits(h, v, t)
    ensures var u, g := ConvertSeat(h, v, t), GrownConvert(h);
      Sits(g, v, u) && PlaceOf(g, v, u) == FoldPlace(PlaceOf(h, v, t), |h.cvec|, true) && (u.lost || PlaceOf(g, v, u) > 0)
  {
    ShapeGrownConvert(h);
    FloorNext(v, h.size);
    FloorTwice(v + h.size, h.size);
    assert v - -h.size == v + h.size;
  }

  lemma ConvertSits(h: Hist, log: seq<Sample>, ts: seq<Seat>, us: seq<Seat>)
    requires Shape(h) && h.min == 0.0 && |h.cvec| % 2 == 1 && SatDown(h, log, ts) && us == ConvertSeats(h, log, ts)
    ensures SatDown(GrownConvert(h), log, us)
    ensures forall k :: 0 <= k < |log| ==> us[k].lost || PlaceOf(GrownConvert(h), log[k].val, us[k]) > 0
  {
    forall k | 0 <= k < |log|
      ensures Sits(GrownConvert(h), log[k].val, us[k])
      ensures PlaceOf(GrownConvert(h), log[k].val, us[k]) == FoldPlace(PlaceOf(h, log[k].val, ts[k]), |h.cvec|, true)
      ensures us[k].lost || PlaceOf(GrownConvert(h), log[k].val, us[k]) > 0
    {
      assert Sits(h, log[k].val, ts[k]);
      ConvertPlace(h, log[k].val, ts[k]);
    }
    FoldSits(h, GrownConvert(h), |h.cvec|, true, log, ts, us);
  }

  // Whoever is not lost will not be in bucket 0 any more.
  lemma OutPlace(h: Hist, v: real, t: Seat)
    requires Shape(h) && h.min < 0.0 && |h.cvec| % 2 == 1 && Sits(h, v, t)
    ensures var n, g := |h.cvec|, GrownOut(h);
      var u := OutSeat(h, g, v, t);
      && Sits(g, v, u) && PlaceOf(g, v, u) == FoldPlace(PlaceOf(h, v, t), n / 2, OutDrops(n))
      && (OutDrops(n) ==> u.lost || PlaceOf(g, v, u) > 0)
  {
    ShapeGrownOut(h);
    FloorTwice(v - t.origin, h.size);
  }

  lemma OutSits(h: Hist, log: seq<Sample>, ts: seq<Seat>, g: Hist, us: seq<Seat>)
    requires Shape(h) && h.min < 0.0 && |h.cvec| % 2 == 1 && SatDown(h, log, ts)
    requires g == GrownOut(h) && us == OutSeats(h, g, log, ts)
    ensures SatDown(g, log, us)
    ensures OutDrops(|h.cvec|) ==> forall k :: 0 <= k < |log| ==> us[k].lost || PlaceOf(g, log[k].val, us[k]) > 0
  {
    var n := |h.cvec|;
    forall k | 0 <= k < |log|
      ensures Sits(g, log[k].val, us[k])
      ensures PlaceOf(g, log[k].val, us[k]) == FoldPlace(PlaceOf(h, log[k].val, ts[k]), n / 2, OutDrops(n))
      ensures OutDrops(n) ==> us[k].lost || PlaceOf(g, log[k].val, us[k]) > 0
    {
      assert Sits(h, log[k].val, ts[k]);
      OutPlace(h, log[k].val, ts[k]);
    }
    FoldSits(h, g, n / 2, OutDrops(n), log, ts, us);
  }

  // ---------------------------------------------------------------- growing until a value fits

  lemma {:induction false} UpToSits(h: Hist, log: seq<Sample>, ts: seq<Seat>, v: real)
    requires Shape(h) && h.min == 0.0 && v >= 0.0 && SatDown(h, log, ts)
    ensures SatDown(UpTo(h, v), log, ts)
    decreases if v >= h.max + h.size then (v - h.max - h.size).Floor + 1 else 0
  {
    if v >= h.max + h.size {
      ShapeGrownUp(h);
      UpSits(h, log, ts);
      UpToSits(GrownUp(h), log, ts, v);
    }
  }

  lemma {:induction false} OutToSize(h: Hist, v: real)
    requires Shape(h) && h.min < 0.0
    ensures OutTo(h, v).size >= h.size
    decreases if v < h.min then (h.min - v).Floor + 1
              else if v >= h.max + h.size then (v - h.max - h.size).Floor + 1 else 0
  {
    ShapeGrownOut(h);
    if v < h.min || v >= h.max + h.size {
      OutToSize(GrownOut(h), v);
    }
  }

  // Nobody is in bucket 0: further folds lose nobody.
  lemma NobodyLost(h: Hist, g: Hist, log: seq<Sample>, ts: seq<Seat>)
    requires h.size > 0.0 && |ts| == |log|
    requires OutDrops(|h.cvec|) ==> forall k :: 0 <= k < |log| ==> ts[k].lost || PlaceOf(h, log[k].val, ts[k]) > 0
    ensures OutSeats(h, g, log, ts) == ts
  {}

  // Folds after the first one change nothing more.
  lemma FirstFoldOnly(h: Hist, mid: Hist, g: Hist, log: seq<Sample>, ts: seq<Seat>)
    requires h.size > 0.0 && |ts| == |log| && mid.size > h.size && g.size > h.size
    ensures OutSeats(h, g, log, ts) == OutSeats(h, mid, log, ts)
  {}

  lemma {:induction false} OutToSits(h: Hist, log: seq<Sample>, ts: seq<Seat>, v: real, g: Hist)
    requires Shape(h) && h.min < 0.0 && |h.cvec| % 2 == 1 && SatDown(h, log, ts) && g == OutTo(h, v)
    ensures SatDown(g, log, OutSeats(h, g, log, ts))
    decreases if v < h.min then (h.min - v).Floor + 1
              else if v >= h.max + h.size then (v - h.max - h.size).Floor + 1 else 0
  {
    ShapeGrownOut(h);
    if v < h.min || v >= h.max + h.size {
      var mid := GrownOut(h);
      var us := OutSeats(h, mid, log, ts);
      OutSits(h, log, ts, mid, us);
      OutToSits(mid, log, us, v, g);
      OutToSize(mid, v);
      NobodyLost(mid, g, log, us);
      FirstFoldOnly(h, mid, g, log, ts);
    } else {
      assert OutSeats(h, h, log, ts) == ts;
    }
  }

  lemma FittedSits(h: Hist, log: seq<Sample>, ts: seq<Seat>, v: real)
    requires Shape(h) && |h.cvec| % 2 == 1 && SatDown(h, log, ts)
    ensures SatDown(Fitted(h, v), log, FittedSeats(h, log, ts, v))
  {
    if h.min != 0.0 {
      SpanAtLeast(|h.cvec| - 1, h.size);
      OutToSits(h, log, ts, v, Fitted(h, v));
    } else if v < 0.0 {
      var g, us := GrownConvert(h), ConvertSeats(h, log, ts);
      ShapeGrownConvert(h);
      ConvertSits(h, log, ts, us);
      OutToSits(g, log, us, v, Fitted(h, v));
      NobodyLost(g, Fitted(h, v), log, us);
    } else {
      UpToSits(h, log, ts, v);
    }
  }

  // ---------------------------------------------------------------- a new sample

  // The lower end of a centred histogram with 2m + 1 buckets, in buckets.
  lemma CentredOdd(n: nat, m: int, min: real, size: real)
    requires n == 2 * m + 1 && 2.0 * min == -((n - 1) as real * size) && size > 0.0
    ensures min / size == -(m as real)
  {
    assert (n - 1) as real == 2.0 * m as real;
    assert (n - 1) as real * size == 2.0 * (m as real * size);
    QuotientIs(min, -(m as real), size);
  }

  // Counted from 0, a sample's place is its nominal bucket.
  lemma PlaceFromZero(g: Hist, v: real)
    requires Shape(g) && |g.cvec| % 2 == 1
    ensures Place(g, v, 0.0) == IndexOf(g, v)
  {
    assert v - 0.0 == v;
    if g.min != 0.0 {
      CentredOdd(|g.cvec|, |g.cvec| / 2, g.min, g.size);
      Quotients(v, g.min, g.size);
    }
  }

  lemma CountedSits(g: Hist, log: seq<Sample>, ts: seq<Seat>, s: Sample)
    requires Shape(g) && |g.cvec| % 2 == 1 && g.min <= s.val < g.max + g.size && SatDown(g, log, ts)
    ensures 0 <= IndexOf(g, s.val) < |g.cvec|
    ensures SatDown(Counted(g, s), log + [s], ts + [Seat(0.0, false)])
  {
    IndexInRange(g, s.val);
    PlaceFromZero(g, s.val);
    var r, log', ts' := Counted(g, s), log + [s], ts + [Seat(0.0, false)];
    forall k | 0 <= k < |log'|
      ensures Sits(r, log'[k].val, ts'[k])
    {
      assert k < |log| ==> Sits(g, log[k].val, ts[k]);
    }
    assert PlacesOf(r, log', ts') == PlacesOf(g, log, ts) + [IndexOf(g, s.val)];
    forall i | 0 <= i < |r.cvec|
      ensures r.cvec[i] == CountAt(log', PlacesOf(r, log', ts'), i)
    {
      CountAppend(log, PlacesOf(g, log, ts), s, IndexOf(g, s.val), i);
    }
  }

  // ---------------------------------------------------------------- whole runs

  /** Every run, every odd bucket count: bucket i holds exactly the samples that are not lost and are
      i buckets of the final size away, counted from their origins. */
  lemma {:induction false} EveryOddRunLocated(n: nat, log: seq<Sample>)
    requires n >= 2 && n % 2 == 1
    ensures SatDown(Run(n, log), log, Seats(n, log))
    decreases |log|
  {
    FreshShape(n);
    if log != [] {
      var m := |log| - 1;
      var h, s, ts := Run(n, log[..m]), log[m], Seats(n, log[..m]);
      EveryOddRunLocated(n, log[..m]);
      FittedSits(h, log[..m], ts, s.val);
      CountedSits(Fitted(h, s.val), log[..m], FittedSeats(h, log[..m], ts, s.val), s);
      assert log[..m] + [s] == log;
    }
  }

  // ---------------------------------------------------------------- what is lost

  function Weight(log: seq<Sample>): real {
    if log == [] then 0.0 else Weight(log[..|log| - 1]) + log[|log| - 1].number as real
  }

  function LostWeight(log: seq<Sample>, ts: seq<Seat>): real
    requires |ts| == |log|
  {
    if log == [] then 0.0
    else
      var m := |log| - 1;
      LostWeight(log[..m], ts[..m]) + if ts[m].lost then log[m].number as real else 0.0
  }

  lemma {:induction false} WeightSplits(log: seq<Sample>, pos: seq<int>, ts: seq<Seat>, n: nat)
    requires |pos| == |ts| == |log|
    requires forall k :: 0 <= k < |log| ==> (if ts[k].lost then pos[k] == -1 else 0 <= pos[k] < n)
    ensures PlacedBelow(log, pos, n) + LostWeight(log, ts) == Weight(log)
  {
    if log != [] {
      var m := |log| - 1;
      WeightSplits(log[..m], pos[..m], ts[..m], n);
    }
  }

  lemma {:induction false} WeightIs(log: seq<Sample>)
    ensures Weight(log) == Moments(log).0
  {
    if log != [] {
      WeightIs(log[..|log| - 1]);
    }
  }

  /** Every run, every odd bucket count: what bucket 0 held at the folds that drop it is what the lost
      samples weigh. */
  lemma LostIs(n: nat, log: seq<Sample>)
    requires n >= 2 && n % 2 == 1
    ensures Lost(n, log) == LostWeight(log, Seats(n, log))
  {
    var h, ts := Run(n, log), Seats(n, log);
    EveryOddRunLocated(n, log);
    var pos := PlacesOf(h, log, ts);
    PrefixCounts(h.cvec, log, pos, n);
    assert h.cvec[..n] == h.cvec;
    forall k | 0 <= k < |log|
      ensures if ts[k].lost then pos[k] == -1 else 0 <= pos[k] < n
    {
      assert Sits(h, log[k].val, ts[k]);
    }
    WeightSplits(log, pos, ts, n);
    WeightIs(log);
    MomentsOfRun(n, log);
    RunTotal(n, log);
  }

  // ---------------------------------------------------------------- which runs are recounted exactly

  predicate Step(a: real, b: real, j: int) {
    a < j as real <= b
  }

  // A bucket begins above a, and not above b, in buckets.
  ghost predicate Crosses(a: real, b: real) {
    exists j: int :: Step(a, b, j)
  }

  lemma StepUp(a: real, b: real, j: int)
    requires Step(a, b, j)
    ensures a.Floor < j <= b.Floor
  {}

  lemma FloorOrder(a: real, b: real)
    requires a <= b
    ensures a.Floor <= b.Floor && (a.Floor < b.Floor ==> Step(a, b, b.Floor))
  {}

  lemma CrossesIff(a: real, b: real)
    requires a <= b
    ensures a.Floor <= b.Floor && (a.Floor < b.Floor <==> Crosses(a, b))
  {
    FloorOrder(a, b);
    if j: int :| Step(a, b, j) {
      StepUp(a, b, j);
    }
  }

  // The sample is counted in its nominal bucket.
  ghost predicate Right(h: Hist, v: real, t: Seat)
    requires h.size > 0.0
  {
    !t.lost && !Crosses(v / h.size, (v - t.origin) / h.size)
  }

  ghost predicate AllRight(h: Hist, log: seq<Sample>, ts: seq<Seat>)
    requires h.size > 0.0 && |ts| == |log|
  {
    forall k :: 0 <= k < |log| ==> Right(h, log[k].val, ts[k])
  }

  /** A sample that is not lost is in its nominal bucket if no bucket begins between it and what is
      counted of it, and above it otherwise. */
  lemma RightIff(h: Hist, v: real, t: Seat)
    requires Shape(h) && |h.cvec| % 2 == 1 && Sits(h, v, t)
    ensures !t.lost ==> IndexOf(h, v) <= PlaceOf(h, v, t)
    ensures Right(h, v, t) <==> IndexOf(h, v) == PlaceOf(h, v, t)
  {
    IndexInRange(h, v);
    PlaceFromZero(h, v);
    assert v - 0.0 == v;
    QuotientOrder(v, v - t.origin, h.size);
    CrossesIff(v / h.size, (v - t.origin) / h.size);
  }

  lemma QuotientOrder(a: real, b: real, s: real)
    requires s > 0.0 && a <= b
    ensures a / s <= b / s
  {
    ScaleLe(b, s, a / s);
    assert a / s * s == a;
  }

  // Whoever is lost is missing.
  lemma {:induction false} FewerPlaced(log: seq<Sample>, pos: seq<int>, idx: seq<int>, n: nat)
    requires |pos| == |idx| == |log|
    requires forall k :: 0 <= k < |log| ==> 0 <= idx[k] < n && pos[k] < n && log[k].number > 0
    ensures PlacedBelow(log, pos, n) <= PlacedBelow(log, idx, n)
    ensures (exists k :: 0 <= k < |log| && pos[k] < 0) ==> PlacedBelow(log, pos, n) < PlacedBelow(log, idx, n)
  {
    if log != [] {
      var m := |log| - 1;
      FewerPlaced(log[..m], pos[..m], idx[..m], n);
      if k :| 0 <= k < |log| && pos[k] < 0 && k < m {
        assert pos[..m][k] < 0;
      }
    }
  }

  lemma SameCountsAll(c: seq<real>, log: seq<Sample>, pos: seq<int>, idx: seq<int>)
    requires |pos| == |idx| == |log|
    requires forall k :: 0 <= k < |log| ==> 0 <= idx[k] < |c| && (pos[k] == -1 || idx[k] <= pos[k] < |c|)
    requires forall k :: 0 <= k < |log| ==> log[k].number > 0
    requires forall i :: 0 <= i < |c| ==> c[i] == CountAt(log, pos, i) && c[i] == CountAt(log, idx, i)
    ensures pos == idx
  {
    PrefixCounts(c, log, pos, |c|);
    PrefixCounts(c, log, idx, |c|);
    FewerPlaced(log, pos, idx, |c|);
    SameCounts(c, log, pos, idx);
  }

  lemma OddExactIff(h: Hist, log: seq<Sample>, ts: seq<Seat>)
    requires Shape(h) && |h.cvec| % 2 == 1 && SatDown(h, log, ts)
    requires forall k :: 0 <= k < |log| ==> log[k].number > 0
    ensures ExactRecount(h, log) <==> AllRight(h, log, ts)
  {
    var pos, idx := PlacesOf(h, log, ts), Nominal(h, log);
    forall k | 0 <= k < |log|
      ensures Right(h, log[k].val, ts[k]) <==> idx[k] == pos[k]
      ensures 0 <= idx[k] < |h.cvec| && (pos[k] == -1 || idx[k] <= pos[k] < |h.cvec|)
    {
      assert Sits(h, log[k].val, ts[k]);
      RightIff(h, log[k].val, ts[k]);
      IndexInRange(h, log[k].val);
    }
    forall i | 0 <= i < |h.cvec|
      ensures CountAt(log, idx, i) == Recount(log, Nom(h, i), Nom(h, i) + h.size)
    {
      NominalRecount(h, log, i, Nom(h, i));
    }
    if AllRight(h, log, ts) {
      assert pos == idx;
    } else if ExactRecount(h, log) {
      SameCountsAll(h.cvec, log, pos, idx);
    }
  }

  /** Every run of samples with positive weights, every odd bucket count: each bucket is an exact recount
      of the log over its nominal range if and only if no sample is lost and no bucket begins between a
      sample and what is counted of it. */
  lemma OddRunExactIff(n: nat, log: seq<Sample>)
    requires n >= 2 && n % 2 == 1 && forall k :: 0 <= k < |log| ==> log[k].number > 0
    ensures ExactRecount(Run(n, log), log) <==> AllRight(Run(n, log), log, Seats(n, log))
  {
    EveryOddRunLocated(n, log);
    OddExactIff(Run(n, log), log, Seats(n, log));
  }
}
