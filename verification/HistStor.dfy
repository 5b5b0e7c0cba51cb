/**
 The histogram storage itself: an array of counters folded in place, and the scalar fields.
 Every method is tied to its value-level counterpart in HistogramSpec.
 */
module HistStorage {
  import opened HistogramSpec

  // Folding everything from the middle of the row, and nothing below it, is the fold that
  // drops bucket 0 when the row length is odd.
  lemma ConvertRow(was: seq<real>, row: seq<real>)
    requires |row| == |was|
    requires forall k :: 0 <= k < |was| ==>
      row[k] == if k < (|was| + 1) / 2 then 0.0 else Fold(was, |was|)[k]
    ensures row == Fold(if ConvertDrops(|was|) then Drop0(was) else was, |was|)
  {
    var n := |was|;
    var kept := if ConvertDrops(n) then Drop0(was) else was;
    forall k | 0 <= k < n
      ensures row[k] == Fold(kept, n)[k]
    {
      if k < (n + 1) / 2 {
        assert At(kept, 2 * k - n) == 0.0 && At(kept, 2 * k - n + 1) == 0.0;
      }
    }
  }

  // Where the pairs merged by grow_out begin and end.
  lemma OutEdges(n: nat, k: nat)
    ensures var zero := n / 2;
      var first := 2 * k - zero;
      && (k < (n - zero) / 2 <==> if n % 4 == 3 then first <= -1 else first <= -2)
      && (k >= zero + (n - zero + 1) / 2 <==> first >= n)
      && (n % 4 == 3 && first >= 0 ==> first >= 1)
  {
    var q, zero := n / 4, n / 2;
    match n % 4
    case 0 => assert n == 4 * q && zero == 2 * q && (n - zero) / 2 == q && (n - zero + 1) / 2 == q;
    case 1 => assert n == 4 * q + 1 && zero == 2 * q && (n - zero) / 2 == q && (n - zero + 1) / 2 == q + 1;
    case 2 => assert n == 4 * q + 2 && zero == 2 * q + 1 && (n - zero) / 2 == q && (n - zero + 1) / 2 == q + 1;
    case _ => assert n == 4 * q + 3 && zero == 2 * q + 1 && (n - zero) / 2 == (n - zero + 1) / 2 == q + 1;
  }

  lemma OutRow(was: seq<real>, row: seq<real>)
    requires |row| == |was|
    requires var zero := |was| / 2;
      forall k :: 0 <= k < |was| ==>
        row[k] == if (|was| - zero) / 2 <= k < zero + (|was| - zero + 1) / 2
                  then Fold(was, zero)[k] else 0.0
    ensures row == Fold(if OutDrops(|was|) then Drop0(was) else was, |was| / 2)
  {
    var n, zero := |was|, |was| / 2;
    var kept := if OutDrops(n) then Drop0(was) else was;
    forall k | 0 <= k < n
      ensures row[k] == Fold(kept, zero)[k]
    {
      OutEdges(n, k);
    }
  }

  class HistStor {
    var minBucket: real
    var maxBucket: real
    var bucketSize: real
    var sum: real
    var squares: real
    var samples: real
    const cvec: array<real>

    ghost function State(): Hist
      reads this, cvec
    {
      Hist(minBucket, maxBucket, bucketSize, cvec[..], sum, squares, samples)
    }

    // The histogram always starts out reset.
    constructor (buckets: nat)
      ensures State() == Fresh(buckets) && fresh(cvec)
    {
      cvec := new real[buckets](_ => 0.0);
      minBucket, maxBucket, bucketSize := 0.0, (buckets - 1) as real, 1.0;
      sum, squares, samples := 0.0, 0.0, 0.0;
      new;
      assert cvec[..] == Fresh(buckets).cvec;
    }

    method Reset()
      modifies this, cvec
      ensures State() == Fresh(cvec.Length)
    {
      minBucket, maxBucket, bucketSize := 0.0, (cvec.Length - 1) as real, 1.0;
      for i := 0 to cvec.Length
        invariant forall k :: 0 <= k < i ==> cvec[k] == 0.0
        invariant minBucket == 0.0 && maxBucket == (cvec.Length - 1) as real && bucketSize == 1.0
      {
        cvec[i] := 0.0;
      }
      sum, squares, samples := 0.0, 0.0, 0.0;
      assert cvec[..] == Fresh(cvec.Length).cvec;
    }

    // Zero cvec[lo..hi], leave the rest alone.
    method Clear(lo: nat, hi: nat)
      requires lo <= hi <= cvec.Length
      modifies cvec
      ensures forall k :: 0 <= k < cvec.Length ==>
        cvec[k] == if lo <= k < hi then 0.0 else old(cvec[k])
    {
      for i := lo to hi
        invariant forall k :: 0 <= k < cvec.Length ==>
          cvec[k] == if lo <= k < i then 0.0 else old(cvec[k])
      {
        cvec[i] := 0.0;
      }
    }

    method GrowUp()
      modifies this, cvec
      ensures State() == GrownUp(old(State()))
    {
      var size := cvec.Length;
      var half := (size + 1) / 2;
      ghost var was := cvec[..];
      MergeUp(half);
      Clear(half, size);
      assert cvec[..] == Fold(was, 0);
      maxBucket := 2.0 * maxBucket;
      bucketSize := 2.0 * bucketSize;
    }

    // The pairs of grow_up, working upwards from the bottom.
    method MergeUp(half: nat)
      requires half == (cvec.Length + 1) / 2
      modifies cvec
      ensures forall k :: 0 <= k < half ==> cvec[k] == Fold(old(cvec[..]), 0)[k]
    {
      var size, pair := cvec.Length, 0;
      ghost var was := cvec[..];
      for i := 0 to half
        invariant pair == 2 * i
        invariant forall k :: 0 <= k < i ==> cvec[k] == Fold(was, 0)[k]
        invariant forall k :: i <= k < size ==> cvec[k] == was[k]
      {
        assert Fold(was, 0)[i] == was[pair] + At(was, pair + 1);
        cvec[i] := cvec[pair];
        if pair + 1 < size {
          cvec[i] := cvec[i] + cvec[pair + 1];
        }
        pair := pair + 2;
      }
      assert pair == size || pair == size + 1;
    }

    method GrowConvert()
      modifies this, cvec
      ensures State() == GrownConvert(old(State()))
    {
      var size := cvec.Length;
      var half := (size + 1) / 2;
      var pair := size - 1;
      ghost var was := cvec[..];
      for i := size downto half
        modifies cvec
        invariant pair == 2 * i - size - 1
        invariant forall k :: i <= k < size ==> cvec[k] == Fold(was, size)[k]
        invariant forall k :: 0 <= k < i ==> cvec[k] == was[k]
      {
        cvec[i] := cvec[pair];
        if pair - 1 >= 0 {
          cvec[i] := cvec[i] + cvec[pair - 1];
        }
        pair := pair - 2;
      }
      Clear(0, half);
      ConvertRow(was, cvec[..]);
      minBucket := -maxBucket;
      bucketSize := 2.0 * bucketSize;
    }

    method GrowOut()
      modifies this, cvec
      ensures State() == GrownOut(old(State()))
    {
      var size := cvec.Length;
      var zero := size / 2;
      var topHalf := zero + (size - zero + 1) / 2;
      var bottomHalf := (size - zero) / 2;
      ghost var was := cvec[..];
      GrowDown(zero, bottomHalf);
      Clear(0, bottomHalf);
      GrowHigh(zero, topHalf, was);
      Clear(topHalf, size);
      OutRow(was, cvec[..]);
      maxBucket := 2.0 * maxBucket;
      minBucket := 2.0 * minBucket;
      bucketSize := 2.0 * bucketSize;
    }

    // The upper half of grow_out, working upwards from the middle.
    method GrowHigh(zero: nat, topHalf: nat, ghost was: seq<real>)
      requires zero == cvec.Length / 2 && topHalf == zero + (cvec.Length - zero + 1) / 2
      requires |was| == cvec.Length && forall k :: zero <= k < cvec.Length ==> cvec[k] == was[k]
      modifies cvec
      ensures forall k :: zero <= k < topHalf ==> cvec[k] == Fold(was, zero)[k]
      ensures forall k :: 0 <= k < zero ==> cvec[k] == old(cvec[k])
    {
      var highPair := zero;
      for i := zero to topHalf
        invariant highPair == 2 * i - zero
        invariant forall k :: zero <= k < i ==> cvec[k] == Fold(was, zero)[k]
        invariant forall k :: i <= k < cvec.Length ==> cvec[k] == was[k]
        invariant forall k :: 0 <= k < zero ==> cvec[k] == old(cvec[k])
      {
        cvec[i] := cvec[highPair];
        if highPair + 1 < cvec.Length {
          cvec[i] := cvec[i] + cvec[highPair + 1];
        }
        highPair := highPair + 2;
      }
      assert highPair == cvec.Length || highPair == cvec.Length + 1;
    }

    // The lower half of grow_out, working downwards from the middle.
    method GrowDown(zero: nat, bottomHalf: nat)
      requires zero == cvec.Length / 2 && bottomHalf == (cvec.Length - zero) / 2
      modifies cvec
      ensures forall k :: bottomHalf <= k < zero ==> cvec[k] == Fold(old(cvec[..]), zero)[k]
      ensures forall k :: zero <= k < cvec.Length ==> cvec[k] == old(cvec[k])
    {
      ghost var was := cvec[..];
      var lowPair := zero - 1;
      var i := zero - 1;
      while i >= bottomHalf
        invariant bottomHalf - 1 <= i < zero
        invariant lowPair == 2 * i - zero + 1
        invariant forall k :: i < k < zero ==> cvec[k] == Fold(was, zero)[k]
        invariant forall k :: 0 <= k < cvec.Length && (k <= i || k >= zero) ==> cvec[k] == was[k]
      {
        cvec[i] := cvec[lowPair];
        if lowPair - 1 >= 0 {
          cvec[i] := cvec[i] + cvec[lowPair - 1];
        }
        lowPair := lowPair - 2;
        i := i - 1;
      }
      assert lowPair == 0 || lowPair == -1 || lowPair == -2;
    }

    /** sample(): grow until the value fits, then count it.  The index is always in range. */
    method AddSample(val: real, number: int)
      requires Shape(State())
      modifies this, cvec
      ensures State() == Sampled(old(State()), Sample(val, number))
    {
      assert minBucket < maxBucket by { SpanAtLeast(cvec.Length - 1, bucketSize); }
      GrowToFit(val);
      IndexInRange(State(), val);
      var index := ((val - minBucket) / bucketSize).Floor;
      Count(index, val, number);
    }

    method GrowToFit(val: real)
      requires Shape(State())
      modifies this, cvec
      ensures State() == Fitted(old(State()), val)
    {
      if val < minBucket {
        if minBucket == 0.0 {
          ShapeGrownConvert(State());
          GrowConvert();
        }
        FitBelow(val);
      } else if val >= maxBucket + bucketSize {
        if minBucket == 0.0 {
          FitAboveZero(val);
        } else {
          FitAbove(val);
        }
      }
    }

    method FitBelow(val: real)
      requires Shape(State()) && minBucket < 0.0 && val < maxBucket + bucketSize
      modifies this, cvec
      ensures State() == OutTo(old(State()), val)
    {
      while val < minBucket
        invariant Shape(State()) && minBucket < 0.0 && val < maxBucket + bucketSize
        invariant OutTo(State(), val) == OutTo(old(State()), val)
        decreases (minBucket - val).Floor
      {
        ShapeGrownOut(State());
        GrowOut();
      }
    }

    method FitAboveZero(val: real)
      requires Shape(State()) && minBucket == 0.0 && val >= 0.0
      modifies this, cvec
      ensures State() == UpTo(old(State()), val)
    {
      while val >= maxBucket + bucketSize
        invariant Shape(State()) && minBucket == 0.0 && val >= 0.0
        invariant UpTo(State(), val) == UpTo(old(State()), val)
        decreases (val - maxBucket - bucketSize).Floor
      {
        ShapeGrownUp(State());
        GrowUp();
      }
    }

    method FitAbove(val: real)
      requires Shape(State()) && minBucket < 0.0 && val >= minBucket
      modifies this, cvec
      ensures State() == OutTo(old(State()), val)
    {
      while val >= maxBucket + bucketSize
        invariant Shape(State()) && minBucket < 0.0 && val >= minBucket
        invariant OutTo(State(), val) == OutTo(old(State()), val)
        decreases (val - maxBucket - bucketSize).Floor
      {
        ShapeGrownOut(State());
        GrowOut();
      }
    }

    method Count(index: int, val: real, number: int)
      requires Shape(State()) && index == IndexOf(State(), val) && 0 <= index < cvec.Length
      modifies this, cvec
      ensures State() == Counted(old(State()), Sample(val, number))
    {
      var c := number as real;
      cvec[index] := cvec[index] + c;
      sum := sum + val * c;
      squares := squares + val * val * c;
      samples := samples + c;
    }

    /** A histogram fed a whole log from its creation holds Run(log). */
    static method Record(buckets: nat, log: seq<Sample>) returns (h: HistStor)
      requires buckets >= 2
      ensures fresh(h) && h.State() == Run(buckets, log)
    {
      h := new HistStor(buckets);
      FreshShape(buckets);
      assert log[..0] == [];
      for i := 0 to |log|
        invariant fresh(h) && fresh(h.cvec) && h.State() == Run(buckets, log[..i])
      {
        assert log[..i + 1][..i] == log[..i];
        h.AddSample(log[i].val, log[i].number);
      }
      assert log[..|log|] == log;
    }
  }
}
