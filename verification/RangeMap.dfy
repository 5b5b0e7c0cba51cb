/** A map from address ranges to values: an ordered map on the start of the range. */
module RangeMaps {

  datatype Option<+T> = None | Some(value: T)

  // Both ends are inclusive.
  datatype Range = Range(start: int, end: int)

  datatype Entry<+V> = Entry(range: Range, value: V)

  // std::map orders its keys, and keys are compared by their start alone.
  ghost predicate Ordered<V>(tree: seq<Entry<V>>) {
    forall i, j :: 0 <= i < j < |tree| ==> tree[i].range.start < tree[j].range.start
  }

  ghost predicate Disjoint<V>(tree: seq<Entry<V>>) {
    && (forall i :: 0 <= i < |tree| ==> tree[i].range.start <= tree[i].range.end)
    && (forall i, j :: 0 <= i < j < |tree| ==> tree[i].range.end < tree[j].range.start)
  }

  predicate Overlap(a: Range, b: Range) {
    a.start <= b.end && a.end >= b.start
  }

  // The index of the first entry that starts after r.
  function UpperBound<V>(tree: seq<Entry<V>>, r: Range): (i: nat)
    ensures i <= |tree|
    ensures forall k :: 0 <= k < i ==> tree[k].range.start <= r.start
    ensures i < |tree| ==> tree[i].range.start > r.start
  {
    if tree == [] || tree[0].range.start > r.start then 0
    else
      var j := UpperBound(tree[1..], r);
      assert forall k :: 0 < k <= j ==> tree[k] == tree[1..][k - 1];
      1 + j
  }

  // find(): the upper bound, or else the one before it; nothing in an empty map.
  function Find<V>(tree: seq<Entry<V>>, r: Range): Option<nat> {
    var i := UpperBound(tree, r);
    var at := if i == 0 then 0 else i - 1;
    if at < |tree| && Overlap(tree[at].range, r) then Some(at) else None
  }

  // A linear scan for the entry that contains an address.
  function Scan<V>(tree: seq<Entry<V>>, addr: int): Option<nat> {
    if tree == [] then None
    else if tree[0].range.start <= addr <= tree[0].range.end then Some(0)
    else
      match Scan(tree[1..], addr)
      case None => None
      case Some(i) => Some(i + 1)
  }

  lemma {:induction false} ScanFinds<V>(tree: seq<Entry<V>>, addr: int)
    requires Disjoint(tree)
    ensures Scan(tree, addr) == None ==>
      forall i :: 0 <= i < |tree| ==> !(tree[i].range.start <= addr <= tree[i].range.end)
    ensures forall i: nat :: i < |tree| && tree[i].range.start <= addr <= tree[i].range.end ==>
      Scan(tree, addr) == Some(i)
    ensures Scan(tree, addr).Some? ==> Scan(tree, addr).value < |tree|
  {
    if tree != [] {
      ScanFinds(tree[1..], addr);
      forall i: nat | i < |tree| && tree[i].range.start <= addr <= tree[i].range.end
        ensures Scan(tree, addr) == Some(i)
      {
        if i > 0 {
          assert tree[1..][i - 1] == tree[i];
        }
      }
      assert forall i :: 0 < i < |tree| ==> tree[1..][i - 1] == tree[i];
    }
  }

  // Entries that are not next to the upper bound lie clear of r's start.
  lemma Neighbours<V>(tree: seq<Entry<V>>, r: Range, k: nat)
    requires Disjoint(tree) && k < |tree|
    ensures var i := UpperBound(tree, r);
      && (k + 1 < i ==> tree[k].range.end < r.start)
      && (k > i ==> tree[i].range.end < tree[k].range.start)
      && (k >= i ==> tree[k].range.start > r.start)
  {
    var i := UpperBound(tree, r);
    assert k + 1 < i ==> tree[k].range.end < tree[i - 1].range.start;
    assert k > i ==> tree[i].range.end < tree[k].range.start;
  }

  /** Looking up a single address agrees with a linear scan. */
  lemma FindAddress<V>(tree: seq<Entry<V>>, addr: int)
    requires Disjoint(tree)
    ensures Find(tree, Range(addr, addr)) == Scan(tree, addr)
  {
    ScanFinds(tree, addr);
    var i := UpperBound(tree, Range(addr, addr));
    forall k: nat | k < |tree| && tree[k].range.start <= addr <= tree[k].range.end
      ensures k == i - 1
    {
      Neighbours(tree, Range(addr, addr), k);
    }
  }

  // The one case a range query overlooks: the range reaches into the next entry but misses
  // the one before.
  predicate Overlooked<V>(tree: seq<Entry<V>>, r: Range) {
    var i := UpperBound(tree, r);
    0 < i < |tree| && tree[i - 1].range.end < r.start && tree[i].range.start <= r.end
  }

  // Some entry overlaps r.
  predicate Occupied<V>(tree: seq<Entry<V>>, r: Range) {
    exists k :: 0 <= k < |tree| && Overlap(tree[k].range, r)
  }

  /** A range query only returns an overlapping entry, and finds one whenever there is one,
      except exactly in the overlooked case. */
  lemma FindRange<V>(tree: seq<Entry<V>>, r: Range)
    requires Disjoint(tree) && r.start <= r.end
    ensures Find(tree, r).Some? ==>
      Find(tree, r).value < |tree| && Overlap(tree[Find(tree, r).value].range, r)
    ensures Find(tree, r) == None && Occupied(tree, r) <==> Overlooked(tree, r)
  {
    var i := UpperBound(tree, r);
    if k :| 0 <= k < |tree| && Overlap(tree[k].range, r) {
      Neighbours(tree, r, k);
    }
    if Overlooked(tree, r) {
      assert Overlap(tree[i].range, r);
    }
  }

  // insert(): nothing happens if find() reports an overlap, or if the start is already a key.
  function Inserted<V>(tree: seq<Entry<V>>, r: Range, v: V): seq<Entry<V>> {
    var i := UpperBound(tree, r);
    if Find(tree, r).Some? || (i > 0 && tree[i - 1].range.start == r.start) then tree
    else tree[..i] + [Entry(r, v)] + tree[i..]
  }

  /** Inserting a range keeps the ranges disjoint if and only if it is not the overlooked case. */
  lemma InsertKeepsDisjoint<V>(tree: seq<Entry<V>>, r: Range, v: V)
    requires Disjoint(tree) && r.start <= r.end
    ensures Disjoint(Inserted(tree, r, v)) <==> !Overlooked(tree, r)
  {
    var i := UpperBound(tree, r);
    if Find(tree, r) == None {
      var t := tree[..i] + [Entry(r, v)] + tree[i..];
      assert Inserted(tree, r, v) == t;
      if Overlooked(tree, r) {
        assert t[i].range.end >= t[i + 1].range.start;
      } else {
        SqueezedIn(tree, i, Entry(r, v));
      }
    }
  }

  lemma InsertedIs<V>(tree: seq<Entry<V>>, r: Range, v: V)
    ensures var i := UpperBound(tree, r);
      Find(tree, r).None? && !(i > 0 && tree[i - 1].range.start == r.start) ==>
        Inserted(tree, r, v) == tree[..i] + [Entry(r, v)] + tree[i..] && Inserted(tree, r, v)[i] == Entry(r, v)
    ensures var i := UpperBound(tree, r);
      Find(tree, r).Some? || (i > 0 && tree[i - 1].range.start == r.start) ==> Inserted(tree, r, v) == tree
  {}

  lemma InsertKeepsOrdered<V>(tree: seq<Entry<V>>, r: Range, v: V)
    requires Ordered(tree)
    ensures Ordered(Inserted(tree, r, v))
  {
    var i := UpperBound(tree, r);
    forall k | i <= k < |tree|
      ensures tree[k].range.start > r.start
    {
      assert k > i ==> tree[i].range.start < tree[k].range.start;
    }
    forall k | 0 <= k < i
      ensures tree[k].range.start <= tree[i - 1].range.start
    {
      assert k < i - 1 ==> tree[k].range.start < tree[i - 1].range.start;
    }
  }

  // An entry that lies between its neighbours fits in.
  lemma SqueezedIn<V>(tree: seq<Entry<V>>, i: nat, e: Entry<V>)
    requires Disjoint(tree) && i <= |tree| && e.range.start <= e.range.end
    requires i > 0 ==> tree[i - 1].range.end < e.range.start
    requires i < |tree| ==> e.range.end < tree[i].range.start
    ensures Disjoint(tree[..i] + [e] + tree[i..])
  {
    var t := tree[..i] + [e] + tree[i..];
    forall k | 0 <= k < |tree|
      ensures k < i ==> tree[k].range.end < e.range.start
      ensures k >= i ==> e.range.end < tree[k].range.start
    {
      assert k < i - 1 ==> tree[k].range.end < tree[i - 1].range.start;
      assert k > i ==> tree[i].range.end < tree[k].range.start;
    }
    forall k, l | 0 <= k < l < |t|
      ensures t[k].range.end < t[l].range.start
    {
      assert t[k] == if k < i then tree[k] else if k == i then e else tree[k - 1];
      assert t[l] == if l < i then tree[l] else if l == i then e else tree[l - 1];
    }
  }

  // The value stored for an address.
  ghost function Lookup<V>(tree: seq<Entry<V>>, addr: int): Option<V>
    requires Disjoint(tree)
  {
    ScanFinds(tree, addr);
    match Scan(tree, addr)
    case None => None
    case Some(i) => Some(tree[i].value)
  }

  /** A successful insertion changes the value of exactly the addresses of the new range. */
  lemma InsertLookup<V>(tree: seq<Entry<V>>, r: Range, v: V, addr: int)
    requires Disjoint(tree) && r.start <= r.end
    requires Find(tree, r) == None && !Overlooked(tree, r)
    ensures Disjoint(Inserted(tree, r, v))
    ensures Lookup(Inserted(tree, r, v), addr) ==
            if r.start <= addr <= r.end then Some(v) else Lookup(tree, addr)
  {
    InsertKeepsDisjoint(tree, r, v);
    var i := UpperBound(tree, r);
    InsertedLookup(tree, Entry(r, v), i, tree[..i] + [Entry(r, v)] + tree[i..], addr);
  }

  // An entry among disjoint ones decides the addresses it contains, and no others.
  lemma InsertedLookup<V>(tree: seq<Entry<V>>, e: Entry<V>, i: nat, t: seq<Entry<V>>, addr: int)
    requires Disjoint(tree) && i <= |tree| && t == tree[..i] + [e] + tree[i..] && Disjoint(t)
    ensures Lookup(t, addr) == if e.range.start <= addr <= e.range.end then Some(e.value) else Lookup(tree, addr)
  {
    if e.range.start <= addr <= e.range.end {
      LookupIs(t, addr, i);
    } else if k: nat :| k < |tree| && tree[k].range.start <= addr <= tree[k].range.end {
      LookupIs(tree, addr, k);
      LookupIs(t, addr, if k < i then k else k + 1);
    } else {
      InsertedMisses(tree, e, i, t, addr);
      LookupNone(tree, addr);
      LookupNone(t, addr);
    }
  }

  lemma InsertedMisses<V>(tree: seq<Entry<V>>, e: Entry<V>, i: nat, t: seq<Entry<V>>, addr: int)
    requires i <= |tree| && t == tree[..i] + [e] + tree[i..] && !(e.range.start <= addr <= e.range.end)
    requires forall k: nat :: k < |tree| ==> !(tree[k].range.start <= addr <= tree[k].range.end)
    ensures forall k: nat :: k < |t| ==> !(t[k].range.start <= addr <= t[k].range.end)
  {
    forall k: nat | k < |t|
      ensures !(t[k].range.start <= addr <= t[k].range.end)
    {
      assert t[k] == if k < i then tree[k] else if k == i then e else tree[k - 1];
    }
  }

  lemma LookupIs<V>(tree: seq<Entry<V>>, addr: int, k: nat)
    requires Disjoint(tree) && k < |tree| && tree[k].range.start <= addr <= tree[k].range.end
    ensures Lookup(tree, addr) == Some(tree[k].value)
  {
    ScanFinds(tree, addr);
  }

  lemma LookupNone<V>(tree: seq<Entry<V>>, addr: int)
    requires Disjoint(tree)
    requires forall k: nat :: k < |tree| ==> !(tree[k].range.start <= addr <= tree[k].range.end)
    ensures Lookup(tree, addr) == None
  {
    ScanHits(tree, addr);
  }

  lemma {:induction false} ScanHits<V>(tree: seq<Entry<V>>, addr: int)
    ensures Scan(tree, addr).Some? ==>
      var i := Scan(tree, addr).value; i < |tree| && tree[i].range.start <= addr <= tree[i].range.end
  {
    if tree != [] {
      ScanHits(tree[1..], addr);
    }
  }

  /** The overlooked case in a map that was built by insertion: ranges at 0 and at 5, and one that
      reaches from the gap into the second.  It is not found, and inserting it overlaps. */
  lemma GapOverlooked()
    ensures var tree := Inserted(Inserted([], Range(0, 1), 'a'), Range(5, 6), 'b');
      && Disjoint(tree) && |tree| == 2 && Overlap(tree[1].range, Range(3, 5))
      && Find(tree, Range(3, 5)) == None && !Disjoint(Inserted(tree, Range(3, 5), 'c'))
  {
    var one := [Entry(Range(0, 1), 'a')];
    var two := one + [Entry(Range(5, 6), 'b')];
    assert Inserted([], Range(0, 1), 'a') == one;
    assert UpperBound(one, Range(5, 6)) == 1;
    assert Inserted(one, Range(5, 6), 'b') == two;
    assert UpperBound(two, Range(3, 5)) == 1;
    InsertKeepsDisjoint(two, Range(3, 5), 'c');
  }

  class RangeMap<V> {
    var tree: seq<Entry<V>>

    constructor ()
      ensures tree == []
    {
      tree := [];
    }

    /** Yes only if some entry overlaps; and if entries are disjoint, always then but in the
        overlooked case. */
    method Intersect(r: Range) returns (yes: bool)
      ensures yes == Find(tree, r).Some?
      ensures yes ==> Occupied(tree, r)
      ensures Disjoint(tree) && r.start <= r.end ==> (yes <==> Occupied(tree, r) && !Overlooked(tree, r))
    {
      var i := Find(tree, r);
      yes := i.Some?;
      if Disjoint(tree) && r.start <= r.end {
        FindRange(tree, r);
      }
    }

    /** The index of the new entry, or of one with the same start, or none if the range was refused. */
    method Insert(r: Range, v: V) returns (at: Option<nat>)
      requires Ordered(tree)
      modifies this
      ensures Ordered(tree) && tree == Inserted(old(tree), r, v)
      ensures at.None? <==> Find(old(tree), r).Some?
      ensures at.Some? ==> at.value < |tree| && tree[at.value].range.start == r.start
    {
      InsertKeepsOrdered(tree, r, v);
      InsertedIs(tree, r, v);
      var refused := Intersect(r);
      if refused {
        return None;
      }
      var i := UpperBound(tree, r);
      if i > 0 && tree[i - 1].range.start == r.start {
        return Some(i - 1);
      }
      tree := tree[..i] + [Entry(r, v)] + tree[i..];
      at := Some(i);
    }
  }
}
