/**
 The indices of the circular buffer: where the unread characters begin and end, and how many there
 are.  Reads and writes keep them in step with each other only under conditions.
 */
module CircleRing {

  datatype Option<+T> = None | Some(value: T)

  datatype Ring = Ring(start: int, stop: int, size: int)

  function Least(a: int, b: int): int {
    if a < b then a else b
  }

  // The size characters from start on, round the end of the buffer of n, end at stop.
  predicate InStep(r: Ring, n: nat) {
    && 0 <= r.start <= n && 0 <= r.stop <= n && 0 <= r.size <= n
    && (r.stop == r.start + r.size || r.stop == r.start + r.size - n)
  }

  // What holds in every run: the write position is in the buffer of n, and the read position at
  // most one place behind it.
  predicate InBounds(r: Ring, n: nat) {
    0 <= r.start <= n + 1 && 0 <= r.stop <= n
  }

  // Writing len > 0 characters.
  function Wrote(r: Ring, len: int, n: nat): Ring {
    var size := Least(r.size + len, n);
    if len >= n then Ring(0, n, size)
    else
      var stop := if r.stop + len <= n then r.stop + len else r.stop + len - n;
      var behind := (r.start > r.stop && r.start < stop) || (r.start < r.stop && stop < r.stop);
      Ring(if behind then stop + 1 else r.start, stop, size)
  }

  // Reading len characters.
  function Took(r: Ring, len: int, n: nat): Ring {
    var size := if r.size - len < 0 then 0 else r.size - len;
    if r.stop > r.start then Ring(r.start + Least(len, r.stop - r.start), r.stop, size)
    else if n - r.start > len then Ring(r.start + len, r.stop, size)
    else Ring(Least(len - (n - r.start), r.stop), r.stop, size)
  }

  // What a write may do: fit behind the unread characters without going round the end of the
  // buffer while the unread ones do not, unless it leaves exactly one place free.
  predicate Fits(r: Ring, len: int, n: nat) {
    r.size + len <= n && (r.stop + len <= n || r.start >= r.stop || r.size + len == n - 1)
  }

  /** A write keeps the indices in step if and only if it fits, or replaces the whole buffer. */
  lemma WroteInStepIff(r: Ring, len: int, n: nat)
    requires InStep(r, n) && 0 < len && n > 0
    ensures InStep(Wrote(r, len, n), n) <==> len >= n || Fits(r, len, n)
    ensures Fits(r, len, n) ==> Wrote(r, len, n).size == r.size + len
  {}

  /** A read keeps them in step if and only if something is unread, or start is at the end and stop at
      the beginning, or it goes all the way round. */
  lemma TookInStepIff(r: Ring, len: int, n: nat)
    requires InStep(r, n) && 0 < len
    ensures InStep(Took(r, len, n), n) <==> 0 < r.size || r.start - r.stop == n || len >= n
    ensures Took(r, len, n).size == r.size - Least(len, r.size)
  {}

  // ---------------------------------------------------------------- what is there

  // The last n elements, or all of them if there are fewer.
  function Last<T>(s: seq<T>, n: nat): seq<T> {
    if |s| <= n then s else s[|s| - n..]
  }

  // A row of characters, with the next write due at stop, holds the end of what was written.
  ghost predicate Shows(row: seq<char>, stop: int, rollover: bool, written: seq<char>) {
    && 0 <= stop <= |row| && stop <= |written|
    && (if rollover then |written| >= |row| else |written| == stop)
    && (forall k :: 0 <= k < stop ==> row[k] == written[|written| - stop + k])
    && (rollover ==> forall k :: stop <= k < |row| ==> row[k] == written[|written| - stop - |row| + k])
  }

  function Overlaid(row: seq<char>, at: nat, text: seq<char>): (r: seq<char>)
    requires at + |text| <= |row|
    ensures |r| == |row|
  {
    row[..at] + text + row[at + |text|..]
  }

  lemma ShowsStraight(row: seq<char>, stop: int, rollover: bool, written: seq<char>, text: seq<char>)
    requires Shows(row, stop, rollover, written) && stop + |text| <= |row|
    ensures Shows(Overlaid(row, stop, text), stop + |text|, rollover, written + text)
  {}

  lemma ShowsWrapped(row: seq<char>, stop: int, rollover: bool, written: seq<char>, text: seq<char>)
    requires Shows(row, stop, rollover, written) && stop + |text| > |row| > |text|
    ensures var n := |row| - stop;
      Shows(Overlaid(Overlaid(row, stop, text[..n]), 0, text[n..]), |text| - n, true, written + text)
  {
    var n := |row| - stop;
    var r := Overlaid(Overlaid(row, stop, text[..n]), 0, text[n..]);
    var all, stop' := written + text, |text| - n;
    forall k | stop' <= k < |row|
      ensures r[k] == all[|all| - stop' - |row| + k]
    {
      if k >= stop {
        assert r[k] == text[k - stop];
      } else {
        assert r[k] == row[k];
      }
    }
  }

  lemma ShowsReplaced(row: seq<char>, written: seq<char>, text: seq<char>)
    requires |text| >= |row|
    ensures Shows(text[|text| - |row|..], |row|, true, written + text)
  {}

  // ---------------------------------------------------------------- what is read

  // n characters from start on, round the end of the row.
  function Round(row: seq<char>, start: int, n: int): seq<char>
    requires 0 <= start <= |row| && 0 <= n <= |row|
  {
    if start + n <= |row| then row[start..start + n] else row[start..] + row[..start + n - |row|]
  }

  // Copying n characters from place a on; none if that is not all inside the row.
  function Copied(row: seq<char>, a: int, n: int): Option<seq<char>> {
    if 0 <= a && 0 <= n && a + n <= |row| then Some(row[a..a + n]) else None
  }

  function Both(a: Option<seq<char>>, b: Option<seq<char>>): Option<seq<char>> {
    if a.Some? && b.Some? then Some(a.value + b.value) else None
  }

  // What a read of len characters delivers, if its copies stay inside.
  function Delivered(row: seq<char>, r: Ring, len: int): Option<seq<char>> {
    if r.stop > r.start then Copied(row, r.start, Least(len, r.stop - r.start))
    else if |row| - r.start > len then Copied(row, r.start, len)
    else Both(Copied(row, r.start, |row| - r.start), Copied(row, 0, Least(len - (|row| - r.start), r.stop)))
  }

  // What a read of everything unread delivers, if its copies stay inside.
  function Unread(row: seq<char>, r: Ring): Option<seq<char>> {
    if r.stop > r.start then Copied(row, r.start, r.stop - r.start)
    else Both(Copied(row, r.start, |row| - r.start), Copied(row, 0, r.stop))
  }

  /** The copies of a read stay inside the buffer if and only if its length is not negative and it
      does not start one place behind the buffer. */
  lemma InsideIff(row: seq<char>, r: Ring, len: int)
    requires InBounds(r, |row|)
    ensures Delivered(row, r, len).Some? <==> 0 <= len && r.start <= |row|
    ensures Unread(row, r).Some? <==> r.start <= |row|
  {}

  // In step, a read delivers the first of the unread characters.
  lemma DeliveredInStep(row: seq<char>, r: Ring, len: int)
    requires InStep(r, |row|) && 0 < len && 0 < r.size
    ensures Delivered(row, r, len) == Some(Round(row, r.start, r.size)[..Least(len, r.size)])
  {
    assert Delivered(row, r, len).value == Round(row, r.start, r.size)[..Least(len, r.size)];
  }

  // With nothing unread it delivers something all the same, but at the two ends.
  lemma DeliveredEmpty(row: seq<char>, r: Ring, len: int)
    requires InStep(r, |row|) && 0 < len && 0 == r.size && 0 < |row|
    ensures Delivered(row, r, len) == Some([]) <==> r.start - r.stop == |row|
  {}

  lemma UnreadInStep(row: seq<char>, r: Ring)
    requires InStep(r, |row|) && 0 < r.size
    ensures Unread(row, r) == Some(Round(row, r.start, r.size))
  {
    assert Unread(row, r).value == Round(row, r.start, r.size);
  }

  // The unread characters are the last ones written.
  lemma UnreadIsLast(row: seq<char>, r: Ring, rollover: bool, written: seq<char>)
    requires Shows(row, r.stop, rollover, written) && InStep(r, |row|) && r.size <= |written|
    ensures Round(row, r.start, r.size) == Last(written, r.size)
  {
    var round, last := Round(row, r.start, r.size), Last(written, r.size);
    assert |round| == |last| == r.size;
    forall i | 0 <= i < r.size
      ensures round[i] == last[i]
    {
      assert last[i] == written[|written| - r.size + i];
      var k := if r.start + i < |row| then r.start + i else r.start + i - |row|;
      assert round[i] == row[k];
    }
  }

  /** In step, a read delivers the oldest of the characters that were written and not read, as many
      as asked for or all, if and only if there is one, or start is at the end and stop at the
      beginning. */
  lemma DeliversOldestIff(row: seq<char>, r: Ring, rollover: bool, written: seq<char>, len: int)
    requires Shows(row, r.stop, rollover, written) && InStep(r, |row|) && r.size <= |written| && 0 < len && 0 < |row|
    ensures Delivered(row, r, len) == Some(Last(written, r.size)[..Least(len, r.size)])
            <==> 0 < r.size || r.start - r.stop == |row|
  {
    if 0 < r.size {
      DeliveredInStep(row, r, len);
      UnreadIsLast(row, r, rollover, written);
    } else {
      DeliveredEmpty(row, r, len);
    }
  }

  // ---------------------------------------------------------------- runs

  datatype Op = Put(text: seq<char>) | Get(len: int) | GetRest | GetAll | Clear

  // One operation.
  function Ran(r: Ring, op: Op, n: nat): Ring {
    match op
    case Put(text) => if text == [] then r else Wrote(r, |text|, n)
    case Get(len) => Took(r, len, n)
    case GetRest => Ring(r.stop, r.stop, 0)
    case GetAll => Ring(r.stop, r.stop, r.size)
    case Clear => Ring(0, 0, r.size)
  }

  // Its copies stay inside a buffer of n.
  predicate StaysInside(r: Ring, op: Op, n: nat) {
    match op
    case Get(len) => 0 <= len && r.start <= n
    case GetRest => r.start <= n
    case _ => true
  }

  function RanAll(r: Ring, ops: seq<Op>, n: nat): Ring
    decreases |ops|
  {
    if ops == [] then r else RanAll(Ran(r, ops[0], n), ops[1..], n)
  }

  // All copies of a run stay inside.
  predicate AllInside(r: Ring, ops: seq<Op>, n: nat)
    decreases |ops|
  {
    ops != [] ==> StaysInside(r, ops[0], n) && AllInside(Ran(r, ops[0], n), ops[1..], n)
  }

  // One operation more.
  lemma {:induction false} RanMore(r: Ring, ops: seq<Op>, op: Op, n: nat)
    ensures RanAll(r, ops + [op], n) == Ran(RanAll(r, ops, n), op, n)
    ensures AllInside(r, ops + [op], n) <==> AllInside(r, ops, n) && StaysInside(RanAll(r, ops, n), op, n)
    decreases |ops|
  {
    if ops == [] {
      assert (ops + [op])[1..] == [];
    } else {
      assert (ops + [op])[1..] == ops[1..] + [op];
      RanMore(Ran(r, ops[0], n), ops[1..], op, n);
    }
  }

  /** In every run whose copies stay inside, the positions stay in bounds. */
  lemma {:induction false} EveryRunInBounds(r: Ring, ops: seq<Op>, n: nat)
    requires n > 0 && InBounds(r, n) && AllInside(r, ops, n)
    ensures InBounds(RanAll(r, ops, n), n)
    decreases |ops|
  {
    if ops != [] {
      EveryRunInBounds(Ran(r, ops[0], n), ops[1..], n);
    }
  }

  /** A write that goes round the end of the buffer while the unread characters do not: in a buffer of
      ten, write eight, read four, write three.  Places 4 to 9 and 0 are unread, and reading goes on
      at 2. */
  lemma OutOfStep(a: seq<char>, b: seq<char>)
    requires |a| == 8 && |b| == 3
    ensures RanAll(Ring(0, 0, 0), [Put(a), Get(4)], 10) == Ring(4, 8, 4) && InStep(Ring(4, 8, 4), 10)
    ensures RanAll(Ring(0, 0, 0), [Put(a), Get(4), Put(b)], 10) == Ring(2, 1, 7) && !InStep(Ring(2, 1, 7), 10)
  {
    var r := Ring(0, 0, 0);
    RanMore(r, [], Put(a), 10);
    RanMore(r, [Put(a)], Get(4), 10);
    RanMore(r, [Put(a), Get(4)], Put(b), 10);
  }

  /** With nothing unread, a read delivers other characters: in a buffer of more than five, write
      three, read three, and two more. */
  lemma EmptyDelivers(a: seq<char>, row: seq<char>)
    requires |a| == 3 && |row| > 5
    ensures RanAll(Ring(0, 0, 0), [Put(a), Get(3)], |row|) == Ring(3, 3, 0)
    ensures Delivered(row, Ring(3, 3, 0), 2) == Some(row[3..5])
  {
    RanMore(Ring(0, 0, 0), [], Put(a), |row|);
    RanMore(Ring(0, 0, 0), [Put(a)], Get(3), |row|);
  }

  /** A read that starts behind the buffer: in a buffer of ten, write ten, read six, write two and then
      eight. */
  lemma OutsideReached(a: seq<char>, b: seq<char>, c: seq<char>)
    requires |a| == 10 && |b| == 2 && |c| == 8
    ensures RanAll(Ring(0, 0, 0), [Put(a), Get(6), Put(b), Put(c)], 10) == Ring(11, 10, 10)
    ensures AllInside(Ring(0, 0, 0), [Put(a), Get(6), Put(b), Put(c)], 10)
    ensures !AllInside(Ring(0, 0, 0), [Put(a), Get(6), Put(b), Put(c), Get(1)], 10)
  {
    var r, two, three := Ring(0, 0, 0), [Put(a), Get(6)], [Put(a), Get(6), Put(b)];
    RanMore(r, [], Put(a), 10);
    RanMore(r, [Put(a)], Get(6), 10);
    RanMore(r, two, Put(b), 10);
    assert two + [Put(b)] == three && three + [Put(c)] == [Put(a), Get(6), Put(b), Put(c)];
    RanMore(r, three, Put(c), 10);
    RanMore(r, three + [Put(c)], Get(1), 10);
    assert (three + [Put(c)]) + [Get(1)] == [Put(a), Get(6), Put(b), Put(c), Get(1)];
  }

  // Writes that fit and reads of something that is there.
  predicate Steady(r: Ring, ops: seq<Op>, n: nat)
    decreases |ops|
  {
    ops != [] ==>
      match ops[0]
      case Put(text) => text != [] && Fits(r, |text|, n) && Steady(Wrote(r, |text|, n), ops[1..], n)
      case Get(len) => 0 < len && 0 < r.size && Steady(Took(r, len, n), ops[1..], n)
      case _ => false
  }

  // Everything written after what was, in order.
  function Written(was: seq<char>, ops: seq<Op>): seq<char>
    decreases |ops|
  {
    if ops == [] then was else Written(if ops[0].Put? then was + ops[0].text else was, ops[1..])
  }

  // All but the last size characters written have been read.
  predicate SoFar(out: seq<char>, written: seq<char>, size: int) {
    0 <= size <= |written| && out == written[..|written| - size]
  }

  lemma SoFarGet(out: seq<char>, written: seq<char>, size: int, k: int)
    requires SoFar(out, written, size) && 0 <= k <= size
    ensures SoFar(out + Last(written, size)[..k], written, size - k)
  {}

  lemma SoFarPut(out: seq<char>, written: seq<char>, size: int, text: seq<char>)
    requires SoFar(out, written, size)
    ensures SoFar(out, written + text, size + |text|)
  {}

  lemma SteadyNext(r: Ring, ops: seq<Op>, n: nat)
    requires ops != [] && Steady(r, ops, n)
    ensures ops[0].Put? || ops[0].Get?
    ensures ops[0].Put? ==> var k := |ops[0].text|; k > 0 && Fits(r, k, n) && Steady(Wrote(r, k, n), ops[1..], n)
    ensures ops[0].Get? ==> 0 < ops[0].len && 0 < r.size && Steady(Took(r, ops[0].len, n), ops[1..], n)
  {}
}
