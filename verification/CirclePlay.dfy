/** Whole runs of the circular buffer. */
module CirclePlay {
  import opened Circle
  import opened CircleRing

  // What has been written since the last Clear of a run.
  function Kept(was: seq<char>, ops: seq<Op>): seq<char>
    decreases |ops|
  {
    if ops == [] then was
    else
      match ops[0]
      case Put(text) => Kept(was + text, ops[1..])
      case Clear => Kept([], ops[1..])
      case _ => Kept(was, ops[1..])
  }

  // One operation; not ok if one of its copies is outside the buffer.
  method Perform(c: CircleBuf, op: Op) returns (ok: bool)
    requires c.Valid()
    modifies c, c.buf
    ensures c.Valid() && ok == StaysInside(old(c.Indices()), op, c.buf.Length)
    ensures ok ==> c.Indices() == Ran(old(c.Indices()), op, c.buf.Length) && c.written == Kept(old(c.written), [op])
  {
    ok := true;
    match op
    case Put(text) =>
      assert text[..|text|] == text;
      c.Write(text, |text|);
    case Get(n) =>
      var text := c.Read(n);
      ok := text.Some?;
    case GetRest =>
      var text := c.ReadRest();
      ok := text.Some?;
    case GetAll =>
      var text := c.ReadAll();
    case Clear => c.Flush();
  }

  // The rest of a run.
  method PlayOn(c: CircleBuf, ops: seq<Op>) returns (ok: bool)
    requires c.Valid()
    modifies c, c.buf
    ensures c.Valid() && ok == AllInside(old(c.Indices()), ops, c.buf.Length)
    ensures ok ==> c.written == Kept(old(c.written), ops)
    decreases |ops|
  {
    if ops == [] {
      return true;
    }
    KeptNext(c.written, ops);
    ok := Perform(c, ops[0]);
    if ok {
      ok := PlayOn(c, ops[1..]);
    }
  }

  lemma KeptNext(was: seq<char>, ops: seq<Op>)
    requires ops != []
    ensures Kept(was, ops) == Kept(Kept(was, [ops[0]]), ops[1..])
  {
    assert [ops[0]][1..] == [];
  }

  /** Any interleaving of writes, reads and flushes, then readall: none if a copy goes outside the
      buffer, and otherwise the end of what was written since the last flush. */
  method Play(len: nat, ops: seq<Op>) returns (out: Option<seq<char>>)
    requires len > 0
    ensures out.Some? <==> AllInside(Ring(0, 0, 0), ops, len)
    ensures out.Some? ==> out.value == Last(Kept([], ops), len)
  {
    var c := new CircleBuf(len);
    var ok := PlayOn(c, ops);
    if !ok {
      return None;
    }
    var text := c.ReadAll();
    out := Some(text);
  }

  // ---------------------------------------------------------------- reading and writing in step

  // One write of a steady run.
  method PutNext(c: CircleBuf, text: seq<char>, ghost so: seq<char>)
    requires c.Valid() && c.Synced() && text != [] && Fits(c.Indices(), |text|, c.buf.Length)
    requires SoFar(so, c.written, c.size)
    modifies c, c.buf
    ensures c.Valid() && c.Synced() && c.written == old(c.written) + text
    ensures c.Indices() == Wrote(old(c.Indices()), |text|, c.buf.Length) && SoFar(so, c.written, c.size)
  {
    WroteInStepIff(c.Indices(), |text|, c.buf.Length);
    SoFarPut(so, c.written, c.size, text);
    assert text[..|text|] == text;
    c.Write(text, |text|);
  }

  // One read of a steady run.
  method GetNext(c: CircleBuf, len: int, so: seq<char>) returns (out: seq<char>)
    requires c.Valid() && c.Synced() && 0 < len && 0 < c.size
    requires SoFar(so, c.written, c.size)
    modifies c, c.buf
    ensures c.Valid() && c.Synced() && c.written == old(c.written)
    ensures c.Indices() == Took(old(c.Indices()), len, c.buf.Length) && SoFar(out, c.written, c.size)
  {
    TookInStepIff(c.Indices(), len, c.buf.Length);
    SoFarGet(so, c.written, c.size, Least(len, c.size));
    var text := c.Read(len);
    out := so + text.value;
  }

  // The rest of a steady run.
  method Continue(c: CircleBuf, ops: seq<Op>, so: seq<char>) returns (out: seq<char>)
    requires c.Valid() && c.Synced() && Steady(c.Indices(), ops, c.buf.Length)
    requires SoFar(so, c.written, c.size)
    modifies c, c.buf
    ensures c.Valid() && c.Synced() && c.written == Written(old(c.written), ops)
    ensures SoFar(out, c.written, c.size)
    decreases |ops|
  {
    out := so;
    if ops == [] {
      return;
    }
    SteadyNext(c.Indices(), ops, c.buf.Length);
    if ops[0].Put? {
      PutNext(c, ops[0].text, so);
    } else {
      out := GetNext(c, ops[0].len, so);
    }
    out := Continue(c, ops[1..], out);
  }

  /** Every run of writes that fit and reads of something that is there: what has been read is
      everything that was written, in order, but for the characters still unread. */
  method Relay(len: nat, ops: seq<Op>) returns (out: seq<char>, unread: int)
    requires len > 0 && Steady(Ring(0, 0, 0), ops, len)
    ensures SoFar(out, Written([], ops), unread)
  {
    var c := new CircleBuf(len);
    out := Continue(c, ops, []);
    unread := c.size;
  }
}
