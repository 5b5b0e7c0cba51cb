/** A circular character buffer that keeps the most recent part of everything written to it. */
module Circle {
  import opened CircleRing

  class CircleBuf {
    const buf: array<char>
    var rollover: bool
    var size: int
    var start: int
    var stop: int
    // Everything written since the buffer was last flushed.
    ghost var written: seq<char>

    ghost predicate Valid()
      reads this, buf
    {
      0 < buf.Length && Shows(buf[..], stop, rollover, written) && InBounds(Indices(), buf.Length)
    }

    ghost function Indices(): Ring
      reads this
    {
      Ring(start, stop, size)
    }

    // The indices say which of the characters written have not been read.
    ghost predicate Synced()
      reads this, buf
    {
      InStep(Indices(), buf.Length) && size <= |written|
    }

    constructor (len: nat)
      requires len > 0
      ensures Valid() && Synced() && fresh(buf) && buf.Length == len && written == [] && Indices() == Ring(0, 0, 0)
    {
      buf := new char[len](_ => '\0');
      rollover, size, start, stop := false, 0, 0, 0;
      written := [];
    }

    method Flush()
      requires Valid()
      modifies this
      ensures Valid() && written == [] && Indices() == Ring(0, 0, old(size))
    {
      start, stop, rollover := 0, 0, false;
      written := [];
    }

    // The characters from start on, at most len; none, and nothing more, once a copy is outside.
    method Take(len: int) returns (out: Option<seq<char>>)
      modifies this`size, this`start
      ensures out == Delivered(buf[..], old(Indices()), len)
      ensures out.Some? ==> Indices() == Took(old(Indices()), len, buf.Length)
      ensures out.None? ==> start == old(start)
    {
      size := size - len;
      if size < 0 {
        size := 0;
      }
      if stop > start {
        var n := Least(len, stop - start);
        out := Copied(buf[..], start, n);
        if out.Some? {
          start := start + n;
        }
      } else {
        var endlen := buf.Length - start;
        if endlen > len {
          out := Copied(buf[..], start, len);
          if out.Some? {
            start := start + len;
          }
        } else {
          var rest := Least(len - endlen, stop);
          out := Both(Copied(buf[..], start, endlen), Copied(buf[..], 0, rest));
          if out.Some? {
            start := rest;
          }
        }
      }
    }

    /** Reading never touches the text, the write position or the rollover mark.  It stays inside the
        buffer exactly if the length is not negative and start is not behind it.  In step, it delivers
        the oldest unread characters if there is one, and leaves the others unread. */
    method Read(len: int) returns (out: Option<seq<char>>)
      requires Valid()
      modifies this`size, this`start
      ensures Valid() && (out.Some? <==> 0 <= len && old(start) <= buf.Length)
      ensures out.Some? ==> Indices() == Took(old(Indices()), len, buf.Length)
      ensures old(Synced()) && 0 < len && 0 < old(size) ==> Synced()
      ensures old(Synced()) && 0 < len ==>
        (out == Some(Last(written, old(size))[..Least(len, old(size))]) <==>
          0 < old(size) || old(start) - stop == buf.Length)
    {
      InsideIff(buf[..], Indices(), len);
      if Synced() && 0 < len {
        TookInStepIff(Indices(), len, buf.Length);
        DeliversOldestIff(buf[..], Indices(), rollover, written, len);
      }
      out := Take(len);
    }

    /** Reading without a length stays inside exactly if start is not behind the buffer; in step, it
        delivers all unread characters, and leaves none. */
    method ReadRest() returns (out: Option<seq<char>>)
      requires Valid()
      modifies this`size, this`start
      ensures Valid() && (out.Some? <==> old(start) <= buf.Length)
      ensures out.Some? ==> Indices() == Ring(stop, stop, 0) && Synced()
      ensures old(Synced()) && 0 < old(size) ==> out == Some(Last(written, old(size)))
    {
      InsideIff(buf[..], Indices(), 0);
      if Synced() && 0 < size {
        UnreadInStep(buf[..], Indices());
        UnreadIsLast(buf[..], Indices(), rollover, written);
      }
      size := 0;
      if stop > start {
        out := Copied(buf[..], start, stop - start);
      } else {
        out := Both(Copied(buf[..], start, buf.Length - start), Copied(buf[..], 0, stop));
      }
      if out.Some? {
        start := stop;
      }
    }

    /** Everything that is still there, oldest first: exactly the last buf.Length characters
        written since the last flush, or all of them if there were fewer. */
    method ReadAll() returns (out: seq<char>)
      requires Valid()
      modifies this`start
      ensures Valid() && out == Last(written, buf.Length) && Indices() == Ring(stop, stop, size)
    {
      out := [];
      if rollover {
        out := buf[stop..];
      }
      out := out + buf[..stop];
      start := stop;
    }

    method Write(b: seq<char>, len: int)
      requires Valid() && len <= |b|
      modifies this, buf
      ensures Valid()
      ensures written == old(written) + if len <= 0 then [] else b[..len]
      ensures Indices() == if len <= 0 then old(Indices()) else Wrote(old(Indices()), len, buf.Length)
    {
      if len <= 0 {
        return;
      }
      size := if size + len > buf.Length then buf.Length else size + len;
      var oldStart, oldStop := start, stop;
      if len >= buf.Length {
        WriteLast(b[..len]);
        start := 0;
        return;
      }
      if stop + len <= buf.Length {
        WriteStraight(b[..len]);
      } else {
        WriteWrapped(b[..len]);
      }
      if (oldStart > oldStop && oldStart < stop) || (oldStart < oldStop && stop < oldStop) {
        start := stop + 1;
      }
    }

    // More than fits: only the end of the text matters.
    method WriteLast(text: seq<char>)
      requires Valid() && |text| >= buf.Length
      modifies this`stop, this`rollover, this`written, buf
      ensures Valid() && written == old(written) + text && stop == buf.Length
    {
      ShowsReplaced(buf[..], written, text);
      stop, rollover := buf.Length, true;
      Copy(0, text[|text| - buf.Length..]);
      written := written + text;
      assert buf[..] == text[|text| - buf.Length..];
    }

    method WriteStraight(text: seq<char>)
      requires Valid() && stop + |text| <= buf.Length
      modifies this`stop, this`written, buf
      ensures Valid() && written == old(written) + text && stop == old(stop) + |text|
    {
      ShowsStraight(buf[..], stop, rollover, written, text);
      Copy(stop, text);
      stop := stop + |text|;
      written := written + text;
    }

    method WriteWrapped(text: seq<char>)
      requires Valid() && stop + |text| > buf.Length > |text|
      modifies this`stop, this`rollover, this`written, buf
      ensures Valid() && written == old(written) + text && stop == old(stop) + |text| - buf.Length
    {
      ShowsWrapped(buf[..], stop, rollover, written, text);
      var endLen := buf.Length - stop;
      Copy(stop, text[..endLen]);
      Copy(0, text[endLen..]);
      stop, rollover := |text| - endLen, true;
      written := written + text;
    }

    method Copy(at: nat, text: seq<char>)
      requires at + |text| <= buf.Length
      modifies buf
      ensures buf[..] == Overlaid(old(buf[..]), at, text)
    {
      for i := 0 to |text|
        invariant forall k :: at <= k < at + i ==> buf[k] == text[k - at]
        invariant forall k :: 0 <= k < at || at + i <= k < buf.Length ==> buf[k] == old(buf[k])
      {
        buf[at + i] := text[i];
      }
    }
  }
}
