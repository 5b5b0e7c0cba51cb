/**
 The debugger stub's end of a connection: sending and receiving packets byte by byte, and the
 hexadecimal coding of blocks in place.
 */
module RemoteGdb {
  import opened GdbSpec

  // What came of one attempt to receive a packet; Interrupted if the input ended, Overran if the
  // terminator was to go behind the buffer.
  datatype Verdict = Interrupted | Rejected | Accepted | Overran

  function VerdictOn(a: GdbSpec.Attempt, places: nat): Verdict {
    match a
    case Starved => Interrupted
    case Good(_, _) => Accepted
    case Bad(p, _) => if |p| >= places then Overran else Rejected
  }

  class BaseRemoteGdb {
    // What the other end has sent and is still to be read, and what this end has sent.
    var incoming: seq<Byte>
    var outgoing: seq<Byte>

    constructor (incoming: seq<Byte>)
      ensures this.incoming == incoming && outgoing == []
    {
      this.incoming := incoming;
      outgoing := [];
    }

    method GetByte() returns (b: Option<Byte>)
      modifies this`incoming
      ensures if old(incoming) == [] then b == None && incoming == []
              else b == Some(old(incoming)[0]) && incoming == old(incoming)[1..]
    {
      if incoming == [] {
        return None;
      }
      b := Some(incoming[0]);
      incoming := incoming[1..];
    }

    method PutByte(b: Byte)
      modifies this`outgoing
      ensures outgoing == old(outgoing) + [b]
    {
      outgoing := outgoing + [b];
    }

    // The payload, with the checksum kept in eight bits.
    method TransmitPayload(bp: seq<Byte>) returns (csum: Byte)
      modifies this`outgoing
      ensures outgoing == old(outgoing) + CString(bp) && csum == Sum(CString(bp)) % 256
    {
      var p: nat := 0;
      csum := 0;
      while At(bp, p) != 0
        invariant p <= |bp| && Terminator(bp, p) == Terminator(bp, 0)
        invariant outgoing == old(outgoing) + bp[..p]
        invariant csum == Sum(bp[..p]) % 256
        decreases |bp| - p
      {
        PutByte(bp[p]);
        csum := (csum + bp[p]) % 256;
        assert bp[..p + 1] == bp[..p] + [bp[p]];
        assert bp[..p + 1][..p] == bp[..p];
        p := p + 1;
      }
    }

    // One copy of a packet.
    method Transmit(bp: seq<Byte>)
      modifies this`outgoing
      ensures outgoing == old(outgoing) + Frame(CString(bp))
    {
      PutByte(Start);
      var csum := TransmitPayload(bp);
      PutByte(End);
      PutByte(I2Digit(csum / 16));
      PutByte(I2Digit(csum));
    }

    /** Retransmit for as long as the other end answers "bad packet". */
    method Send(bp: seq<Byte>) returns (answered: bool)
      modifies this
      ensures Answered(old(incoming), incoming, answered, Copies(old(incoming)))
      ensures outgoing == old(outgoing) + Repeat(Frame(CString(bp)), Sent(old(incoming)))
    {
      ghost var start, k, frame, c0, left := incoming, 0, Frame(CString(bp)), None, incoming;
      Transmit(bp);
      var c := GetByte();
      PendingStart(start, c, incoming);
      RepeatStep(old(outgoing), frame, 0);
      while c.Some? && c.value % 128 == BadP
        invariant Pending(start, k, c, incoming)
        invariant outgoing == old(outgoing) + Repeat(frame, k + 1)
        decreases |start| - k
      {
        RepeatStep(old(outgoing), frame, k + 1);
        Transmit(bp);
        c0, left := c, incoming;
        c := GetByte();
        PendingStep(start, k, c0, left, c, incoming);
        k := k + 1;
      }
      PendingEnd(start, k, c, incoming);
      answered := c.Some?;
    }

    // Read up to the start character.
    method FindStart() returns (found: bool)
      modifies this`incoming
      ensures var r := Skip(old(incoming));
        found == r.Some? && incoming == (if found then r.value else [])
    {
      var c := GetByte();
      while c.Some? && c.value != Start
        invariant Skip(old(incoming)) == if c.None? then None else Skip([c.value] + incoming)
        invariant c.None? ==> incoming == []
        decreases |incoming|, c.Some?
      {
        assert ([c.value] + incoming)[1..] == incoming;
        c := GetByte();
      }
      found := c.Some?;
      if found {
        assert ([c.value] + incoming)[1..] == incoming;
      }
    }

    // Read up to the end character into the buffer, and terminate what was read if there is a place.
    method ReadBody(bp: array<Byte>, maxlen: nat) returns (found: bool, len: nat, csum: nat)
      requires Room(bp[..], maxlen)
      modifies this`incoming, bp
      ensures var r := Body(old(incoming), maxlen);
        && found == r.Some?
        && (!found ==> incoming == [])
        && (found ==> incoming == r.value.rest && len == |r.value.payload|
                      && csum == Sum(r.value.payload) % 256 && bp[..] == Overlay(old(bp[..]), r.value.payload))
    {
      len, csum := 0, 0;
      ghost var acc: seq<Byte> := [];
      ghost var start, was, left := incoming, bp[..], incoming;
      var c := GetByte();
      ReadingStart(start, maxlen, c, incoming);
      while c.Some? && c.value != End && len < maxlen
        invariant len == |acc| <= maxlen && csum == Sum(acc)
        invariant Reading(start, maxlen, acc, c, incoming)
        invariant Filled(bp[..], acc, was)
        decreases |incoming|, c.Some?
      {
        var low := c.value % 128;
        csum := csum + low;
        SumStep(acc, low);
        FilledStep(bp[..], acc, was, low);
        ghost var before := bp[..];
        bp[len] := low;
        assert bp[..] == before[len := low];
        len := len + 1;
        left := incoming;
        ghost var c0 := c;
        c := GetByte();
        ReadingStep(start, maxlen, acc, c0, left, c, incoming);
        acc := acc + [low];
      }
      found := c.Some?;
      if found {
        ReadingEnd(start, maxlen, acc, c, incoming);
        csum := csum % 256;
        if len < bp.Length {
          FilledStep(bp[..], acc, was, 0);
          ghost var before := bp[..];
          bp[len] := 0;
          assert bp[..] == before[len := 0];
        }
      }
    }

    // Read the two checksum digits.
    method ReadChecksum(csum: nat) returns (diff: Option<int>)
      modifies this`incoming
      ensures if old(|incoming|) < 2 then diff == None && incoming == []
              else diff == Some(csum - Digit2I(old(incoming)[0]) * 16 - Digit2I(old(incoming)[1]))
                   && incoming == old(incoming)[2..]
    {
      var high := GetByte();
      if high.None? {
        return None;
      }
      var low := GetByte();
      if low.None? {
        return None;
      }
      diff := Some(csum - Digit2I(high.value) * 16 - Digit2I(low.value));
    }

    // One attempt.
    method Attempt(bp: array<Byte>, maxlen: nat) returns (v: Verdict, len: nat)
      requires Room(bp[..], maxlen)
      modifies this, bp
      ensures outgoing == old(outgoing)
      ensures var a := Try(old(incoming), maxlen);
        && v == VerdictOn(a, bp.Length)
        && incoming == (if a.Starved? then [] else a.rest)
        && (v != Interrupted ==> bp[..] == Overlay(old(bp[..]), a.payload) && len == |a.payload|)
    {
      v, len := Interrupted, 0;
      var found := FindStart();
      if !found {
        return;
      }
      var csum;
      found, len, csum := ReadBody(bp, maxlen);
      if !found {
        return;
      }
      if len >= bp.Length {
        return Overran, len;
      }
      if len >= maxlen {
        return Rejected, len;
      }
      var diff := ReadChecksum(csum);
      if diff.Some? {
        v := if diff.value == 0 then Accepted else Rejected;
      }
    }

    // Echo and remove a sequence number.
    method StripSequence(bp: array<Byte>, n: nat, ghost rest: seq<Byte>) returns (r: Outcome)
      requires n < bp.Length && bp.Length >= 3
      modifies this`outgoing, bp
      ensures Stripped(Finish(old(bp[..]), n, rest), r, bp[..], old(outgoing), outgoing)
    {
      PutByte(GoodP);
      r := Length(n);
      if bp[2] == Colon {
        PutByte(bp[0]);
        PutByte(bp[1]);
        if n < 3 {
          return Undefined;
        }
        r := Length(n - 3);
        MoveDown(bp, n - 3);
      }
    }

    /** Receive one packet, asking for it again until it arrives intact. */
    method Recv(bp: array<Byte>, maxlen: nat) returns (r: Outcome)
      requires Room(bp[..], maxlen)
      modifies this, bp
      ensures var s := Receive(old(bp[..]), maxlen, old(incoming));
        && r == s.outcome && outgoing == old(outgoing) + s.replies && incoming == s.rest
        && (r != Hung ==> bp[..] == s.buffer)
    {
      ghost var all := Receive(bp[..], maxlen, incoming);
      var v, len: nat := Rejected, 0;
      while v == Rejected
        invariant v == Rejected ==> Waiting(all, Receive(bp[..], maxlen, incoming), old(outgoing), outgoing)
        invariant v == Accepted ==> len < bp.Length && Waiting(all, Finish(bp[..], len, incoming), old(outgoing), outgoing)
        invariant v == Overran ==> Waiting(all, Session(Overrun, [], incoming, bp[..]), old(outgoing), outgoing)
        invariant v == Interrupted ==> Waiting(all, Session(Hung, [], incoming, all.buffer), old(outgoing), outgoing)
        decreases |incoming|, v == Rejected
      {
        ghost var buffer, input, sent := bp[..], incoming, outgoing;
        v, len := Attempt(bp, maxlen);
        WaitingStep(all, buffer, maxlen, input, old(outgoing), sent);
        if v == Rejected {
          PutByte(BadP);
        }
      }
      if v == Interrupted {
        return Hung;
      }
      if v == Overran {
        return Overrun;
      }
      r := StripSequence(bp, len, incoming);
    }
  }

  // How many copies are sent: if the answers run out, one for each of them and one more.
  function Sent(replies: seq<Byte>): nat {
    match Copies(replies)
    case None => |replies| + 1
    case Some(n) => n
  }

  ghost predicate Answered(start: seq<Byte>, left: seq<Byte>, answered: bool, n: Option<nat>) {
    answered == n.Some? && (if answered then n.value <= |start| && left == start[n.value..] else left == [])
  }

  // k answers were "bad packet" and c is the next.
  ghost predicate Pending(start: seq<Byte>, k: nat, c: Option<Byte>, left: seq<Byte>) {
    && k <= |start|
    && Copies(start) == Plus(Copies(start[k..]), k)
    && (if c.Some? then start[k..] == [c.value] + left else start[k..] == [] == left)
  }

  lemma RepeatStep(before: seq<Byte>, frame: seq<Byte>, k: nat)
    ensures (before + Repeat(frame, k)) + frame == before + Repeat(frame, k + 1)
    ensures before + Repeat(frame, 0) == before
  {}

  // What reading one byte does.
  ghost predicate Next(left: seq<Byte>, c: Option<Byte>, rest: seq<Byte>) {
    if left == [] then c == None && rest == [] else c == Some(left[0]) && rest == left[1..]
  }

  lemma PendingStart(start: seq<Byte>, c: Option<Byte>, left: seq<Byte>)
    requires Next(start, c, left)
    ensures Pending(start, 0, c, left)
  {
    assert start[0..] == start;
  }

  lemma PendingStep(start: seq<Byte>, k: nat, c: Option<Byte>, left: seq<Byte>, c': Option<Byte>, left': seq<Byte>)
    requires Pending(start, k, c, left) && c.Some? && c.value % 128 == BadP && Next(left, c', left')
    ensures k < |start| && Pending(start, k + 1, c', left')
  {
    assert start[k..][1..] == start[k + 1..] == left;
    assert start[k..][0] == c.value;
  }

  lemma PendingEnd(start: seq<Byte>, k: nat, c: Option<Byte>, left: seq<Byte>)
    requires Pending(start, k, c, left) && !(c.Some? && c.value % 128 == BadP)
    ensures Answered(start, left, c.Some?, Copies(start)) && Sent(start) == k + 1
  {
    if c.Some? {
      assert left == start[k..][1..] == start[k + 1..];
      assert start[k..][0] == c.value;
    }
  }

  // The part of a session behind what has been answered so far.
  ghost predicate Waiting(all: Session, left: Session, before: seq<Byte>, now: seq<Byte>) {
    && all.outcome == left.outcome && all.rest == left.rest && all.buffer == left.buffer
    && before + all.replies == now + left.replies
  }

  lemma WaitingStep(all: Session, buffer: seq<Byte>, maxlen: nat, input: seq<Byte>, before: seq<Byte>, now: seq<Byte>)
    requires Room(buffer, maxlen) && Waiting(all, Receive(buffer, maxlen, input), before, now)
    ensures var a := Try(input, maxlen);
      && (a.Starved? ==> Waiting(all, Session(Hung, [], [], all.buffer), before, now))
      && (a.Good? ==> Waiting(all, Finish(Overlay(buffer, a.payload), |a.payload|, a.rest), before, now))
      && (a.Bad? && |a.payload| < |buffer| ==>
            Waiting(all, Receive(Overlay(buffer, a.payload), maxlen, a.rest), before, now + [BadP]))
      && (a.Bad? && |a.payload| >= |buffer| ==>
            Waiting(all, Session(Overrun, [], a.rest, Overlay(buffer, a.payload)), before, now))
  {
    var a := Try(input, maxlen);
    if a.Bad? && |a.payload| < |buffer| {
      var left := Receive(Overlay(buffer, a.payload), maxlen, a.rest);
      assert now + ([BadP] + left.replies) == now + [BadP] + left.replies;
    }
  }

  ghost predicate Stripped(s: Session, r: Outcome, buffer: seq<Byte>, before: seq<Byte>, now: seq<Byte>) {
    s.outcome == r && s.buffer == buffer && now == before + s.replies
  }

  function Plus(n: Option<nat>, k: nat): Option<nat> {
    match n
    case None => None
    case Some(m) => Some(m + k)
  }

  function Prepend(acc: seq<Byte>, b: Option<Split>): Option<Split> {
    match b
    case None => None
    case Some(s) => Some(Split(acc + s.payload, s.rest))
  }

  // acc has been read, c is the next character and left is behind it.
  ghost predicate Reading(start: seq<Byte>, maxlen: nat, acc: seq<Byte>, c: Option<Byte>, left: seq<Byte>) {
    && |acc| <= maxlen
    && (if c.None? then left == [] && Body(start, maxlen) == None
        else Body(start, maxlen) == Prepend(acc, Body([c.value] + left, maxlen - |acc|)))
  }

  lemma ReadingStart(start: seq<Byte>, maxlen: nat, c: Option<Byte>, left: seq<Byte>)
    requires Next(start, c, left)
    ensures Reading(start, maxlen, [], c, left)
  {
    if start != [] {
      assert start == [start[0]] + start[1..];
      var b := Body(start, maxlen);
      assert b.Some? ==> [] + b.value.payload == b.value.payload;
    }
  }

  lemma ReadingStep(start: seq<Byte>, maxlen: nat, acc: seq<Byte>, c: Option<Byte>, left: seq<Byte>,
                    c': Option<Byte>, left': seq<Byte>)
    requires Reading(start, maxlen, acc, c, left) && Next(left, c', left')
    requires c.Some? && c.value != End && |acc| < maxlen
    ensures Reading(start, maxlen, acc + [c.value % 128], c', left')
  {
    BodyStep(c.value, left, maxlen - |acc|, acc);
    assert left != [] ==> left == [left[0]] + left[1..];
  }

  lemma ReadingEnd(start: seq<Byte>, maxlen: nat, acc: seq<Byte>, c: Option<Byte>, left: seq<Byte>)
    requires Reading(start, maxlen, acc, c, left)
    requires c.Some? && (c.value == End || |acc| == maxlen)
    ensures Body(start, maxlen) == Some(Split(acc, left))
  {
    assert ([c.value] + left)[1..] == left;
    assert acc + [] == acc;
  }

  lemma SumStep(acc: seq<Byte>, b: Byte)
    ensures Sum(acc + [b]) == Sum(acc) + b
  {
    assert (acc + [b])[..|acc|] == acc;
  }

  // The start of a buffer has been overwritten.
  ghost predicate Filled(buffer: seq<Byte>, acc: seq<Byte>, was: seq<Byte>) {
    |acc| <= |was| && buffer == acc + was[|acc|..]
  }

  lemma FilledStep(buffer: seq<Byte>, acc: seq<Byte>, was: seq<Byte>, b: Byte)
    requires Filled(buffer, acc, was) && |acc| < |was|
    ensures |buffer| == |was| && Filled(buffer[|acc| := b], acc + [b], was)
    ensures b == 0 ==> buffer[|acc| := b] == Overlay(was, acc)
  {}

  lemma BodyStep(c: Byte, input: seq<Byte>, room: nat, acc: seq<Byte>)
    requires c != End && room > 0
    ensures Prepend(acc, Body([c] + input, room)) == Prepend(acc + [c % 128], Body(input, room - 1))
  {
    assert ([c] + input)[1..] == input;
    var b := Body(input, room - 1);
    if b.Some? {
      assert acc + ([c % 128] + b.value.payload) == (acc + [c % 128]) + b.value.payload;
    }
  }

  // memcpy(bp, bp + 3, len)
  method MoveDown(bp: array<Byte>, len: nat)
    requires len + 3 <= bp.Length
    modifies bp
    ensures bp[..] == old(bp[3..len + 3]) + old(bp[len..])
  {
    for i := 0 to len
      invariant forall k :: 0 <= k < i ==> bp[k] == old(bp[k + 3])
      invariant forall k :: i <= k < bp.Length ==> bp[k] == old(bp[k])
    {
      bp[i] := bp[i + 3];
    }
  }

  /** Hexadecimal digits of a block, high half first, and a terminator. */
  method Mem2Hex(dst: array<Byte>, src: array<Byte>, len: nat)
    requires src != dst && len <= src.Length && 2 * len < dst.Length
    modifies dst
    ensures dst[..] == Hex(src[..len]) + [0] + old(dst[2 * len + 1..])
  {
    var i := 0;
    while i < len
      invariant i <= len
      invariant dst[..2 * i] == Hex(src[..i])
      invariant forall k :: 2 * i <= k < dst.Length ==> dst[k] == old(dst[k])
    {
      assert src[..i + 1][..i] == src[..i];
      dst[2 * i] := I2Digit(src[i] / 16);
      dst[2 * i + 1] := I2Digit(src[i]);
      assert dst[..2 * i + 2] == dst[..2 * i] + [dst[2 * i], dst[2 * i + 1]];
      i := i + 1;
    }
    dst[2 * len] := 0;
    assert dst[..] == dst[..2 * len] + [0] + dst[2 * len + 1..];
  }

  /** Decode up to maxlen bytes of a string. */
  method Hex2Mem(dst: array<Byte>, src: seq<Byte>, maxlen: nat) returns (end: Option<nat>)
    requires maxlen <= dst.Length
    modifies dst
    ensures var r := Unhex(src, 0, maxlen);
      end == r.end && dst[..] == r.bytes + old(dst[|r.bytes|..])
  {
    var n: nat := 0;
    ghost var was, done: seq<Byte> := dst[..], [];
    DecodingStart(src, maxlen);
    while At(src, 2 * n) != 0 && n < maxlen
      invariant n == |done| && Decoding(src, maxlen, done)
      invariant Filled(dst[..], done, was)
      decreases maxlen - n
    {
      var msb := Digit2I(At(src, 2 * n));
      if msb < 0 {
        DecodingEnd(src, maxlen, done);
        return Some(2 * n);
      }
      var lsb := Digit2I(At(src, 2 * n + 1));
      if lsb < 0 {
        DecodingEnd(src, maxlen, done);
        return None;
      }
      DecodingStep(src, maxlen, done);
      var b: Byte := msb * 16 + lsb;
      FilledStep(dst[..], done, was, b);
      ghost var before := dst[..];
      dst[n] := b;
      assert dst[..] == before[n := b];
      done := done + [b];
      n := n + 1;
    }
    DecodingEnd(src, maxlen, done);
    end := Some(2 * n);
  }

  function Behind(bytes: seq<Byte>, r: Decoded): Decoded {
    r.(bytes := bytes + r.bytes)
  }

  // done has been decoded.
  ghost predicate Decoding(s: seq<Byte>, maxlen: nat, done: seq<Byte>) {
    |done| <= maxlen && Unhex(s, 0, maxlen) == Behind(done, Unhex(s, 2 * |done|, maxlen - |done|))
  }

  lemma DecodingStart(s: seq<Byte>, maxlen: nat)
    ensures Decoding(s, maxlen, [])
  {
    assert [] + Unhex(s, 0, maxlen).bytes == Unhex(s, 0, maxlen).bytes;
  }

  lemma DecodingStep(s: seq<Byte>, maxlen: nat, done: seq<Byte>)
    requires Decoding(s, maxlen, done) && |done| < maxlen && At(s, 2 * |done|) != 0
    requires Digit2I(At(s, 2 * |done|)) >= 0 && Digit2I(At(s, 2 * |done| + 1)) >= 0
    ensures Decoding(s, maxlen, done + [Digit2I(At(s, 2 * |done|)) * 16 + Digit2I(At(s, 2 * |done| + 1))])
  {
    var i := 2 * |done|;
    var v := Digit2I(s[i]) * 16 + Digit2I(s[i + 1]);
    var r := Unhex(s, i + 2, maxlen - |done| - 1);
    assert done + ([v] + r.bytes) == (done + [v]) + r.bytes;
  }

  lemma DecodingEnd(s: seq<Byte>, maxlen: nat, done: seq<Byte>)
    requires Decoding(s, maxlen, done)
    ensures var i := 2 * |done|;
      && (At(s, i) == 0 || |done| == maxlen || Digit2I(At(s, i)) < 0 ==> Unhex(s, 0, maxlen) == Decoded(done, Some(i)))
      && (!(At(s, i) == 0 || |done| == maxlen || Digit2I(At(s, i)) < 0) && Digit2I(At(s, i + 1)) < 0 ==>
            Unhex(s, 0, maxlen) == Decoded(done, None))
  {
    assert done + [] == done;
  }
}
