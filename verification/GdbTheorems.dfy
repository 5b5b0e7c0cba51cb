/**
 What the framing guarantees: intact packets arrive, single damage is noticed, a packet that is
 retransmitted arrives exactly once, and memory blocks survive the trip.
 */
module GdbTheorems {
  import opened GdbSpec

  // ---------------------------------------------------------------- one attempt

  predicate SevenBit(p: seq<Byte>) {
    forall i :: 0 <= i < |p| ==> p[i] < 128
  }

  // Seven bits of each character.
  function Mask(p: seq<Byte>): (m: seq<Byte>)
    ensures |m| == |p|
  {
    seq(|p|, i requires 0 <= i < |p| => p[i] % 128)
  }

  lemma MaskSeven(p: seq<Byte>)
    requires SevenBit(p)
    ensures Mask(p) == p
  {}

  lemma MaskUpdate(p: seq<Byte>, i: nat, c: Byte, low: Byte)
    requires SevenBit(p) && i < |p| && low == c % 128
    ensures Mask(p[i := c]) == p[i := low]
  {}

  lemma {:induction false} SkipNoise(noise: seq<Byte>, x: seq<Byte>)
    requires Start !in noise
    ensures Skip(noise + x) == Skip(x)
  {
    if noise == [] {
      assert noise + x == x;
    } else {
      assert (noise + x)[1..] == noise[1..] + x;
      SkipNoise(noise[1..], x);
    }
  }

  lemma {:induction false} BodyWhole(p: seq<Byte>, rest: seq<Byte>, room: nat)
    requires End !in p && |p| <= room
    ensures Body(p + [End] + rest, room) == Some(Split(Mask(p), rest))
    decreases p
  {
    var x := p + [End] + rest;
    if p == [] {
      assert x[1..] == rest;
    } else {
      assert x[1..] == p[1..] + [End] + rest;
      BodyWhole(p[1..], rest, room - 1);
      assert [p[0] % 128] + Mask(p[1..]) == Mask(p);
    }
  }

  lemma TryWhole(noise: seq<Byte>, p: seq<Byte>, rest: seq<Byte>, maxlen: nat)
    requires Start !in noise && End !in p && |p| < maxlen
    ensures Try(noise + [Start] + p + [End] + rest, maxlen) == Checked(Split(Mask(p), rest), maxlen)
  {
    var tail := p + [End] + rest;
    assert noise + [Start] + p + [End] + rest == noise + ([Start] + tail);
    SkipNoise(noise, [Start] + tail);
    assert ([Start] + tail)[1..] == tail;
    BodyWhole(p, rest, maxlen);
  }

  // A frame whose payload and checksum digits may have been changed on the way.
  function Sent(p: seq<Byte>, high: Byte, low: Byte): seq<Byte> {
    [Start] + p + [End] + [high, low]
  }

  lemma FrameIsSent(p: seq<Byte>)
    ensures Frame(p) == Sent(p, High(p), Low(p))
  {}

  lemma TrySent(noise: seq<Byte>, p: seq<Byte>, high: Byte, low: Byte, rest: seq<Byte>, maxlen: nat)
    requires Start !in noise && End !in p && |p| < maxlen
    ensures Try(noise + Sent(p, high, low) + rest, maxlen) ==
            if Sum(Mask(p)) % 256 == Digit2I(high) * 16 + Digit2I(low) then Good(Mask(p), rest) else Bad(Mask(p), rest)
  {
    var tail := [high, low] + rest;
    assert noise + Sent(p, high, low) + rest == noise + [Start] + p + [End] + tail;
    TryWhole(noise, p, tail, maxlen);
    assert tail[2..] == rest;
  }

  lemma DigitsSpell(p: seq<Byte>)
    ensures Digit2I(High(p)) * 16 + Digit2I(Low(p)) == Sum(p) % 256
    ensures 0 <= Digit2I(High(p)) && 0 <= Digit2I(Low(p))
  {}

  predicate Payload(p: seq<Byte>, maxlen: nat) {
    SevenBit(p) && End !in p && |p| < maxlen
  }

  /** An intact frame is accepted, whatever comes before its start character and after it. */
  lemma IntactAccepted(noise: seq<Byte>, p: seq<Byte>, rest: seq<Byte>, maxlen: nat)
    requires Start !in noise && Payload(p, maxlen)
    ensures Try(noise + Frame(p) + rest, maxlen) == Good(p, rest)
  {
    FrameIsSent(p);
    DigitsSpell(p);
    TrySent(noise, p, High(p), Low(p), rest, maxlen);
    MaskSeven(p);
  }

  // ---------------------------------------------------------------- damage

  lemma {:induction false} SumUpdate(p: seq<Byte>, i: nat, c: Byte)
    requires i < |p|
    ensures Sum(p[i := c]) == Sum(p) - p[i] + c
  {
    var k := |p| - 1;
    if i < k {
      SumUpdate(p[..k], i, c);
      assert p[i := c][..k] == p[..k][i := c];
    } else {
      assert p[i := c][..k] == p[..k];
    }
  }

  lemma SmallDifference(s: int, a: int, b: int)
    requires 0 <= a < 128 && 0 <= b < 128
    ensures (s % 256 == (s - a + b) % 256) <==> a == b
  {}

  lemma DamagedSum(p: seq<Byte>, i: nat, c: Byte)
    requires SevenBit(p) && i < |p| && c < 128
    ensures Sum(p[i := c]) % 256 == Sum(p) % 256 <==> c == p[i]
  {
    SumUpdate(p, i, c);
    SmallDifference(Sum(p), p[i], c);
  }

  // What follows the damaged character, up to the end of the line.
  function Behind(p: seq<Byte>, i: nat, rest: seq<Byte>): (x: seq<Byte>)
    requires i < |p|
    ensures |x| >= 3
  {
    p[i + 1..] + [End, High(p), Low(p)] + rest
  }

  // A character that becomes an end character cuts the packet off: what follows it is taken for the
  // checksum.
  lemma CutOff(p: seq<Byte>, i: nat, rest: seq<Byte>, maxlen: nat)
    requires Payload(p, maxlen) && i < |p|
    ensures var x := Behind(p, i, rest);
      Try(Sent(p[i := End], High(p), Low(p)) + rest, maxlen) ==
      if Sum(p[..i]) % 256 == Digit2I(x[0]) * 16 + Digit2I(x[1]) then Good(p[..i], x[2..]) else Bad(p[..i], x[2..])
  {
    var x := Behind(p, i, rest);
    assert p[i := End] == p[..i] + [End] + p[i + 1..];
    assert Sent(p[i := End], High(p), Low(p)) + rest == [] + [Start] + p[..i] + [End] + x;
    TryWhole([], p[..i], x, maxlen);
    MaskSeven(p[..i]);
  }

  lemma CharacterDamage(p: seq<Byte>, i: nat, c: Byte, rest: seq<Byte>, maxlen: nat)
    requires Payload(p, maxlen) && i < |p| && c != End
    ensures var d := Sent(p[i := c], High(p), Low(p));
      Try(d + rest, maxlen) == if c % 128 == p[i] then Good(p, rest) else Bad(p[i := c % 128], rest)
  {
    var q, c': Byte := p[i := c], c % 128;
    TrySent([], q, High(p), Low(p), rest, maxlen);
    assert [] + Sent(q, High(p), Low(p)) + rest == Sent(q, High(p), Low(p)) + rest;
    MaskUpdate(p, i, c, c');
    DamagedSum(p, i, c');
    DigitsSpell(p);
  }

  /** One damaged payload character is noticed exactly if its low seven bits changed; but one that
      becomes an end character is noticed exactly if the two characters after it do not spell the
      checksum of those before it. */
  lemma PayloadDamage(p: seq<Byte>, i: nat, c: Byte, rest: seq<Byte>, maxlen: nat)
    requires Payload(p, maxlen) && i < |p|
    ensures var a, x := Try(Sent(p[i := c], High(p), Low(p)) + rest, maxlen), Behind(p, i, rest);
      && (c != End ==> a == if c % 128 == p[i] then Good(p, rest) else Bad(p[i := c % 128], rest))
      && (c == End ==> !a.Starved? && a.payload == p[..i] && a.rest == x[2..]
                       && (a.Good? <==> Sum(p[..i]) % 256 == Digit2I(x[0]) * 16 + Digit2I(x[1])))
  {
    if c == End {
      CutOff(p, i, rest, maxlen);
    } else {
      CharacterDamage(p, i, c, rest, maxlen);
    }
  }

  /** A packet "A00" whose first character becomes an end character is accepted as an empty one. */
  lemma CutOffAccepted()
    ensures var p: seq<Byte> := [65, 48, 48];
      Try(Sent(p[0 := End], High(p), Low(p)), 10) == Good([], [End, High(p), Low(p)])
  {
    var p: seq<Byte> := [65, 48, 48];
    CutOff(p, 0, [], 10);
    var x := Behind(p, 0, []);
    assert x[2..] == [End, High(p), Low(p)];
    assert Sent(p[0 := End], High(p), Low(p)) + [] == Sent(p[0 := End], High(p), Low(p));
    assert p[..0] == [];
  }

  /** Damaged checksum digits are noticed exactly if they do not spell the checksum; a character
      that is not a digit counts as -1. */
  lemma ChecksumDamage(p: seq<Byte>, high: Byte, low: Byte, rest: seq<Byte>, maxlen: nat)
    requires Payload(p, maxlen)
    ensures Try(Sent(p, high, low) + rest, maxlen) ==
            if Sum(p) % 256 == Digit2I(high) * 16 + Digit2I(low) then Good(p, rest) else Bad(p, rest)
  {
    assert [] + Sent(p, high, low) + rest == Sent(p, high, low) + rest;
    TrySent([], p, high, low, rest, maxlen);
    MaskSeven(p);
  }

  // So one damaged digit is noticed exactly if its value changed.
  lemma DigitDamage(p: seq<Byte>, c: Byte, rest: seq<Byte>, maxlen: nat)
    requires Payload(p, maxlen)
    ensures var high, low := High(p), Low(p);
      && (Try(Sent(p, c, low) + rest, maxlen).Good? <==> Digit2I(c) == Digit2I(high))
      && (Try(Sent(p, high, c) + rest, maxlen).Good? <==> Digit2I(c) == Digit2I(low))
  {
    var high, low := High(p), Low(p);
    DigitsSpell(p);
    OneDigit(Digit2I(high), Digit2I(low), Digit2I(c));
    ChecksumDamage(p, c, low, rest, maxlen);
    ChecksumDamage(p, high, c, rest, maxlen);
  }

  lemma OneDigit(h: int, l: int, x: int)
    ensures h * 16 + l == x * 16 + l <==> x == h
    ensures h * 16 + l == h * 16 + x <==> x == l
  {}

  /** Two damaged digits can agree with a checksum they do not spell: a payload with checksum 15
      is accepted with the digits "1x". */
  lemma BadDigitAccepted()
    ensures Digit2I(120) == -1 && Try(Sent([15], 49, 120), 10) == Good([15], [])
  {
    var p: seq<Byte> := [15];
    assert Sum(p) == Sum(p[..0]) + 15 == 15;
    ChecksumDamage(p, 49, 120, [], 10);
    assert Sent(p, 49, 120) + [] == Sent(p, 49, 120);
  }

  // ---------------------------------------------------------------- retransmission

  lemma {:induction false} SkipMore(x: seq<Byte>, more: seq<Byte>)
    requires Skip(x).Some?
    ensures Skip(x + more) == Some(Skip(x).value + more)
  {
    if x[0] == Start {
      assert (x + more)[1..] == x[1..] + more;
    } else {
      assert (x + more)[1..] == x[1..] + more;
      SkipMore(x[1..], more);
    }
  }

  lemma {:induction false} BodyMore(x: seq<Byte>, room: nat, more: seq<Byte>)
    requires Body(x, room).Some?
    ensures Body(x + more, room) == Some(Split(Body(x, room).value.payload, Body(x, room).value.rest + more))
    decreases x
  {
    assert (x + more)[1..] == x[1..] + more;
    if x[0] != End && room > 0 {
      BodyMore(x[1..], room - 1, more);
    }
  }

  // An attempt that ends does not depend on what comes later.
  lemma TryMore(x: seq<Byte>, maxlen: nat, more: seq<Byte>)
    requires !Try(x, maxlen).Starved?
    ensures var a := Try(x, maxlen);
      Try(x + more, maxlen) == if a.Good? then Good(a.payload, a.rest + more) else Bad(a.payload, a.rest + more)
  {
    SkipMore(x, more);
    var r := Skip(x).value;
    BodyMore(r, maxlen, more);
    var s := Body(r, maxlen).value;
    if |s.payload| < maxlen {
      assert (s.rest + more)[2..] == s.rest[2..] + more;
    }
  }

  // The damage in a frame is noticed, and no start character is left of it.
  predicate Noticed(d: seq<Byte>, maxlen: nat) {
    var a := Try(d, maxlen);
    a.Bad? && Start !in a.rest
  }

  predicate AllNoticed(ds: seq<seq<Byte>>, maxlen: nat) {
    forall i :: 0 <= i < |ds| ==> Noticed(ds[i], maxlen)
  }

  // None of them fills a buffer with this many places.
  predicate Short(ds: seq<seq<Byte>>, maxlen: nat, places: nat) {
    forall i :: 0 <= i < |ds| ==> Leaves(ds[i], maxlen, places)
  }

  predicate Leaves(d: seq<Byte>, maxlen: nat, places: nat) {
    var a := Try(d, maxlen);
    a.Starved? || |a.payload| < places
  }

  function Flat(ds: seq<seq<Byte>>): seq<Byte> {
    if ds == [] then [] else ds[0] + Flat(ds[1..])
  }

  // The buffer after damaged frames.
  function After(buffer: seq<Byte>, maxlen: nat, ds: seq<seq<Byte>>): (b: seq<Byte>)
    requires Room(buffer, maxlen) && AllNoticed(ds, maxlen)
    ensures |b| == |buffer|
    decreases |ds|
  {
    if ds == [] then buffer else After(Overlay(buffer, Try(ds[0], maxlen).payload), maxlen, ds[1..])
  }

  function Complaints(n: nat): seq<Byte> {
    if n == 0 then [] else [BadP] + Complaints(n - 1)
  }

  // The session goes on as s, n complaints later.
  predicate Later(all: Session, n: nat, s: Session) {
    all == s.(replies := Complaints(n) + s.replies)
  }

  lemma OneMore(all: Session, next: Session, n: nat, s: Session)
    requires all == next.(replies := [BadP] + next.replies) && Later(next, n, s)
    ensures Later(all, n + 1, s)
  {
    assert [BadP] + (Complaints(n) + s.replies) == ([BadP] + Complaints(n)) + s.replies;
  }

  // What arrives: noise, damaged frames, and more.
  predicate Splits(noise: seq<Byte>, ds: seq<seq<Byte>>, x: seq<Byte>, input: seq<Byte>) {
    input == noise + Flat(ds) + x
  }

  lemma SplitNone(ds: seq<seq<Byte>>, x: seq<Byte>)
    ensures Splits([], ds, x, Flat(ds) + x)
  {}

  lemma SplitsNext(noise: seq<Byte>, ds: seq<seq<Byte>>, x: seq<Byte>, input: seq<Byte>, rest: seq<Byte>)
    requires ds != [] && Splits(noise, ds, x, input)
    ensures input == noise + (ds[0] + (Flat(ds[1..]) + x)) && Splits(rest, ds[1..], x, rest + (Flat(ds[1..]) + x))
  {}

  lemma TryFirst(noise: seq<Byte>, d: seq<Byte>, more: seq<Byte>, maxlen: nat, a: Attempt)
    requires Start !in noise && a == Try(d, maxlen) && a.Bad?
    ensures Try(noise + (d + more), maxlen) == Bad(a.payload, a.rest + more)
  {
    SkipNoise(noise, d + more);
    TryMore(d, maxlen, more);
  }

  lemma ReceiveBad(buffer: seq<Byte>, maxlen: nat, input: seq<Byte>, p: seq<Byte>, rest: seq<Byte>)
    requires Room(buffer, maxlen) && Try(input, maxlen) == Bad(p, rest)
    ensures |p| >= |buffer| ==> Receive(buffer, maxlen, input).outcome == Overrun
    ensures |p| < |buffer| ==>
      var s := Receive(Overlay(buffer, p), maxlen, rest); Receive(buffer, maxlen, input) == s.(replies := [BadP] + s.replies)
  {}

  lemma AfterNext(buffer: seq<Byte>, maxlen: nat, ds: seq<seq<Byte>>, a: Attempt)
    requires Room(buffer, maxlen) && AllNoticed(ds, maxlen) && ds != [] && a == Try(ds[0], maxlen)
    ensures a.Bad? && Start !in a.rest && |a.payload| <= maxlen && AllNoticed(ds[1..], maxlen)
    ensures After(buffer, maxlen, ds) == After(Overlay(buffer, a.payload), maxlen, ds[1..])
    ensures Short(ds, maxlen, |buffer|) <==> |a.payload| < |buffer| && Short(ds[1..], maxlen, |buffer|)
  {
    assert Noticed(ds[0], maxlen);
    ShortFirst(ds, maxlen, |buffer|);
  }

  lemma ShortFirst(ds: seq<seq<Byte>>, maxlen: nat, places: nat)
    requires ds != []
    ensures Short(ds, maxlen, places) <==> Leaves(ds[0], maxlen, places) && Short(ds[1..], maxlen, places)
  {
    if Leaves(ds[0], maxlen, places) && Short(ds[1..], maxlen, places) {
      forall i | 0 <= i < |ds|
        ensures Leaves(ds[i], maxlen, places)
      {
        assert i > 0 ==> Leaves(ds[1..][i - 1], maxlen, places);
      }
    } else if Short(ds, maxlen, places) {
      forall i | 0 <= i < |ds[1..]|
        ensures Leaves(ds[1..][i], maxlen, places)
      {
        assert Leaves(ds[i + 1], maxlen, places);
      }
    }
  }

  // The first of several damaged frames.
  lemma FirstDamage(buffer: seq<Byte>, maxlen: nat, noise: seq<Byte>, ds: seq<seq<Byte>>, x: seq<Byte>,
                    input: seq<Byte>, a: Attempt, more: seq<Byte>)
    requires Room(buffer, maxlen) && Start !in noise && ds != [] && Splits(noise, ds, x, input)
    requires a == Try(ds[0], maxlen) && a.Bad? && more == Flat(ds[1..]) + x && |a.payload| <= maxlen
    ensures Splits(a.rest, ds[1..], x, a.rest + more)
    ensures |a.payload| >= |buffer| ==> Receive(buffer, maxlen, input).outcome == Overrun
    ensures |a.payload| < |buffer| ==>
      var s := Receive(Overlay(buffer, a.payload), maxlen, a.rest + more);
      Receive(buffer, maxlen, input) == s.(replies := [BadP] + s.replies)
  {
    SplitsNext(noise, ds, x, input, a.rest);
    TryFirst(noise, ds[0], more, maxlen, a);
    ReceiveBad(buffer, maxlen, input, a.payload, a.rest + more);
  }

  // Every damaged frame is answered by one complaint, and then reception starts afresh.
  lemma {:induction false} DamageSkipped(buffer: seq<Byte>, maxlen: nat, noise: seq<Byte>, ds: seq<seq<Byte>>,
                                         x: seq<Byte>, input: seq<Byte>) returns (noise': seq<Byte>)
    requires Room(buffer, maxlen) && Start !in noise && AllNoticed(ds, maxlen) && Short(ds, maxlen, |buffer|)
    requires Splits(noise, ds, x, input)
    ensures Start !in noise'
    ensures Later(Receive(buffer, maxlen, input), |ds|, Receive(After(buffer, maxlen, ds), maxlen, noise' + x))
    decreases |ds|
  {
    if ds == [] {
      noise' := noise;
      assert input == noise + x;
      NoComplaint(Receive(buffer, maxlen, input));
    } else {
      var a, more := Try(ds[0], maxlen), Flat(ds[1..]) + x;
      AfterNext(buffer, maxlen, ds, a);
      FirstDamage(buffer, maxlen, noise, ds, x, input, a, more);
      noise' := DamageSkipped(Overlay(buffer, a.payload), maxlen, a.rest, ds[1..], x, a.rest + more);
      OneMore(Receive(buffer, maxlen, input), Receive(Overlay(buffer, a.payload), maxlen, a.rest + more), |ds| - 1,
              Receive(After(buffer, maxlen, ds), maxlen, noise' + x));
    }
  }

  lemma NoComplaint(s: Session)
    ensures Later(s, 0, s)
  {
    assert Complaints(0) + s.replies == s.replies;
  }

  // A damaged copy that fills the buffer ends it all.
  lemma {:induction false} DamageOverruns(buffer: seq<Byte>, maxlen: nat, noise: seq<Byte>, ds: seq<seq<Byte>>,
                                          x: seq<Byte>, input: seq<Byte>)
    requires Room(buffer, maxlen) && Start !in noise && AllNoticed(ds, maxlen) && !Short(ds, maxlen, |buffer|)
    requires Splits(noise, ds, x, input)
    ensures Receive(buffer, maxlen, input).outcome == Overrun
    decreases |ds|
  {
    var a, more := Try(ds[0], maxlen), Flat(ds[1..]) + x;
    AfterNext(buffer, maxlen, ds, a);
    FirstDamage(buffer, maxlen, noise, ds, x, input, a, more);
    if |a.payload| < |buffer| {
      DamageOverruns(Overlay(buffer, a.payload), maxlen, a.rest, ds[1..], x, a.rest + more);
    }
  }

  lemma {:induction false} CopiesOf(n: nat, good: Byte, tail: seq<Byte>)
    requires good % 128 != BadP
    ensures Copies(Complaints(n) + [good] + tail) == Some(n + 1)
  {
    var s := Complaints(n) + [good] + tail;
    if n > 0 {
      assert s[1..] == Complaints(n - 1) + [good] + tail;
      CopiesOf(n - 1, good, tail);
    } else {
      assert s[0] == good;
    }
  }

  lemma LastAttempt(buffer: seq<Byte>, maxlen: nat, noise: seq<Byte>, p: seq<Byte>)
    requires Room(buffer, maxlen) && Start !in noise && Payload(p, maxlen)
    ensures Receive(buffer, maxlen, noise + Frame(p)) == Finish(Overlay(buffer, p), |p|, [])
  {
    IntactAccepted(noise, p, [], maxlen);
    assert noise + Frame(p) + [] == noise + Frame(p);
  }

  // n complaints, and then a packet of this length in this buffer: the sender stops after n + 1
  // copies, and the packet is delivered as it was sent exactly if there is no colon in third place.
  predicate Delivers(all: Session, n: nat, b: seq<Byte>, len: nat)
    requires |b| >= 3
  {
    && all.rest == [] && Copies(all.replies) == Some(n + 1)
    && (all.outcome == Length(len) <==> b[2] != Colon)
    && (b[2] != Colon ==> all.buffer == b && all.replies == Complaints(n) + [GoodP])
  }

  lemma Finished(all: Session, n: nat, b: seq<Byte>, len: nat)
    requires len < |b| && |b| >= 3 && Later(all, n, Finish(b, len, []))
    ensures Delivers(all, n, b, len) && all.outcome != Overrun
  {
    var last := Finish(b, len, []);
    assert last.replies == [GoodP] + last.replies[1..];
    assert all.replies == Complaints(n) + [GoodP] + last.replies[1..];
    CopiesOf(n, GoodP, last.replies[1..]);
  }

  // Damaged copies and then an intact one.
  lemma Arrives(buffer: seq<Byte>, maxlen: nat, ds: seq<seq<Byte>>, p: seq<Byte>, was: seq<Byte>)
    requires Room(buffer, maxlen) && Payload(p, maxlen) && AllNoticed(ds, maxlen) && Short(ds, maxlen, |buffer|)
    requires was == After(buffer, maxlen, ds)
    ensures Later(Receive(buffer, maxlen, Flat(ds) + Frame(p)), |ds|, Finish(Overlay(was, p), |p|, []))
  {
    var x := Frame(p);
    SplitNone(ds, x);
    var noise := DamageSkipped(buffer, maxlen, [], ds, x, Flat(ds) + x);
    LastAttempt(was, maxlen, noise, p);
  }

  /** Any number of noticed damages and then an intact copy: the receiver complains once for each
      damaged copy, and the sender stops after exactly the copies that were received.  The packet
      is delivered as it was sent if and only if the buffer then has no colon in third place.  But a
      damaged copy that fills the buffer overruns it. */
  lemma DeliveredExactlyOnce(buffer: seq<Byte>, maxlen: nat, ds: seq<seq<Byte>>, p: seq<Byte>)
    requires Room(buffer, maxlen) && Payload(p, maxlen) && AllNoticed(ds, maxlen)
    ensures Short(ds, maxlen, |buffer|) ==>
      Delivers(Receive(buffer, maxlen, Flat(ds) + Frame(p)), |ds|, Overlay(After(buffer, maxlen, ds), p), |p|)
    ensures Receive(buffer, maxlen, Flat(ds) + Frame(p)).outcome == Overrun <==> !Short(ds, maxlen, |buffer|)
  {
    if Short(ds, maxlen, |buffer|) {
      ShortDelivered(buffer, maxlen, ds, p, Receive(buffer, maxlen, Flat(ds) + Frame(p)));
    } else {
      LongOverruns(buffer, maxlen, ds, Frame(p), Receive(buffer, maxlen, Flat(ds) + Frame(p)));
    }
  }

  lemma ShortDelivered(buffer: seq<Byte>, maxlen: nat, ds: seq<seq<Byte>>, p: seq<Byte>, all: Session)
    requires Room(buffer, maxlen) && Payload(p, maxlen) && AllNoticed(ds, maxlen) && Short(ds, maxlen, |buffer|)
    requires all == Receive(buffer, maxlen, Flat(ds) + Frame(p))
    ensures Delivers(all, |ds|, Overlay(After(buffer, maxlen, ds), p), |p|) && all.outcome != Overrun
  {
    var was := After(buffer, maxlen, ds);
    Arrives(buffer, maxlen, ds, p, was);
    Finished(all, |ds|, Overlay(was, p), |p|);
  }

  lemma LongOverruns(buffer: seq<Byte>, maxlen: nat, ds: seq<seq<Byte>>, x: seq<Byte>, all: Session)
    requires Room(buffer, maxlen) && AllNoticed(ds, maxlen) && !Short(ds, maxlen, |buffer|)
    requires all == Receive(buffer, maxlen, Flat(ds) + x)
    ensures all.outcome == Overrun
  {
    SplitNone(ds, x);
    DamageOverruns(buffer, maxlen, [], ds, x, Flat(ds) + x);
  }

  /** A negative length is passed to memcpy if and only if the payload has fewer than two characters
      and the buffer holds a colon from before in third place. */
  lemma UndefinedIff(buffer: seq<Byte>, maxlen: nat, ds: seq<seq<Byte>>, p: seq<Byte>)
    requires Room(buffer, maxlen) && Payload(p, maxlen) && AllNoticed(ds, maxlen)
    ensures Receive(buffer, maxlen, Flat(ds) + Frame(p)).outcome == Undefined <==>
            Short(ds, maxlen, |buffer|) && |p| < 2 && After(buffer, maxlen, ds)[2] == Colon
  {
    if Short(ds, maxlen, |buffer|) {
      var was := After(buffer, maxlen, ds);
      Arrives(buffer, maxlen, ds, p, was);
      FinishUndefined(Receive(buffer, maxlen, Flat(ds) + Frame(p)), |ds|, was, p);
    } else {
      DeliveredExactlyOnce(buffer, maxlen, ds, p);
    }
  }

  lemma FinishUndefined(all: Session, n: nat, was: seq<Byte>, p: seq<Byte>)
    requires |p| < |was| && |was| >= 3 && Later(all, n, Finish(Overlay(was, p), |p|, []))
    ensures all.outcome == Undefined <==> |p| < 2 && was[2] == Colon
  {}

  /** Two intact packets into one buffer, "ab:c" and then "?". */
  lemma UndefinedReached(buffer: seq<Byte>, maxlen: nat)
    requires Room(buffer, maxlen) && maxlen > 4
    ensures var s := Receive(buffer, maxlen, Frame([97, 98, Colon, 99]));
      && s.outcome == Length(1) && |s.buffer| == |buffer|
      && Receive(s.buffer, maxlen, Frame([63])).outcome == Undefined
  {
    var p: seq<Byte>, q: seq<Byte> := [97, 98, Colon, 99], [63];
    assert [] + Frame(p) == Frame(p) && [] + Frame(q) == Frame(q);
    LastAttempt(buffer, maxlen, [], p);
    LastAttempt(Receive(buffer, maxlen, Frame(p)).buffer, maxlen, [], q);
  }

  // From two characters on, the buffer's old contents do not matter.
  lemma LongPayload(buffer: seq<Byte>, p: seq<Byte>)
    requires 2 <= |p| < |buffer|
    ensures Overlay(buffer, p)[2] != Colon <==> (|p| == 2 || p[2] != Colon)
    ensures Overlay(buffer, p)[..|p| + 1] == p + [0]
  {}

  /** A payload with a colon in third place loses its first three characters: "qC:ab" is delivered
      as "ab", of length 2. */
  lemma ColonThird(buffer: seq<Byte>, maxlen: nat)
    requires Room(buffer, maxlen) && maxlen > 5
    ensures var s := Receive(buffer, maxlen, Frame([113, 67, Colon, 97, 98]));
      s.outcome == Length(2) && [97, 98] <= s.buffer && s.replies == [GoodP, 113, 67]
  {
    var p: seq<Byte> := [113, 67, Colon, 97, 98];
    LastAttempt(buffer, maxlen, [], p);
    assert [] + Frame(p) == Frame(p);
    var b := Overlay(buffer, p);
    assert b[3..5] == [97, 98];
  }

  /** As long as only damaged copies have arrived, the receiver has complained about each of them
      and waits. */
  lemma WaitsAfterDamage(buffer: seq<Byte>, maxlen: nat, ds: seq<seq<Byte>>)
    requires Room(buffer, maxlen) && AllNoticed(ds, maxlen)
    ensures var s := Receive(buffer, maxlen, Flat(ds));
      && (Short(ds, maxlen, |buffer|) ==>
            s.outcome == Hung && s.replies == Complaints(|ds|) && Copies(s.replies) == None)
      && (!Short(ds, maxlen, |buffer|) ==> s.outcome == Overrun)
  {
    assert Splits([], ds, [], Flat(ds));
    if !Short(ds, maxlen, |buffer|) {
      DamageOverruns(buffer, maxlen, [], ds, [], Flat(ds));
      return;
    }
    var noise := DamageSkipped(buffer, maxlen, [], ds, [], Flat(ds));
    SkipNoise(noise, []);
    assert noise + [] == noise;
    var s := Receive(buffer, maxlen, Flat(ds));
    assert s.replies == Complaints(|ds|);
    ComplaintsOnly(|ds|);
  }

  lemma {:induction false} ComplaintsOnly(n: nat)
    ensures Copies(Complaints(n)) == None
  {
    if n > 0 {
      assert Complaints(n)[1..] == Complaints(n - 1);
      ComplaintsOnly(n - 1);
    }
  }

  // ---------------------------------------------------------------- packets that fill the buffer

  // The attempts that are made on an input: one more after each that fails.
  function Attempts(input: seq<Byte>, maxlen: nat): (s: seq<Attempt>)
    ensures |s| > 0
    decreases |input|
  {
    var a := Try(input, maxlen);
    [a] + if a.Bad? then Attempts(a.rest, maxlen) else []
  }

  predicate Fills(a: Attempt, places: nat) {
    a.Bad? && |a.payload| >= places
  }

  predicate SomeFills(s: seq<Attempt>, places: nat) {
    exists k :: 0 <= k < |s| && Fills(s[k], places)
  }

  lemma SomeFillsNext(a: Attempt, s: seq<Attempt>, places: nat)
    ensures SomeFills([a] + s, places) <==> Fills(a, places) || SomeFills(s, places)
  {
    if SomeFills(s, places) {
      var k :| 0 <= k < |s| && Fills(s[k], places);
      assert ([a] + s)[k + 1] == s[k];
    }
    if Fills(a, places) {
      assert Fills(([a] + s)[0], places);
    }
  }

  /** The terminator is written behind the buffer if and only if an attempt fails with as many
      characters as the buffer has places. */
  lemma {:induction false} OverrunIff(buffer: seq<Byte>, maxlen: nat, input: seq<Byte>)
    requires Room(buffer, maxlen)
    ensures Receive(buffer, maxlen, input).outcome == Overrun <==> SomeFills(Attempts(input, maxlen), |buffer|)
    decreases |input|
  {
    var a := Try(input, maxlen);
    SomeFillsNext(a, if a.Bad? then Attempts(a.rest, maxlen) else [], |buffer|);
    if a.Bad? && |a.payload| < |buffer| {
      OverrunIff(Overlay(buffer, a.payload), maxlen, a.rest);
    }
  }

  lemma {:induction false} BodyFull(p: seq<Byte>, rest: seq<Byte>)
    requires End !in p && rest != []
    ensures Body(p + rest, |p|) == Some(Split(Mask(p), rest[1..]))
    decreases |p|
  {
    if p == [] {
      assert p + rest == rest;
    } else {
      assert (p + rest)[1..] == p[1..] + rest;
      BodyFull(p[1..], rest);
      assert [p[0] % 128] + Mask(p[1..]) == Mask(p);
    }
  }

  /** A buffer as long as the limit, and as many characters without an end character. */
  lemma OverrunReached(buffer: seq<Byte>, p: seq<Byte>, c: Byte)
    requires |buffer| == |p| >= 3 && End !in p
    ensures Receive(buffer, |p|, [Start] + p + [c]).outcome == Overrun
  {
    var input := [Start] + p + [c];
    assert input[1..] == p + [c];
    BodyFull(p, [c]);
  }

  // ---------------------------------------------------------------- memory blocks

  predicate HexDigit(c: Byte) {
    Digit2I(c) >= 0
  }

  // How many hexadecimal digits there are from i on.
  function HexRun(s: seq<Byte>, i: nat): nat
    decreases |s| - i
  {
    if i < |s| && HexDigit(s[i]) then 1 + HexRun(s, i + 1) else 0
  }

  function Pair(s: seq<Byte>, i: nat): int
    requires i + 1 < |s|
  {
    Digit2I(s[i]) * 16 + Digit2I(s[i + 1])
  }

  predicate Pairs(s: seq<Byte>, i: nat, bytes: seq<Byte>) {
    forall k :: 0 <= k < |bytes| ==> i + 2 * k + 1 < |s| && bytes[k] == Pair(s, i + 2 * k)
  }

  predicate Stops(n: nat, i: nat, maxlen: nat, bytes: nat, end: Option<nat>) {
    && bytes == (if n / 2 < maxlen then n / 2 else maxlen)
    && end == (if n / 2 < maxlen && n % 2 == 1 then None else Some(i + 2 * bytes))
  }

  lemma PairsStep(s: seq<Byte>, i: nat, bytes: seq<Byte>, b: Byte)
    requires i + 1 < |s| && b == Pair(s, i) && Pairs(s, i + 2, bytes)
    ensures Pairs(s, i, [b] + bytes)
  {
    forall k | 0 <= k < |bytes| + 1
      ensures i + 2 * k + 1 < |s| && ([b] + bytes)[k] == Pair(s, i + 2 * k)
    {
      if k > 0 {
        assert i + 2 + 2 * (k - 1) == i + 2 * k;
        assert ([b] + bytes)[k] == bytes[k - 1];
      }
    }
  }

  lemma StopsStep(n: nat, i: nat, maxlen: nat, bytes: nat, end: Option<nat>)
    requires maxlen > 0 && Stops(n, i + 2, maxlen - 1, bytes, end)
    ensures Stops(n + 2, i, maxlen, bytes + 1, end)
  {}

  lemma RunStep(s: seq<Byte>, i: nat)
    ensures !HexDigit(At(s, i)) ==> HexRun(s, i) == 0
    ensures HexDigit(At(s, i)) && !HexDigit(At(s, i + 1)) ==> HexRun(s, i) == 1
    ensures HexDigit(At(s, i)) && HexDigit(At(s, i + 1)) ==> i + 1 < |s| && HexRun(s, i) == 2 + HexRun(s, i + 2)
  {
    assert !HexDigit(0);
  }

  lemma {:induction false} UnhexStops(s: seq<Byte>, i: nat, maxlen: nat)
    ensures var r := Unhex(s, i, maxlen); Stops(HexRun(s, i), i, maxlen, |r.bytes|, r.end)
    decreases maxlen
  {
    RunStep(s, i);
    if maxlen > 0 && HexDigit(At(s, i)) && HexDigit(At(s, i + 1)) {
      UnhexStops(s, i + 2, maxlen - 1);
      var r := Unhex(s, i + 2, maxlen - 1);
      StopsStep(HexRun(s, i + 2), i, maxlen, |r.bytes|, r.end);
    }
  }

  lemma {:induction false} UnhexPairs(s: seq<Byte>, i: nat, maxlen: nat)
    ensures Pairs(s, i, Unhex(s, i, maxlen).bytes)
    decreases maxlen
  {
    if maxlen > 0 && At(s, i) != 0 && HexDigit(At(s, i)) && HexDigit(At(s, i + 1)) {
      UnhexPairs(s, i + 2, maxlen - 1);
      PairsStep(s, i, Unhex(s, i + 2, maxlen - 1).bytes, Pair(s, i));
    }
  }

  /** Decoding stops behind maxlen bytes or behind the last digit, and gives a null pointer
      exactly if that is in the middle of a byte; byte k comes from the k-th pair of digits. */
  lemma UnhexMeaning(s: seq<Byte>, i: nat, maxlen: nat)
    ensures var r := Unhex(s, i, maxlen);
      Stops(HexRun(s, i), i, maxlen, |r.bytes|, r.end) && Pairs(s, i, r.bytes)
  {
    UnhexStops(s, i, maxlen);
    UnhexPairs(s, i, maxlen);
  }

  lemma {:induction false} HexAt(bytes: seq<Byte>, k: nat)
    requires k < |bytes|
    ensures Hex(bytes)[2 * k] == I2Digit(bytes[k] / 16) && Hex(bytes)[2 * k + 1] == I2Digit(bytes[k])
  {
    var n := |bytes| - 1;
    if k < n {
      HexAt(bytes[..n], k);
    }
  }

  lemma HexDigits(bytes: seq<Byte>)
    ensures forall i :: 0 <= i < |Hex(bytes)| ==> HexDigit(Hex(bytes)[i])
  {
    forall i | 0 <= i < |Hex(bytes)|
      ensures HexDigit(Hex(bytes)[i])
    {
      HexAt(bytes, i / 2);
      assert i == 2 * (i / 2) || i == 2 * (i / 2) + 1;
    }
  }

  lemma {:induction false} RunOf(s: seq<Byte>, i: nat, n: nat)
    requires i <= n < |s| && s[n] == 0 && forall k :: 0 <= k < n ==> HexDigit(s[k])
    ensures HexRun(s, i) == n - i
    decreases n - i
  {
    if i < n {
      RunOf(s, i + 1, n);
    }
  }

  /** Decoding undoes encoding, whatever follows the terminator. */
  lemma HexRoundTrip(bytes: seq<Byte>, tail: seq<Byte>, maxlen: nat)
    requires |bytes| <= maxlen
    ensures Unhex(Hex(bytes) + [0] + tail, 0, maxlen) == Decoded(bytes, Some(2 * |bytes|))
  {
    var h, n := Hex(bytes), |bytes|;
    var s := h + [0] + tail;
    HexDigits(bytes);
    assert forall k :: 0 <= k < 2 * n ==> s[k] == h[k];
    RunOf(s, 0, 2 * n);
    UnhexMeaning(s, 0, maxlen);
    var r := Unhex(s, 0, maxlen);
    assert Stops(2 * n, 0, maxlen, |r.bytes|, r.end);
    forall k | 0 <= k < n
      ensures r.bytes[k] == bytes[k]
    {
      HexAt(bytes, k);
      BothDigits(bytes[k]);
      assert r.bytes[k] == Pair(s, 0 + 2 * k);
    }
    assert r.bytes == bytes;
  }

  lemma BothDigits(b: Byte)
    ensures Digit2I(I2Digit(b / 16)) * 16 + Digit2I(I2Digit(b)) == b
  {}

  lemma HexChar(c: Byte)
    requires HexDigit(c)
    ensures c < 128 && c != End && c != Colon && c != 0
  {}

  lemma HexIsPayload(bytes: seq<Byte>, maxlen: nat)
    requires 2 * |bytes| < maxlen
    ensures Payload(Hex(bytes), maxlen) && Colon !in Hex(bytes)
    ensures 0 !in Hex(bytes)
  {
    HexDigits(bytes);
    var h := Hex(bytes);
    forall i | 0 <= i < |h|
      ensures h[i] < 128 && h[i] != End && h[i] != Colon && h[i] != 0
    {
      HexChar(h[i]);
    }
  }

  /** A block of memory put through encoding, framing, any number of noticed damages and decoding
      comes back unchanged. */
  lemma BlockSurvives(bytes: seq<Byte>, buffer: seq<Byte>, maxlen: nat, ds: seq<seq<Byte>>, room: nat)
    requires Room(buffer, maxlen) && 0 < |bytes| <= room && 2 * |bytes| < maxlen
    requires AllNoticed(ds, maxlen)
    ensures Short(ds, maxlen, |buffer|) ==>
      var s := Receive(buffer, maxlen, Flat(ds) + Frame(Hex(bytes)));
      && s.outcome == Length(2 * |bytes|) && s.replies == Complaints(|ds|) + [GoodP]
      && Unhex(s.buffer, 0, room) == Decoded(bytes, Some(2 * |bytes|))
  {
    var p := Hex(bytes);
    HexIsPayload(bytes, maxlen);
    DeliveredExactlyOnce(buffer, maxlen, ds, p);
    var was := After(buffer, maxlen, ds);
    LongPayload(was, p);
    HexRoundTrip(bytes, was[|p| + 1..], room);
  }
}
