/**
 The packets of the gdb remote serial protocol: '$', a payload, '#' and two hexadecimal digits of
 checksum, answered by '+' or '-'; and the hexadecimal coding of memory blocks.
 */
module GdbSpec {

  type Byte = b: int | 0 <= b < 256

  const Start: Byte := 36
  const End: Byte := 35
  const GoodP: Byte := 43
  const BadP: Byte := 45
  const Colon: Byte := 58

  datatype Option<+T> = None | Some(value: T)

  // ---------------------------------------------------------------- digits

  function Digit2I(c: Byte): (d: int)
    ensures -1 <= d < 16
  {
    if 48 <= c <= 57 then c - 48
    else if 97 <= c <= 102 then c - 97 + 10
    else if 65 <= c <= 70 then c - 65 + 10
    else -1
  }

  // The digit for the low four bits; the letters are lower case.
  function I2Digit(n: nat): (c: Byte)
    ensures Digit2I(c) == n % 16
  {
    if n % 16 < 10 then 48 + n % 16 else 87 + n % 16
  }

  function Hex(bytes: seq<Byte>): (s: seq<Byte>)
    ensures |s| == 2 * |bytes|
  {
    if bytes == [] then []
    else
      var k := |bytes| - 1;
      Hex(bytes[..k]) + [I2Digit(bytes[k] / 16), I2Digit(bytes[k])]
  }

  // ---------------------------------------------------------------- packets

  function Sum(s: seq<Byte>): nat {
    if s == [] then 0 else Sum(s[..|s| - 1]) + s[|s| - 1]
  }

  function High(p: seq<Byte>): Byte {
    I2Digit(Sum(p) % 256 / 16)
  }

  function Low(p: seq<Byte>): Byte {
    I2Digit(Sum(p) % 256)
  }

  function Frame(p: seq<Byte>): seq<Byte> {
    [Start] + p + [End, High(p), Low(p)]
  }

  // A string is followed by a terminator even if the sequence does not hold one.
  function At(s: seq<Byte>, i: nat): Byte {
    if i < |s| then s[i] else 0
  }

  function Terminator(s: seq<Byte>, i: nat): (k: nat)
    requires i <= |s|
    ensures i <= k <= |s|
    decreases |s| - i
  {
    if At(s, i) == 0 then i else Terminator(s, i + 1)
  }

  // The characters before the terminator.
  function CString(s: seq<Byte>): seq<Byte> {
    s[..Terminator(s, 0)]
  }

  function Repeat<T>(x: seq<T>, n: nat): seq<T> {
    if n == 0 then [] else Repeat(x, n - 1) + x
  }

  // How many copies a sender transmits: one more for every leading "bad packet" answer.
  function Copies(replies: seq<Byte>): Option<nat> {
    if replies == [] then None
    else if replies[0] % 128 != BadP then Some(1)
    else
      match Copies(replies[1..])
      case None => None
      case Some(n) => Some(n + 1)
  }

  // ---------------------------------------------------------------- one attempt to receive

  // What is left behind the start character.
  function Skip(input: seq<Byte>): (r: Option<seq<Byte>>)
    ensures r.Some? ==> |r.value| < |input|
  {
    if input == [] then None
    else if input[0] == Start then Some(input[1..])
    else Skip(input[1..])
  }

  datatype Split = Split(payload: seq<Byte>, rest: seq<Byte>)

  // The payload, seven bits of each character and at most room of them, and what is left behind
  // the character that ends it.
  function Body(input: seq<Byte>, room: nat): (r: Option<Split>)
    ensures r.Some? ==> |r.value.payload| <= room && |r.value.rest| < |input|
    decreases input
  {
    if input == [] then None
    else if input[0] == End || room == 0 then Some(Split([], input[1..]))
    else
      match Body(input[1..], room - 1)
      case None => None
      case Some(s) => Some(Split([input[0] % 128] + s.payload, s.rest))
  }

  datatype Attempt = Starved | Bad(payload: seq<Byte>, rest: seq<Byte>) | Good(payload: seq<Byte>, rest: seq<Byte>)

  function Checked(s: Split, maxlen: nat): Attempt {
    if |s.payload| >= maxlen then Bad(s.payload, s.rest)
    else if |s.rest| < 2 then Starved
    else if Sum(s.payload) % 256 - Digit2I(s.rest[0]) * 16 - Digit2I(s.rest[1]) == 0 then Good(s.payload, s.rest[2..])
    else Bad(s.payload, s.rest[2..])
  }

  function Try(input: seq<Byte>, maxlen: nat): (a: Attempt)
    ensures !a.Starved? ==> |a.rest| < |input| && |a.payload| <= maxlen
    ensures a.Good? ==> |a.payload| < maxlen
  {
    match Skip(input)
    case None => Starved
    case Some(r) =>
      match Body(r, maxlen)
      case None => Starved
      case Some(s) => Checked(s, maxlen)
  }

  // ---------------------------------------------------------------- receiving

  // Hung: the input ends while the receiver waits for more.  Undefined: a negative length is
  // passed to memcpy.  Overrun: the terminator is written behind the buffer.
  datatype Outcome = Hung | Length(len: nat) | Undefined | Overrun

  datatype Session = Session(outcome: Outcome, replies: seq<Byte>, rest: seq<Byte>, buffer: seq<Byte>)

  predicate Room(buffer: seq<Byte>, maxlen: nat) {
    |buffer| >= maxlen && |buffer| >= 3
  }

  // A payload, and its terminator if there is a place for it, written over an old buffer.
  function Overlay(buffer: seq<Byte>, p: seq<Byte>): (b: seq<Byte>)
    requires |p| <= |buffer|
    ensures |b| == |buffer|
  {
    if |p| < |buffer| then p + [0] + buffer[|p| + 1..] else p
  }

  // An optional sequence number is echoed and removed.
  function Finish(buffer: seq<Byte>, len: nat, rest: seq<Byte>): Session
    requires len < |buffer| && |buffer| >= 3
  {
    if buffer[2] != Colon then Session(Length(len), [GoodP], rest, buffer)
    else
      var replies := [GoodP, buffer[0], buffer[1]];
      if len < 3 then Session(Undefined, replies, rest, buffer)
      else Session(Length(len - 3), replies, rest, buffer[3..len] + buffer[len - 3..])
  }

  function Receive(buffer: seq<Byte>, maxlen: nat, input: seq<Byte>): Session
    requires Room(buffer, maxlen)
    decreases |input|
  {
    match Try(input, maxlen)
    case Starved => Session(Hung, [], [], buffer)
    case Good(p, rest) => Finish(Overlay(buffer, p), |p|, rest)
    case Bad(p, rest) =>
      if |p| >= |buffer| then Session(Overrun, [], rest, Overlay(buffer, p))
      else
        var s := Receive(Overlay(buffer, p), maxlen, rest);
        s.(replies := [BadP] + s.replies)
  }

  // ---------------------------------------------------------------- hexadecimal decoding

  // The bytes decoded, and where decoding stopped; None for a null pointer.
  datatype Decoded = Decoded(bytes: seq<Byte>, end: Option<nat>)

  function Unhex(s: seq<Byte>, i: nat, maxlen: nat): (r: Decoded)
    ensures |r.bytes| <= maxlen
    decreases maxlen
  {
    if At(s, i) == 0 || maxlen == 0 || Digit2I(At(s, i)) < 0 then Decoded([], Some(i))
    else if Digit2I(At(s, i + 1)) < 0 then Decoded([], None)
    else
      var r := Unhex(s, i + 2, maxlen - 1);
      Decoded([Digit2I(s[i]) * 16 + Digit2I(s[i + 1])] + r.bytes, r.end)
  }
}
