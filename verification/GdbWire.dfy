/**
 What goes over the wire, in the characters of the protocol and in plain sums: the frame of a payload,
 which frames are accepted, what answers make a sender repeat itself, and what becomes of a sequence
 number.
 */
module GdbWire {
  import opened GdbSpec
  import opened GdbTheorems

  const Lower := "0123456789abcdef"
  const Upper := "0123456789ABCDEF"

  function Char(c: char): (b: Byte)
    requires c < 256 as char
  {
    c as int
  }

  function LowerDigit(d: nat): Byte
    requires d < 16
  {
    Char(Lower[d])
  }

  function UpperDigit(d: nat): Byte
    requires d < 16
  {
    Char(Upper[d])
  }

  // The sum of the bytes, from the front.
  function Total(s: seq<Byte>): nat {
    if s == [] then 0 else s[0] + Total(s[1..])
  }

  lemma DigitCodes(d: nat)
    requires d < 16
    ensures LowerDigit(d) == if d < 10 then 48 + d else 87 + d
    ensures UpperDigit(d) == if d < 10 then 48 + d else 55 + d
  {}

  /** The digits that are read are those of the two tables, and the lower-case ones are written. */
  lemma DigitTable(c: Byte, d: nat)
    requires d < 16
    ensures Digit2I(c) == d <==> c == LowerDigit(d) || c == UpperDigit(d)
    ensures I2Digit(d) == LowerDigit(d)
  {
    DigitCodes(d);
  }

  lemma NoDigit(c: Byte)
    ensures Digit2I(c) == -1 <==> forall d: nat :: d < 16 ==> c != LowerDigit(d) && c != UpperDigit(d)
  {
    if Digit2I(c) >= 0 {
      DigitTable(c, Digit2I(c));
    } else {
      forall d: nat | d < 16
        ensures c != LowerDigit(d) && c != UpperDigit(d)
      {
        DigitTable(c, d);
      }
    }
  }

  lemma {:induction false} TotalAppend(s: seq<Byte>, b: Byte)
    ensures Total(s + [b]) == Total(s) + b
  {
    if s == [] {
      assert s + [b] == [b];
    } else {
      assert (s + [b])[1..] == s[1..] + [b];
      TotalAppend(s[1..], b);
    }
  }

  lemma {:induction false} SumIsTotal(s: seq<Byte>)
    ensures Sum(s) == Total(s)
  {
    if s != [] {
      var k := |s| - 1;
      SumIsTotal(s[..k]);
      TotalAppend(s[..k], s[k]);
      assert s[..k] + [s[k]] == s;
    }
  }

  lemma SameLowDigit(k: nat, r: nat)
    ensures (16 * k + r) % 16 == r % 16
  {}

  lemma DigitWritten(n: nat, d: nat)
    requires d == n % 16
    ensures I2Digit(n) == LowerDigit(d)
  {
    DigitCodes(d);
  }

  lemma SumDigits(t: nat)
    ensures I2Digit(t % 256 / 16) == LowerDigit(t % 256 / 16) && I2Digit(t % 256) == LowerDigit(t % 16)
  {
    SameLowDigit(16 * (t / 256), t % 256);
    DigitWritten(t % 256 / 16, t % 256 / 16);
    DigitWritten(t % 256, t % 16);
  }

  /** The frame of a payload: "$", the payload, "#", and the sum of its bytes modulo 256 in two digits,
      the high one first. */
  lemma FrameOnWire(p: seq<Byte>)
    ensures Frame(p) == [Char('$')] + p + [Char('#'), LowerDigit(Total(p) % 256 / 16), LowerDigit(Total(p) % 16)]
  {
    SumIsTotal(p);
    SumDigits(Total(p));
  }

  /** The packet for "OK", as every description of the protocol has it. */
  lemma FrameOfOk()
    ensures Frame([Char('O'), Char('K')]) ==
            [Char('$'), Char('O'), Char('K'), Char('#'), Char('9'), Char('a')]
  {
    var p: seq<Byte> := [Char('O'), Char('K')];
    assert p[1..] == [Char('K')] && p[1..][1..] == [];
    assert Total(p) == 154;
    FrameOnWire(p);
  }

  predicate Spells(c: Byte, d: nat)
    requires d < 16
  {
    c == LowerDigit(d) || c == UpperDigit(d)
  }

  /** A frame with any two digits is accepted if and only if they spell the sum of the payload. */
  lemma AcceptedIff(p: seq<Byte>, high: nat, low: nat, h: Byte, l: Byte, rest: seq<Byte>, maxlen: nat)
    requires Payload(p, maxlen) && high < 16 && low < 16 && Spells(h, high) && Spells(l, low)
    ensures Try([Char('$')] + p + [Char('#'), h, l] + rest, maxlen) ==
            if Total(p) % 256 == 16 * high + low then Good(p, rest) else Bad(p, rest)
  {
    DigitTable(h, high);
    DigitTable(l, low);
    AcceptedDigits(p, h, l, rest, maxlen);
  }

  lemma AcceptedDigits(p: seq<Byte>, h: Byte, l: Byte, rest: seq<Byte>, maxlen: nat)
    requires Payload(p, maxlen)
    ensures var input := [Char('$')] + p + [Char('#'), h, l] + rest;
      Try(input, maxlen) == if Total(p) % 256 == Digit2I(h) * 16 + Digit2I(l) then Good(p, rest) else Bad(p, rest)
  {
    SumIsTotal(p);
    MaskSeven(p);
    TrySent([], p, h, l, rest, maxlen);
    SentOnWire(p, h, l, rest);
  }

  lemma SentOnWire(p: seq<Byte>, h: Byte, l: Byte, rest: seq<Byte>)
    ensures [] + Sent(p, h, l) + rest == [Char('$')] + p + [Char('#'), h, l] + rest
  {}

  // The low seven bits are "-".
  predicate Minus(b: Byte) {
    b % 128 == Char('-')
  }

  predicate LeadingMinuses(replies: seq<Byte>, n: nat) {
    n <= |replies| && forall i :: 0 <= i < n ==> Minus(replies[i])
  }

  /** A sender transmits n + 1 copies if and only if the answers begin with exactly n "-", and runs out of
      answers if and only if there is nothing else. */
  lemma {:induction false} CopiesIff(replies: seq<Byte>, n: nat)
    ensures Copies(replies) == Some(n + 1) <==> LeadingMinuses(replies, n) && n < |replies| && !Minus(replies[n])
    ensures Copies(replies) == None <==> LeadingMinuses(replies, |replies|)
    ensures Copies(replies) != Some(0)
    decreases replies
  {
    if replies != [] && Minus(replies[0]) {
      var rest := replies[1..];
      CopiesIff(rest, if n > 0 then n - 1 else 0);
      MinusFirst(replies, n);
      MinusFirst(replies, |replies|);
    }
  }

  lemma MinusFirst(replies: seq<Byte>, n: nat)
    requires replies != [] && Minus(replies[0])
    ensures n > 0 ==> (LeadingMinuses(replies, n) <==> LeadingMinuses(replies[1..], n - 1))
  {
    if n > 0 && LeadingMinuses(replies[1..], n - 1) {
      forall i | 0 <= i < n
        ensures Minus(replies[i])
      {
        assert i > 0 ==> replies[i] == replies[1..][i - 1];
      }
    }
  }

  /** What is sent of a string is what comes before its first terminator. */
  lemma StringEnds(s: seq<Byte>)
    ensures CString(s) <= s && 0 !in CString(s) && (CString(s) == s || s[|CString(s)|] == 0)
  {
    TerminatorFirst(s, 0);
  }

  lemma {:induction false} TerminatorFirst(s: seq<Byte>, i: nat)
    requires i <= |s|
    ensures 0 !in s[i..Terminator(s, i)] && (Terminator(s, i) < |s| ==> s[Terminator(s, i)] == 0)
    decreases |s| - i
  {
    if At(s, i) != 0 {
      TerminatorFirst(s, i + 1);
      assert s[i..Terminator(s, i)] == [s[i]] + s[i + 1..Terminator(s, i)];
    }
  }

  lemma {:induction false} ComplaintsAre(n: nat)
    ensures Complaints(n) == seq(n, _ => Char('-'))
  {
    if n > 0 {
      ComplaintsAre(n - 1);
    }
  }

  /** After noticed damages an intact payload with a colon in third place arrives without its sequence
      number, whose two characters are sent back behind the "+". */
  lemma SequenceEchoed(buffer: seq<Byte>, maxlen: nat, ds: seq<seq<Byte>>, p: seq<Byte>)
    requires Room(buffer, maxlen) && Payload(p, maxlen) && AllNoticed(ds, maxlen) && Short(ds, maxlen, |buffer|)
    requires |p| >= 3 && p[2] == Char(':')
    ensures var all := Receive(buffer, maxlen, Flat(ds) + Frame(p));
      && all.outcome == Length(|p| - 3) && |all.buffer| == |buffer| && all.buffer[..|p| - 3] == p[3..]
      && all.replies == seq(|ds|, _ => Char('-')) + [Char('+'), p[0], p[1]] && all.rest == []
  {
    var was := After(buffer, maxlen, ds);
    Arrives(buffer, maxlen, ds, p, was);
    ComplaintsAre(|ds|);
    Removed(was, p);
  }

  lemma Removed(was: seq<Byte>, p: seq<Byte>)
    requires 3 <= |p| < |was| && p[2] == Char(':')
    ensures var s := Finish(Overlay(was, p), |p|, []);
      && s.outcome == Length(|p| - 3) && |s.buffer| == |was| && s.buffer[..|p| - 3] == p[3..]
      && s.replies == [Char('+'), p[0], p[1]] && s.rest == []
  {
    var b := Overlay(was, p);
    assert b[3..|p|] == p[3..];
  }

  /** The digits of a block of memory, the high one of each byte first. */
  lemma HexOnWire(bytes: seq<Byte>, k: nat)
    requires k < |bytes|
    ensures |Hex(bytes)| == 2 * |bytes|
    ensures Hex(bytes)[2 * k] == LowerDigit(bytes[k] / 16) && Hex(bytes)[2 * k + 1] == LowerDigit(bytes[k] % 16)
  {
    HexAt(bytes, k);
    ByteDigits(bytes[k]);
  }

  lemma ByteDigits(b: Byte)
    ensures I2Digit(b / 16) == LowerDigit(b / 16) && I2Digit(b) == LowerDigit(b % 16)
  {
    DigitWritten(b / 16, b / 16);
    DigitWritten(b, b % 16);
  }
}
