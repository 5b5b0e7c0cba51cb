/**
 The annotator's output file byte by byte: a header, and for each record its fields in little-endian
 order, each cut to the width of its field.
 */
module AnnotateFile {
  import opened AnnotateLog
  import Bits

  type Byte = b: int | 0 <= b < 256

  function Pow256(width: nat): (p: nat)
    ensures p > 0
  {
    if width == 0 then 1 else 256 * Pow256(width - 1)
  }

  function Little(n: nat, width: nat): (s: seq<Byte>)
    ensures |s| == width
  {
    if width == 0 then [] else [n % 256] + Little(n / 256, width - 1)
  }

  function Value(s: seq<Byte>): nat {
    if s == [] then 0 else s[0] + 256 * Value(s[1..])
  }

  lemma {:induction false} LittleValue(n: nat, width: nat)
    requires n < Pow256(width)
    ensures Value(Little(n, width)) == n
  {
    if width > 0 {
      LittleValue(n / 256, width - 1);
      assert Little(n, width)[1..] == Little(n / 256, width - 1);
    }
  }

  function Field(n: int, width: nat): seq<Byte> {
    Little(n % Pow256(width), width)
  }

  // Written field by field.
  function Encode(l: Line): (s: seq<Byte>)
    ensures |s| == RecordBytes
  {
    Field(l.time, 8) + Field(l.data, 4) + Field(l.sm, 2) + Field(l.stq, 2) + Field(l.op, 1) + Field(l.flag, 1)
    + Field(l.cpu, 1)
  }

  function Decode(s: seq<Byte>): Line
    requires |s| == RecordBytes
  {
    Line(Value(s[..8]), Value(s[8..12]), Value(s[12..14]), Value(s[14..16]), Value(s[16..17]), Value(s[17..18]),
         Value(s[18..19]))
  }

  // Every field as far as its width goes.
  function Reduced(l: Line): Line {
    Line(l.time % Pow256(8), l.data % Pow256(4), l.sm % Pow256(2), l.stq % Pow256(2), l.op % Pow256(1),
         l.flag % Pow256(1), l.cpu % Pow256(1))
  }

  predicate Representable(l: Line) {
    && l.time < Pow256(8) && 0 <= l.data < Pow256(4) && 0 <= l.sm < Pow256(2) && 0 <= l.stq < Pow256(2)
    && 0 <= l.op < Pow256(1) && 0 <= l.flag < Pow256(1) && 0 <= l.cpu < Pow256(1)
  }

  lemma FieldValue(n: int, width: nat)
    ensures Value(Field(n, width)) == n % Pow256(width)
  {
    LittleValue(n % Pow256(width), width);
  }

  lemma Small(n: int, m: nat)
    requires 0 <= n < m
    ensures n % m == n
  {}

  lemma ReducedIff(l: Line)
    ensures Reduced(l) == l <==> Representable(l)
  {
    if Representable(l) {
      Small(l.time, Pow256(8));
      Small(l.data, Pow256(4));
      Small(l.sm, Pow256(2));
      Small(l.stq, Pow256(2));
      Small(l.op, Pow256(1));
      Small(l.flag, Pow256(1));
      Small(l.cpu, Pow256(1));
    }
  }

  // The fields are where the reader looks for them.
  lemma Slices(a: seq<Byte>, b: seq<Byte>, c: seq<Byte>, d: seq<Byte>, e: seq<Byte>, f: seq<Byte>, g: seq<Byte>)
    requires |a| == 8 && |b| == 4 && |c| == 2 && |d| == 2 && |e| == 1 && |f| == 1 && |g| == 1
    ensures var s := a + b + c + d + e + f + g;
      s[..8] == a && s[8..12] == b && s[12..14] == c && s[14..16] == d && s[16..17] == e && s[17..18] == f && s[18..19] == g
  {}

  /** A reader gets back every field as far as its width goes, and so the whole record if and only
      if its fields fit. */
  lemma DecodeEncode(l: Line)
    ensures Decode(Encode(l)) == Reduced(l)
    ensures Decode(Encode(l)) == l <==> Representable(l)
  {
    Slices(Field(l.time, 8), Field(l.data, 4), Field(l.sm, 2), Field(l.stq, 2), Field(l.op, 1), Field(l.flag, 1),
           Field(l.cpu, 1));
    FieldValue(l.time, 8);
    FieldValue(l.data, 4);
    FieldValue(l.sm, 2);
    FieldValue(l.stq, 2);
    FieldValue(l.op, 1);
    FieldValue(l.flag, 1);
    FieldValue(l.cpu, 1);
    ReducedIff(l);
  }

  lemma {:induction false} LittleAt(n: nat, width: nat, k: nat)
    requires k < width
    ensures Little(n, width)[k] == n / Pow256(k) % 256
  {
    if k > 0 {
      LittleAt(n / 256, width - 1, k - 1);
      Shifted(n, Pow256(k - 1));
    }
  }

  lemma Shifted(n: nat, p: nat)
    requires p > 0
    ensures n / 256 / p == n / (256 * p)
  {
    var q, r := n / 256 / p, n / 256 % p;
    assert n / 256 == p * q + r;
    var low := 256 * r + n % 256;
    assert n == 256 * (p * q + r) + n % 256 == (256 * p) * q + low;
    assert 256 * (r + 1) <= 256 * p;
    Bits.ModUnique(n, 256 * p, q, low);
  }

  /** Byte k of the record in the file: eight bytes of the time, four of the count, two each of the machine
      and of the state or queue, and one each of the operation, the flags and the processor, and of each
      field the lowest byte first. */
  lemma EncodedAt(l: Line, k: nat)
    requires k < 19
    ensures Encode(l)[k] ==
            if k < 8 then l.time % Pow256(8) / Pow256(k) % 256
            else if k < 12 then l.data % Pow256(4) / Pow256(k - 8) % 256
            else if k < 14 then l.sm % Pow256(2) / Pow256(k - 12) % 256
            else if k < 16 then l.stq % Pow256(2) / Pow256(k - 14) % 256
            else if k == 16 then l.op % 256 else if k == 17 then l.flag % 256 else l.cpu % 256
  {
    if k < 8 {
      LittleAt(l.time % Pow256(8), 8, k);
    } else if k < 12 {
      LittleAt(l.data % Pow256(4), 4, k - 8);
    } else if k < 14 {
      LittleAt(l.sm % Pow256(2), 2, k - 12);
    } else if k < 16 {
      LittleAt(l.stq % Pow256(2), 2, k - 14);
    }
  }

  // Four bytes read as a signed number.
  function Signed(v: int): int {
    if v < 0x8000_0000 then v else v - 0x1_0000_0000
  }

  /** A count that is an int, such as the -1 of a dequeue of everything, comes back when it is read
      as an int. */
  lemma CountComesBack(l: Line)
    ensures Signed(Decode(Encode(l)).data) == l.data <==> -0x8000_0000 <= l.data < 0x8000_0000
  {
    DecodeEncode(l);
    assert Pow256(4) == 256 * (256 * (256 * (256 * Pow256(0))));
    SignedMod(l.data);
  }

  lemma SignedMod(n: int)
    ensures Signed(n % 0x1_0000_0000) == n <==> -0x8000_0000 <= n < 0x8000_0000
  {}

  function Contents(header: seq<Byte>, lines: seq<Line>): seq<Byte> {
    if lines == [] then header else Contents(header, lines[..|lines| - 1]) + Encode(lines[|lines| - 1])
  }

  // The file position is what tellp reports, and record k starts at its position.
  lemma {:induction false} RecordAt(header: seq<Byte>, lines: seq<Line>, k: nat)
    requires |header| == HeaderBytes && k <= |lines|
    ensures |Contents(header, lines)| == Position(|lines|)
    ensures k < |lines| ==>
      Contents(header, lines)[Position(k)..Position(k) + RecordBytes] == Encode(lines[k])
    decreases |lines|
  {
    if lines != [] {
      var n := |lines| - 1;
      RecordAt(header, lines[..n], if k < n then k else n);
      var before := Contents(header, lines[..n]);
      if k < n {
        assert Position(k) + RecordBytes <= Position(n);
        assert (before + Encode(lines[n]))[Position(k)..Position(k) + RecordBytes]
            == before[Position(k)..Position(k) + RecordBytes];
      } else if k == n {
        assert (before + Encode(lines[n]))[Position(n)..Position(n) + RecordBytes] == Encode(lines[n]);
      }
    }
  }

  /** In every state of every run, the bytes at index entry k are those of record number
      100000 (k + 1), with its original count. */
  lemma IndexFindsRecord(log: Log, header: seq<Byte>, k: nat)
    requires InOrder(log) && |header| == 40 && k < |log.index|
    ensures var i := 100000 * (k + 1) - 1;
      && i < |log.file| && log.index[k] + 19 <= |Contents(header, log.file)|
      && Contents(header, log.file)[log.index[k]..log.index[k] + 19] == Encode(LineOf(log.records[i]))
  {
    IndexMeaning(log);
    var i := Stride * (k + 1) - 1;
    Within(log.numRecs, k);
    RecordAt(header, log.file, i);
  }

  lemma Within(n: nat, k: nat)
    requires k < n / Stride
    ensures Stride * (k + 1) - 1 < n
  {}
}
