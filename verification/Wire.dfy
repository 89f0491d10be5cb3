/** Bytes on the wire: little-endian words and the task header. */
module Wire {
  import opened Common

  type byte = x: nat | x < 256

  const HEADER_SIZE: nat := 12

  function LE32(x: nat): (b: seq<byte>)
    requires x < TWO_32
    ensures |b| == 4
  {
    [x % 0x100, x / 0x100 % 0x100, x / 0x100 / 0x100 % 0x100, x / 0x100 / 0x100 / 0x100 % 0x100]
  }

  function FromLE32(b: seq<byte>): (x: nat)
    requires |b| == 4
    ensures x < TWO_32
  {
    b[0] as nat + 0x100 * (b[1] as nat) + 0x1_0000 * (b[2] as nat) + 0x100_0000 * (b[3] as nat)
  }

  lemma {:induction false} LE32RoundTrip(x: nat)
    requires x < TWO_32
    ensures FromLE32(LE32(x)) == x
  {
    var y := x / 0x100;
    var z := y / 0x100;
    assert z / 0x100 < 0x100;
    assert x == x % 0x100 + 0x100 * y && y == y % 0x100 + 0x100 * z && z == z % 0x100 + 0x100 * (z / 0x100);
  }

  lemma {:induction false} DigitUnique(a: byte, b: byte, x: int, y: int)
    requires a as int + 0x100 * x == b as int + 0x100 * y
    ensures a == b && x == y
  {
  }

  lemma {:induction false} FromLE32Injective(b: seq<byte>, c: seq<byte>)
    requires |b| == |c| == 4 && FromLE32(b) == FromLE32(c)
    ensures b == c
  {
    var b3, c3 := b[3] as int, c[3] as int;
    var b2, c2 := b[2] as int + 0x100 * b3, c[2] as int + 0x100 * c3;
    var b1, c1 := b[1] as int + 0x100 * b2, c[1] as int + 0x100 * c2;
    DigitUnique(b[0], c[0], b1, c1);
    DigitUnique(b[1], c[1], b2, c2);
    DigitUnique(b[2], c[2], b3, c3);
  }

  lemma {:induction false} FromLE32RoundTrip(b: seq<byte>)
    requires |b| == 4
    ensures LE32(FromLE32(b)) == b
  {
    LE32RoundTrip(FromLE32(b));
    FromLE32Injective(LE32(FromLE32(b)), b);
  }

  /** `TaskHeader`, in field order. */
  datatype Header = Header(taskId: nat, bodySize: nat, skillId: nat)

  predicate Fits(h: Header) { h.taskId < TWO_32 && h.bodySize < TWO_32 && h.skillId < TWO_32 }

  function EncodeHeader(h: Header): (b: seq<byte>)
    requires Fits(h)
    ensures |b| == HEADER_SIZE
  {
    LE32(h.taskId) + LE32(h.bodySize) + LE32(h.skillId)
  }

  function DecodeHeader(b: seq<byte>): (h: Header)
    requires |b| == HEADER_SIZE
    ensures Fits(h)
  {
    Header(FromLE32(b[0..4]), FromLE32(b[4..8]), FromLE32(b[8..12]))
  }

  lemma {:induction false} HeaderRoundTrip(h: Header)
    requires Fits(h)
    ensures DecodeHeader(EncodeHeader(h)) == h
  {
    var b := EncodeHeader(h);
    assert b[0..4] == LE32(h.taskId) && b[4..8] == LE32(h.bodySize) && b[8..12] == LE32(h.skillId);
    LE32RoundTrip(h.taskId);
    LE32RoundTrip(h.bodySize);
    LE32RoundTrip(h.skillId);
  }

  /** A task or response on the wire: header, then payload. */
  function Frame(taskId: nat, skillId: nat, payload: seq<byte>): (b: seq<byte>)
    requires taskId < TWO_32 && skillId < TWO_32 && |payload| < TWO_32
    ensures |b| == HEADER_SIZE + |payload|
  {
    EncodeHeader(Header(taskId, |payload|, skillId)) + payload
  }
}
