/** Skill ids: 32-bit FNV-1a over the bytes of a skill's name. */
module SkillKey {
  import opened Common
  import opened Wire

  type Name = seq<byte>

  const OFFSET_BASIS: nat := 2166136261
  const PRIME: nat := 16777619
  const PRIME_INVERSE: nat := 0x359C449B

  function Pow2(n: nat): (r: nat)
    ensures r > 0
  {
    if n == 0 then 1 else 2 * Pow2(n - 1)
  }

  /** Exclusive or of the low `n` bits. */
  function Xor(a: nat, b: nat, n: nat): (r: nat)
    ensures r < Pow2(n)
  {
    if n == 0 then 0 else (if a % 2 == b % 2 then 0 else 1) + 2 * Xor(a / 2, b / 2, n - 1)
  }

  lemma {:induction false} XorInjective(a: nat, b: nat, c: nat, n: nat)
    requires a < Pow2(n) && b < Pow2(n)
    ensures Xor(a, c, n) == Xor(b, c, n) <==> a == b
    decreases n
  {
    if n > 0 {
      XorInjective(a / 2, b / 2, c / 2, n - 1);
      assert a == a % 2 + 2 * (a / 2) && b == b % 2 + 2 * (b / 2);
    }
  }

  lemma {:induction false} XorCommutes(a: nat, b: nat, n: nat)
    ensures Xor(a, b, n) == Xor(b, a, n)
    decreases n
  {
    if n > 0 { XorCommutes(a / 2, b / 2, n - 1); }
  }

  lemma {:induction false} EightBits()
    ensures Pow2(8) == 256
  {
  }

  function Xor8(a: byte, b: byte): byte {
    EightBits();
    Xor(a, b, 8)
  }

  lemma {:induction false} Xor8Injective(a: byte, b: byte, c: byte)
    ensures Xor8(a, c) == Xor8(b, c) <==> a == b
    ensures Xor8(c, a) == Xor8(c, b) <==> a == b
  {
    EightBits();
    XorInjective(a, b, c, 8);
    XorCommutes(a, c, 8);
    XorCommutes(b, c, 8);
  }

  /** `hash ^= c`: only the low byte of the hash can change. */
  function XorLow(hash: nat, c: byte): (r: nat)
    requires hash < TWO_32
    ensures r < TWO_32
  {
    hash - hash % 256 + Xor8(hash % 256, c)
  }

  /** `hash *= PRIME` on 32 bits. */
  function TimesPrime(hash: nat): (r: nat)
    ensures r < TWO_32
  {
    hash * PRIME % TWO_32
  }

  /** The hash after the bytes of `name` up to `k`, from any starting value. */
  function Hash(start: nat, name: Name, k: nat): (r: nat)
    requires start < TWO_32 && k <= |name|
    ensures r < TWO_32
  {
    if k == 0 then start else TimesPrime(XorLow(Hash(start, name, k - 1), name[k - 1]))
  }

  function SkillId(name: Name): nat { Hash(OFFSET_BASIS, name, |name|) }

  method FromName(name: Name) returns (id: nat)
    ensures id == SkillId(name)
  {
    id := OFFSET_BASIS;
    for k := 0 to |name|
      invariant id == Hash(OFFSET_BASIS, name, k)
    {
      id := XorLow(id, name[k]);
      id := TimesPrime(id);
    }
  }

  // ----- Each step is a bijection on the hash

  lemma {:induction false} Unique(x: nat, y: nat, m: int)
    requires x < TWO_32 && y < TWO_32 && x - y == m * TWO_32
    ensures x == y
  {
  }

  lemma {:induction false} PrimeInverse()
    ensures PRIME * PRIME_INVERSE == 1 + 3513497 * TWO_32
  {
  }

  lemma {:induction false} TimesPrimeInjective(x: nat, y: nat)
    requires x < TWO_32 && y < TWO_32
    ensures TimesPrime(x) == TimesPrime(y) <==> x == y
  {
    PrimeInverse();
    if TimesPrime(x) == TimesPrime(y) {
      var p, q := x * PRIME / TWO_32, y * PRIME / TWO_32;
      assert (x - y) * PRIME == (p - q) * TWO_32;
      var d, e := x - y, p - q;
      assert d * (PRIME * PRIME_INVERSE) == e * PRIME_INVERSE * TWO_32;
      Unique(x, y, e * PRIME_INVERSE - d * 3513497);
    }
  }

  lemma {:induction false} XorLowParts(h: nat, c: byte)
    requires h < TWO_32
    ensures XorLow(h, c) / 256 == h / 256 && XorLow(h, c) % 256 == Xor8(h % 256, c)
  {
    Quotient(h / 256, Xor8(h % 256, c));
  }

  lemma {:induction false} Quotient(q: nat, r: byte)
    ensures (q * 256 + r) / 256 == q && (q * 256 + r) % 256 == r
  {
  }

  lemma {:induction false} XorLowInjective(g: nat, h: nat, c: byte)
    requires g < TWO_32 && h < TWO_32
    ensures XorLow(g, c) == XorLow(h, c) <==> g == h
  {
    Xor8Injective(g % 256, h % 256, c);
    XorLowParts(g, c);
    XorLowParts(h, c);
  }

  lemma {:induction false} XorLowSeparates(h: nat, c: byte, d: byte)
    requires h < TWO_32
    ensures XorLow(h, c) == XorLow(h, d) <==> c == d
  {
    Xor8Injective(c, d, h % 256);
  }

  /** What follows two prefixes cannot make their hashes collide, nor tell them apart again. */
  lemma {:induction false} CommonSuffix(g: nat, h: nat, a: Name, b: Name, i: nat, k: nat)
    requires g < TWO_32 && h < TWO_32 && |a| == |b| && i <= k <= |a| && a[i..] == b[i..]
    ensures Hash(g, a, k) == Hash(h, b, k) <==> Hash(g, a, i) == Hash(h, b, i)
    decreases k
  {
    if i < k {
      CommonSuffix(g, h, a, b, i, k - 1);
      assert a[k - 1] == a[i..][k - 1 - i] == b[k - 1];
      var x, y := Hash(g, a, k - 1), Hash(h, b, k - 1);
      XorLowInjective(x, y, a[k - 1]);
      TimesPrimeInjective(XorLow(x, a[k - 1]), XorLow(y, b[k - 1]));
    }
  }

  lemma {:induction false} CommonPrefix(a: Name, b: Name, i: nat)
    requires i <= |a| && i <= |b| && a[..i] == b[..i]
    ensures Hash(OFFSET_BASIS, a, i) == Hash(OFFSET_BASIS, b, i)
  {
    if i > 0 {
      assert a[..i - 1] == a[..i][..i - 1] == b[..i - 1];
      assert a[i - 1] == a[..i][i - 1] == b[i - 1];
      CommonPrefix(a, b, i - 1);
    }
  }

  /** Hashes that agree but for a low byte come from hashes that differed in more, or not at all. */
  lemma {:induction false} LowByteSpreads(x: nat, y: nat)
    requires x < TWO_32 && y < TWO_32
    requires x / 256 == y / 256 && TimesPrime(x) / 256 == TimesPrime(y) / 256
    ensures x == y
  {
    var d := x - y;
    var e := TimesPrime(x) - TimesPrime(y);
    var q := x * PRIME / TWO_32 - y * PRIME / TWO_32;
    assert d * PRIME == q * TWO_32 + e;
    assert 403 * d - e == 0x100_0000 * (256 * q - d);
    assert -256 < d < 256 && -256 < e < 256;
    assert 256 * q - d == 0;
  }

  /** Two steps from the same hash agree only on the same two bytes. */
  lemma {:induction false} TwoSteps(h: nat, c: byte, d: byte, c': byte, d': byte)
    requires h < TWO_32
    requires XorLow(TimesPrime(XorLow(h, c)), c') == XorLow(TimesPrime(XorLow(h, d)), d')
    ensures c == d && c' == d'
  {
    var x, y := XorLow(h, c), XorLow(h, d);
    XorLowParts(h, c);
    XorLowParts(h, d);
    XorLowParts(TimesPrime(x), c');
    XorLowParts(TimesPrime(y), d');
    LowByteSpreads(x, y);
    XorLowSeparates(h, c, d);
    XorLowSeparates(TimesPrime(x), c', d');
  }

  /** After a common prefix, two bytes are hashed alike only if they are the same. */
  lemma {:induction false} TwoBytesAfterPrefix(a: Name, b: Name, i: nat)
    requires |a| == |b| && i + 2 <= |a| && a[..i] == b[..i]
    requires Hash(OFFSET_BASIS, a, i + 2) == Hash(OFFSET_BASIS, b, i + 2)
    ensures a[i] == b[i] && a[i + 1] == b[i + 1]
  {
    CommonPrefix(a, b, i);
    var h := Hash(OFFSET_BASIS, a, i);
    var u, v := TimesPrime(XorLow(h, a[i])), TimesPrime(XorLow(h, b[i]));
    TimesPrimeInjective(XorLow(u, a[i + 1]), XorLow(v, b[i + 1]));
    TwoSteps(h, a[i], b[i], a[i + 1], b[i + 1]);
  }

  lemma {:induction false} OneByteAfterPrefix(a: Name, b: Name, i: nat)
    requires |a| == |b| && i < |a| && a[..i] == b[..i]
    requires Hash(OFFSET_BASIS, a, i + 1) == Hash(OFFSET_BASIS, b, i + 1)
    ensures a[i] == b[i]
  {
    CommonPrefix(a, b, i);
    var h := Hash(OFFSET_BASIS, a, i);
    TimesPrimeInjective(XorLow(h, a[i]), XorLow(h, b[i]));
    XorLowSeparates(h, a[i], b[i]);
  }

  /** Two names of equal length that differ only within two neighbouring bytes get different ids. */
  lemma {:induction false} NeighboursSeparate(a: Name, b: Name, i: nat)
    requires |a| == |b| && i + 2 <= |a| && a[..i] == b[..i] && a[i + 2..] == b[i + 2..]
    ensures SkillId(a) == SkillId(b) <==> a == b
  {
    if SkillId(a) == SkillId(b) {
      CommonSuffix(OFFSET_BASIS, OFFSET_BASIS, a, b, i + 2, |a|);
      TwoBytesAfterPrefix(a, b, i);
      Pieces(a, b, i);
    }
  }

  lemma {:induction false} Pieces(a: Name, b: Name, i: nat)
    requires |a| == |b| && i + 2 <= |a| && a[..i] == b[..i] && a[i + 2..] == b[i + 2..]
    requires a[i] == b[i] && a[i + 1] == b[i + 1]
    ensures a == b
  {
    assert a == a[..i] + [a[i], a[i + 1]] + a[i + 2..];
    assert b == b[..i] + [b[i], b[i + 1]] + b[i + 2..];
  }

  /** In particular one differing byte always separates them. */
  lemma {:induction false} OneByteSeparates(a: Name, b: Name, i: nat)
    requires |a| == |b| && i < |a| && a[i] != b[i]
    requires forall k :: 0 <= k < |a| && k != i ==> a[k] == b[k]
    ensures SkillId(a) != SkillId(b)
  {
    assert a[..i] == b[..i] && a[i + 1..] == b[i + 1..];
    if SkillId(a) == SkillId(b) {
      CommonSuffix(OFFSET_BASIS, OFFSET_BASIS, a, b, i + 1, |a|);
      OneByteAfterPrefix(a, b, i);
    }
  }
}
