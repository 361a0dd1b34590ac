/** Bits, bytes and the least-significant-bit-first packing of a bit sequence into bytes. */
module BitStream {
  import opened Sequences

  type Bit = b: int | 0 <= b <= 1
  type Byte = b: int | 0 <= b < 256

  function Pow2(n: nat): (p: nat)
    ensures p >= 1
  {
    if n == 0 then 1 else 2 * Pow2(n - 1)
  }

  /** The number a bit sequence denotes, most significant bit first. */
  function Val(s: seq<Bit>): (v: nat)
  {
    if s == [] then 0 else 2 * Val(s[..|s| - 1]) + s[|s| - 1]
  }

  function Repeat(b: Bit, n: nat): (s: seq<Bit>)
    ensures |s| == n && forall i :: 0 <= i < n ==> s[i] == b
  {
    seq(n, _ => b)
  }

  lemma ValPush(s: seq<Bit>, t: Bit)
    ensures Val(s + [t]) == 2 * Val(s) + t
  {
    assert (s + [t])[..|s|] == s;
  }

  lemma DoubleFactor(x: int, p: int)
    ensures x * (2 * p) == 2 * (x * p)
  {}

  /** Appending bits multiplies the number by a power of two and adds the new bits' value. */
  lemma {:induction false} ValAppend(a: seq<Bit>, b: seq<Bit>)
    ensures Val(a + b) == Val(a) * Pow2(|b|) + Val(b)
    decreases |b|
  {
    if b == [] {
      assert a + b == a;
    } else {
      var c, t := b[..|b| - 1], b[|b| - 1];
      assert b == c + [t] && a + b == (a + c) + [t];
      ValAppend(a, c);
      ValPush(c, t);
      ValPush(a + c, t);
      DoubleFactor(Val(a), Pow2(|c|));
    }
  }

  lemma {:induction false} ValBound(s: seq<Bit>)
    ensures Val(s) < Pow2(|s|)
    decreases |s|
  {
    if s != [] {
      ValBound(s[..|s| - 1]);
    }
  }

  lemma {:induction false} ValRepeat(b: Bit, n: nat)
    ensures Val(Repeat(b, n)) == b * (Pow2(n) - 1)
  {
    if n > 0 {
      assert Repeat(b, n)[..n - 1] == Repeat(b, n - 1);
      ValRepeat(b, n - 1);
    }
  }

  /** The number at most eight bits denote inside a byte, least significant bit first. */
  function ByteOf(s: seq<Bit>): (v: nat)
  {
    if s == [] then 0 else s[0] + 2 * ByteOf(s[1..])
  }

  /** The lowest `n` bits of `x`, least significant first; `x` may be the negative end-of-file mark. */
  function LowBits(x: int, n: nat): (s: seq<Bit>)
    ensures |s| == n
    decreases n
  {
    if n == 0 then [] else [x % 2] + LowBits(x / 2, n - 1)
  }

  /** Whole bytes first; the remaining zero to seven bits fill the bottom of one last byte. */
  function Pack(bits: seq<Bit>): (bytes: seq<Byte>)
    ensures |bytes| == |bits| / 8 + 1
    decreases |bits|
  {
    if |bits| < 8 then [PackedByte(bits)] else [PackedByte(bits[..8])] + Pack(bits[8..])
  }

  function PackedByte(s: seq<Bit>): (b: Byte)
    requires |s| <= 8
    ensures b == ByteOf(s)
  {
    ByteOfBound(s);
    PowMonotone(|s|, 8);
    assert Pow2(8) == 256;
    ByteOf(s)
  }

  function Unpack(bytes: seq<int>): (bits: seq<Bit>)
    ensures |bits| == 8 * |bytes|
  {
    if bytes == [] then [] else LowBits(bytes[0], 8) + Unpack(bytes[1..])
  }

  lemma {:induction false} ByteOfBound(s: seq<Bit>)
    ensures ByteOf(s) < Pow2(|s|)
  {
    if s != [] {
      ByteOfBound(s[1..]);
    }
  }

  lemma {:induction false} ByteOfAppend(s: seq<Bit>, b: Bit)
    ensures ByteOf(s + [b]) == ByteOf(s) + b * Pow2(|s|)
  {
    if s == [] {
      assert s + [b] == [b];
    } else {
      assert (s + [b])[1..] == s[1..] + [b];
      ByteOfAppend(s[1..], b);
      assert b * Pow2(|s|) == 2 * (b * Pow2(|s| - 1));
    }
  }

  /** Reading `n` bits back from a byte yields the packed bits followed by zeros. */
  lemma {:induction false} LowBitsOfByteOf(s: seq<Bit>, n: nat)
    requires |s| <= n
    ensures LowBits(ByteOf(s), n) == s + Repeat(0, n - |s|)
    decreases n
  {
    if n > 0 {
      if s == [] {
        LowBitsOfByteOf(s, n - 1);
      } else {
        LowBitsOfByteOf(s[1..], n - 1);
        assert ByteOf(s) % 2 == s[0] && ByteOf(s) / 2 == ByteOf(s[1..]);
      }
    }
  }

  /** How many bits are missing to fill the last byte. */
  function Missing(bits: seq<Bit>): (n: nat) {
    8 * (|bits| / 8 + 1) - |bits|
  }

  /** Unpacking yields the packed bits, followed by the zeros that fill the last byte. */
  lemma {:induction false} UnpackPack(bits: seq<Bit>)
    ensures Unpack(Pack(bits)) == bits + Repeat(0, Missing(bits))
    decreases |bits|
  {
    if |bits| < 8 {
      LowBitsOfByteOf(bits, 8);
      UnpackCons(ByteOf(bits), []);
      assert Missing(bits) == 8 - |bits|;
    } else {
      var head, rest := bits[..8], bits[8..];
      UnpackPack(rest);
      MissingDrops(bits);
      UnpackCons(PackedByte(head), Pack(rest));
      LowBitsOfByteOf(head, 8);
      Associative(head, rest, Repeat(0, Missing(bits)));
      assert bits == head + rest && head + Repeat(0, 0) == head;
    }
  }

  lemma MissingDrops(bits: seq<Bit>)
    requires |bits| >= 8
    ensures Missing(bits[8..]) == Missing(bits)
  {}

  lemma UnpackCons(b: int, bytes: seq<int>)
    ensures Unpack([b] + bytes) == LowBits(b, 8) + Unpack(bytes)
  {
    assert ([b] + bytes)[1..] == bytes;
  }

  lemma {:induction false} PowMonotone(m: nat, n: nat)
    requires m <= n
    ensures Pow2(m) <= Pow2(n)
    decreases n
  {
    if m < n {
      PowMonotone(m, n - 1);
    }
  }

  lemma {:induction false} BitOfByte(s: seq<Bit>, i: nat)
    requires i < |s|
    ensures ByteOf(s) / Pow2(i) % 2 == s[i]
    decreases |s|
  {
    if i == 0 {
      assert ByteOf(s) / 1 == ByteOf(s);
    } else {
      BitOfByte(s[1..], i - 1);
      HalveFirst(ByteOf(s[1..]), s[0], Pow2(i - 1));
    }
  }

  lemma HalveFirst(x: nat, b: Bit, p: nat)
    requires p > 0
    ensures (b + 2 * x) / (2 * p) == x / p
  {
    var q := x / p;
    assert q * p <= x < q * p + p;
    assert (2 * p) * q == 2 * (q * p);
    QuotientIs(b + 2 * x, 2 * p, q);
  }

  lemma MultipleBelow(d: int, k: int, q: int)
    requires d > 0
    ensures d * k < d * q + d <==> k <= q
  {
    if k <= q {
      assert d * k <= d * q;
    } else {
      assert d * (q + 1) <= d * k;
    }
  }

  lemma QuotientIs(x: int, d: int, q: int)
    requires d > 0 && d * q <= x < d * q + d
    ensures x / d == q
  {
    var k := x / d;
    assert d * k <= x < d * k + d;
    MultipleBelow(d, k, q);
    MultipleBelow(d, q, k);
  }

  lemma FirstByte(bits: seq<Bit>, i: nat)
    requires i < |bits| && i < 8
    ensures |Pack(bits)| > 0 && Pack(bits)[0] / Pow2(i) % 2 == bits[i]
  {
    hide ByteOf, Pow2;
    BitOfByte(if |bits| < 8 then bits else bits[..8], i);
  }

  lemma LaterBytes(bits: seq<Bit>, j: nat)
    requires |bits| >= 8 && j < |Pack(bits[8..])|
    ensures j + 1 < |Pack(bits)| && Pack(bits)[j + 1] == Pack(bits[8..])[j]
  {}

  /** Every bit is found in its byte, the first bit of a byte in its lowest place. */
  lemma {:induction false} PackedBit(bits: seq<Bit>, i: nat)
    requires i < |bits|
    ensures i / 8 < |Pack(bits)| && Pack(bits)[i / 8] / Pow2(i % 8) % 2 == bits[i]
    decreases |bits|
  {
    hide Pack, Pow2;
    if i < 8 {
      FirstByte(bits, i);
    } else {
      PackedBit(bits[8..], i - 8);
      LaterBytes(bits, (i - 8) / 8);
      assert i / 8 == (i - 8) / 8 + 1 && i % 8 == (i - 8) % 8;
    }
  }
}
