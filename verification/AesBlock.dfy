/** The row-sliced implementation of AES-128 on 32-bit words, and that it computes the cipher of the standard. */
module AesBlock {
  import opened AesField
  import opened AesCipher

  // ----- Words of four bytes -----

  function Byte0(w: bv32): (b: bv8) { (w >> 24) as bv8 }

  function Byte1(w: bv32): (b: bv8) { ((w >> 16) & 0xFF) as bv8 }

  function Byte2(w: bv32): (b: bv8) { ((w >> 8) & 0xFF) as bv8 }

  function Byte3(w: bv32): (b: bv8) { (w & 0xFF) as bv8 }

  function Word(b0: bv8, b1: bv8, b2: bv8, b3: bv8): (w: bv32) {
    (b0 as bv32 << 24) | (b1 as bv32 << 16) | (b2 as bv32 << 8) | (b3 as bv32)
  }

  function XorWord(x: bv32, y: bv32): (r: bv32) { x ^ y }

  /** All four bytes doubled at once. */
  function Xtime(x: bv32): (r: bv32) {
    ((x & 0x7F7F_7F7F) << 1) ^ (((x & 0x8080_8080) >> 7) * 0x1B)
  }

  function Unpack(w: bv32): (q: Quad) {
    Quad(Byte0(w), Byte1(w), Byte2(w), Byte3(w))
  }

  function DoubleQuad(q: Quad): (r: Quad) {
    Quad(Double(q.a), Double(q.b), Double(q.c), Double(q.d))
  }

  lemma XtimeByte0(x: bv32)
    ensures Byte0(Xtime(x)) == Double(Byte0(x))
  {}

  lemma XtimeByte1(x: bv32)
    ensures Byte1(Xtime(x)) == Double(Byte1(x))
  {}

  lemma XtimeByte2(x: bv32)
    ensures Byte2(Xtime(x)) == Double(Byte2(x))
  {}

  lemma XtimeByte3(x: bv32)
    ensures Byte3(Xtime(x)) == Double(Byte3(x))
  {}

  /** The packed doubling is four doublings in the field, with no carry between the bytes. */
  lemma XtimeDoubles(x: bv32)
    ensures Unpack(Xtime(x)) == DoubleQuad(Unpack(x))
  {
    hide Double, Byte0, Byte1, Byte2, Byte3, Xtime;
    XtimeByte0(x);
    XtimeByte1(x);
    XtimeByte2(x);
    XtimeByte3(x);
  }

  lemma XorByte0(x: bv32, y: bv32)
    ensures Byte0(x ^ y) == Byte0(x) ^ Byte0(y)
  {}

  lemma XorByte1(x: bv32, y: bv32)
    ensures Byte1(x ^ y) == Byte1(x) ^ Byte1(y)
  {}

  lemma XorByte2(x: bv32, y: bv32)
    ensures Byte2(x ^ y) == Byte2(x) ^ Byte2(y)
  {}

  lemma XorByte3(x: bv32, y: bv32)
    ensures Byte3(x ^ y) == Byte3(x) ^ Byte3(y)
  {}

  lemma UnpackXor(x: bv32, y: bv32)
    ensures Unpack(XorWord(x, y)) == Xor(Unpack(x), Unpack(y))
  {
    assert XorWord(x, y) == x ^ y;
    hide Byte0, Byte1, Byte2, Byte3, XorWord;
    XorByte0(x, y);
    XorByte1(x, y);
    XorByte2(x, y);
    XorByte3(x, y);
  }

  lemma WordByte0(b0: bv8, b1: bv8, b2: bv8, b3: bv8)
    ensures Byte0(Word(b0, b1, b2, b3)) == b0
  {}

  lemma WordByte1(b0: bv8, b1: bv8, b2: bv8, b3: bv8)
    ensures Byte1(Word(b0, b1, b2, b3)) == b1
  {}

  lemma WordByte2(b0: bv8, b1: bv8, b2: bv8, b3: bv8)
    ensures Byte2(Word(b0, b1, b2, b3)) == b2
  {}

  lemma WordByte3(b0: bv8, b1: bv8, b2: bv8, b3: bv8)
    ensures Byte3(Word(b0, b1, b2, b3)) == b3
  {}

  lemma UnpackWord(b0: bv8, b1: bv8, b2: bv8, b3: bv8)
    ensures Unpack(Word(b0, b1, b2, b3)) == Quad(b0, b1, b2, b3)
  {
    hide Byte0, Byte1, Byte2, Byte3, Word;
    WordByte0(b0, b1, b2, b3);
    WordByte1(b0, b1, b2, b3);
    WordByte2(b0, b1, b2, b3);
    WordByte3(b0, b1, b2, b3);
  }

  /** A word is its bytes. */
  lemma WordOfBytes(w: bv32)
    ensures Word(Byte0(w), Byte1(w), Byte2(w), Byte3(w)) == w
  {}

  // ----- Rows and columns -----

  /** The state whose rows are the given words. */
  function Rows(w0: bv32, w1: bv32, w2: bv32, w3: bv32): (s: State) {
    State(Unpack(w0), Unpack(w1), Unpack(w2), Unpack(w3))
  }

  /** The state whose columns are the given words: how a block is read and written (section 3.4). */
  function Columns(w0: bv32, w1: bv32, w2: bv32, w3: bv32): (s: State) {
    State(Quad(Byte0(w0), Byte0(w1), Byte0(w2), Byte0(w3)),
          Quad(Byte1(w0), Byte1(w1), Byte1(w2), Byte1(w3)),
          Quad(Byte2(w0), Byte2(w1), Byte2(w2), Byte2(w3)),
          Quad(Byte3(w0), Byte3(w1), Byte3(w2), Byte3(w3)))
  }

  /** The four words made of the first, second, third and last bytes of four words. */
  function Gather0(w0: bv32, w1: bv32, w2: bv32, w3: bv32): (r: bv32) {
    (w0 & 0xFF00_0000) | ((w1 & 0xFF00_0000) >> 8) | ((w2 & 0xFF00_0000) >> 16) | ((w3 & 0xFF00_0000) >> 24)
  }

  function Gather1(w0: bv32, w1: bv32, w2: bv32, w3: bv32): (r: bv32) {
    ((w0 & 0x00FF_0000) << 8) | (w1 & 0x00FF_0000) | ((w2 & 0x00FF_0000) >> 8) | ((w3 & 0x00FF_0000) >> 16)
  }

  function Gather2(w0: bv32, w1: bv32, w2: bv32, w3: bv32): (r: bv32) {
    ((w0 & 0x0000_FF00) << 16) | ((w1 & 0x0000_FF00) << 8) | (w2 & 0x0000_FF00) | ((w3 & 0x0000_FF00) >> 8)
  }

  function Gather3(w0: bv32, w1: bv32, w2: bv32, w3: bv32): (r: bv32) {
    ((w0 & 0x0000_00FF) << 24) | ((w1 & 0x0000_00FF) << 16) | ((w2 & 0x0000_00FF) << 8) | (w3 & 0x0000_00FF)
  }

  lemma GatherWord0(w0: bv32, w1: bv32, w2: bv32, w3: bv32)
    ensures Gather0(w0, w1, w2, w3) == Word(Byte0(w0), Byte0(w1), Byte0(w2), Byte0(w3))
  {}

  lemma GatherWord1(w0: bv32, w1: bv32, w2: bv32, w3: bv32)
    ensures Gather1(w0, w1, w2, w3) == Word(Byte1(w0), Byte1(w1), Byte1(w2), Byte1(w3))
  {}

  lemma GatherWord2(w0: bv32, w1: bv32, w2: bv32, w3: bv32)
    ensures Gather2(w0, w1, w2, w3) == Word(Byte2(w0), Byte2(w1), Byte2(w2), Byte2(w3))
  {}

  lemma GatherWord3(w0: bv32, w1: bv32, w2: bv32, w3: bv32)
    ensures Gather3(w0, w1, w2, w3) == Word(Byte3(w0), Byte3(w1), Byte3(w2), Byte3(w3))
  {}

  /** Gathering turns columns into rows. */
  lemma GatherRows(w0: bv32, w1: bv32, w2: bv32, w3: bv32)
    ensures Rows(Gather0(w0, w1, w2, w3), Gather1(w0, w1, w2, w3), Gather2(w0, w1, w2, w3), Gather3(w0, w1, w2, w3))
      == Columns(w0, w1, w2, w3)
  {
    hide Byte0, Byte1, Byte2, Byte3, Word, Gather0, Gather1, Gather2, Gather3, Unpack;
    GatherWord0(w0, w1, w2, w3);
    GatherWord1(w0, w1, w2, w3);
    GatherWord2(w0, w1, w2, w3);
    GatherWord3(w0, w1, w2, w3);
    UnpackWord(Byte0(w0), Byte0(w1), Byte0(w2), Byte0(w3));
    UnpackWord(Byte1(w0), Byte1(w1), Byte1(w2), Byte1(w3));
    UnpackWord(Byte2(w0), Byte2(w1), Byte2(w2), Byte2(w3));
    UnpackWord(Byte3(w0), Byte3(w1), Byte3(w2), Byte3(w3));
  }

  /** Gathering turns rows into columns. */
  lemma GatherColumns(w0: bv32, w1: bv32, w2: bv32, w3: bv32)
    ensures Columns(Gather0(w0, w1, w2, w3), Gather1(w0, w1, w2, w3), Gather2(w0, w1, w2, w3), Gather3(w0, w1, w2, w3))
      == Rows(w0, w1, w2, w3)
  {
    hide Byte0, Byte1, Byte2, Byte3, Word, Gather0, Gather1, Gather2, Gather3;
    GatherWord0(w0, w1, w2, w3);
    GatherWord1(w0, w1, w2, w3);
    GatherWord2(w0, w1, w2, w3);
    GatherWord3(w0, w1, w2, w3);
    UnpackWord(Byte0(w0), Byte0(w1), Byte0(w2), Byte0(w3));
    UnpackWord(Byte1(w0), Byte1(w1), Byte1(w2), Byte1(w3));
    UnpackWord(Byte2(w0), Byte2(w1), Byte2(w2), Byte2(w3));
    UnpackWord(Byte3(w0), Byte3(w1), Byte3(w2), Byte3(w3));
  }

  /** Words with the same columns are the same words. */
  lemma ColumnsInjective(v0: bv32, v1: bv32, v2: bv32, v3: bv32, w0: bv32, w1: bv32, w2: bv32, w3: bv32)
    requires Columns(v0, v1, v2, v3) == Columns(w0, w1, w2, w3)
    ensures v0 == w0 && v1 == w1 && v2 == w2 && v3 == w3
  {
    hide Byte0, Byte1, Byte2, Byte3, Word;
    WordOfBytes(v0);
    WordOfBytes(v1);
    WordOfBytes(v2);
    WordOfBytes(v3);
    WordOfBytes(w0);
    WordOfBytes(w1);
    WordOfBytes(w2);
    WordOfBytes(w3);
  }

  // ----- The steps of a round on words -----

  /** The words of the S-box and row shift step, one function a row. */
  function SubRow0(s: bv32): (r: bv32) { Word(Sbox(Byte0(s)), Sbox(Byte1(s)), Sbox(Byte2(s)), Sbox(Byte3(s))) }

  function SubRow1(s: bv32): (r: bv32) { Word(Sbox(Byte1(s)), Sbox(Byte2(s)), Sbox(Byte3(s)), Sbox(Byte0(s))) }

  function SubRow2(s: bv32): (r: bv32) { Word(Sbox(Byte2(s)), Sbox(Byte3(s)), Sbox(Byte0(s)), Sbox(Byte1(s))) }

  function SubRow3(s: bv32): (r: bv32) { Word(Sbox(Byte3(s)), Sbox(Byte0(s)), Sbox(Byte1(s)), Sbox(Byte2(s))) }

  function InvSubRow0(s: bv32): (r: bv32) {
    Word(InvSbox(Byte0(s)), InvSbox(Byte1(s)), InvSbox(Byte2(s)), InvSbox(Byte3(s)))
  }

  function InvSubRow1(s: bv32): (r: bv32) {
    Word(InvSbox(Byte3(s)), InvSbox(Byte0(s)), InvSbox(Byte1(s)), InvSbox(Byte2(s)))
  }

  function InvSubRow2(s: bv32): (r: bv32) {
    Word(InvSbox(Byte2(s)), InvSbox(Byte3(s)), InvSbox(Byte0(s)), InvSbox(Byte1(s)))
  }

  function InvSubRow3(s: bv32): (r: bv32) {
    Word(InvSbox(Byte1(s)), InvSbox(Byte2(s)), InvSbox(Byte3(s)), InvSbox(Byte0(s)))
  }

  lemma SubRows(s0: bv32, s1: bv32, s2: bv32, s3: bv32)
    ensures Rows(SubRow0(s0), SubRow1(s1), SubRow2(s2), SubRow3(s3)) == ShiftRows(SubBytes(Rows(s0, s1, s2, s3)))
  {
    hide Byte0, Byte1, Byte2, Byte3, Word, Sbox;
    UnpackWord(Sbox(Byte0(s0)), Sbox(Byte1(s0)), Sbox(Byte2(s0)), Sbox(Byte3(s0)));
    UnpackWord(Sbox(Byte1(s1)), Sbox(Byte2(s1)), Sbox(Byte3(s1)), Sbox(Byte0(s1)));
    UnpackWord(Sbox(Byte2(s2)), Sbox(Byte3(s2)), Sbox(Byte0(s2)), Sbox(Byte1(s2)));
    UnpackWord(Sbox(Byte3(s3)), Sbox(Byte0(s3)), Sbox(Byte1(s3)), Sbox(Byte2(s3)));
  }

  lemma InvSubRows(s0: bv32, s1: bv32, s2: bv32, s3: bv32)
    ensures Rows(InvSubRow0(s0), InvSubRow1(s1), InvSubRow2(s2), InvSubRow3(s3))
      == InvSubBytes(InvShiftRows(Rows(s0, s1, s2, s3)))
  {
    hide Byte0, Byte1, Byte2, Byte3, Word, InvSbox;
    UnpackWord(InvSbox(Byte0(s0)), InvSbox(Byte1(s0)), InvSbox(Byte2(s0)), InvSbox(Byte3(s0)));
    UnpackWord(InvSbox(Byte3(s1)), InvSbox(Byte0(s1)), InvSbox(Byte1(s1)), InvSbox(Byte2(s1)));
    UnpackWord(InvSbox(Byte2(s2)), InvSbox(Byte3(s2)), InvSbox(Byte0(s2)), InvSbox(Byte1(s2)));
    UnpackWord(InvSbox(Byte1(s3)), InvSbox(Byte2(s3)), InvSbox(Byte3(s3)), InvSbox(Byte0(s3)));
  }

  // ----- Mixing -----

  lemma FlatMix(x: bv8, y: bv8, z: bv8, u: bv8, v: bv8, k: bv8)
    ensures Plus(Plus(Plus(x, y), z), Plus(Plus(u, v), k)) == x ^ y ^ z ^ u ^ v ^ k
  {
    calc {
      Plus(Plus(Plus(x, y), z), Plus(Plus(u, v), k));
      Plus(Plus(x ^ y, z), Plus(u ^ v, k));
      Plus(x ^ y ^ z, u ^ v ^ k);
      x ^ y ^ z ^ u ^ v ^ k;
    }
  }

  lemma FlatSum(p: bv8, q: bv8, b: bv8, c: bv8, d: bv8, k: bv8)
    ensures Plus(Sum5(p, q, b, c, d), k) == p ^ q ^ b ^ c ^ d ^ k
  {
    calc {
      Plus(Sum5(p, q, b, c, d), k);
      { Flat(p, q, b, c, d); }
      Plus(p ^ (q ^ b) ^ c ^ d, k);
      p ^ q ^ b ^ c ^ d ^ k;
    }
  }

  /** The order in which the code adds the bytes of a mixed column does not matter. */
  lemma MixOrder(a: bv8, b: bv8, c: bv8, d: bv8, k: bv8)
    ensures Plus(Plus(Plus(b, c), d), Plus(Plus(Double(a), Double(b)), k)) == Plus(MixByte(a, b, c, d), k)
    ensures Plus(Plus(Plus(d, b), c), Plus(Plus(Double(a), Double(b)), k)) == Plus(MixByte(a, b, c, d), k)
    ensures Plus(Plus(Plus(c, d), b), Plus(Plus(Double(a), Double(b)), k)) == Plus(MixByte(a, b, c, d), k)
    ensures Plus(Plus(Plus(b, c), d), Plus(Plus(Double(b), Double(a)), k)) == Plus(MixByte(a, b, c, d), k)
  {
    hide Double, Plus, MixByte, Sum5;
    MixSum(a, b, c, d);
    FlatSum(Double(a), Double(b), b, c, d, k);
    FlatMix(b, c, d, Double(a), Double(b), k);
    FlatMix(d, b, c, Double(a), Double(b), k);
    FlatMix(c, d, b, Double(a), Double(b), k);
    FlatMix(b, c, d, Double(b), Double(a), k);
  }

  lemma MixRowOrder(p: Quad, q: Quad, r: Quad, s: Quad, k: Quad)
    ensures Xor(Xor(Xor(q, r), s), Xor(Xor(DoubleQuad(p), DoubleQuad(q)), k)) == Xor(MixRow(p, q, r, s), k)
    ensures Xor(Xor(Xor(s, q), r), Xor(Xor(DoubleQuad(p), DoubleQuad(q)), k)) == Xor(MixRow(p, q, r, s), k)
    ensures Xor(Xor(Xor(r, s), q), Xor(Xor(DoubleQuad(p), DoubleQuad(q)), k)) == Xor(MixRow(p, q, r, s), k)
    ensures Xor(Xor(Xor(q, r), s), Xor(Xor(DoubleQuad(q), DoubleQuad(p)), k)) == Xor(MixRow(p, q, r, s), k)
  {
    hide Double, Plus, MixByte;
    MixOrder(p.a, q.a, r.a, s.a, k.a);
    MixOrder(p.b, q.b, r.b, s.b, k.b);
    MixOrder(p.c, q.c, r.c, s.c, k.c);
    MixOrder(p.d, q.d, r.d, s.d, k.d);
  }

  /** The column mixing and key addition of a round on words. */
  method MixWords(a0: bv32, a1: bv32, a2: bv32, a3: bv32, k0: bv32, k1: bv32, k2: bv32, k3: bv32)
    returns (t0: bv32, t1: bv32, t2: bv32, t3: bv32)
    ensures Rows(t0, t1, t2, t3) == AddRoundKey(MixColumns(Rows(a0, a1, a2, a3)), Rows(k0, k1, k2, k3))
  {
    hide Unpack, Xor, DoubleQuad, MixRow, Xtime, XorWord;
    var s0, s1, s2, s3 := a0, a1, a2, a3;
    t0 := XorWord(XorWord(s1, s2), s3);
    t1 := XorWord(XorWord(s0, s2), s3);
    t2 := XorWord(XorWord(s0, s1), s3);
    t3 := XorWord(XorWord(s0, s1), s2);
    s0 := Xtime(s0);
    s1 := Xtime(s1);
    s2 := Xtime(s2);
    s3 := Xtime(s3);
    UnpackSum(a1, a2, a3, s0, s1, k0);
    UnpackSum(a0, a2, a3, s1, s2, k1);
    UnpackSum(a0, a1, a3, s2, s3, k2);
    UnpackSum(a0, a1, a2, s0, s3, k3);
    t0 := XorWord(t0, XorWord(XorWord(s0, s1), k0));
    t1 := XorWord(t1, XorWord(XorWord(s1, s2), k1));
    t2 := XorWord(t2, XorWord(XorWord(s2, s3), k2));
    t3 := XorWord(t3, XorWord(XorWord(s0, s3), k3));
    XtimeDoubles(a0);
    XtimeDoubles(a1);
    XtimeDoubles(a2);
    XtimeDoubles(a3);
    MixRowOrder(Unpack(a0), Unpack(a1), Unpack(a2), Unpack(a3), Unpack(k0));
    MixRowOrder(Unpack(a1), Unpack(a2), Unpack(a3), Unpack(a0), Unpack(k1));
    MixRowOrder(Unpack(a2), Unpack(a3), Unpack(a0), Unpack(a1), Unpack(k2));
    MixRowOrder(Unpack(a3), Unpack(a0), Unpack(a1), Unpack(a2), Unpack(k3));
  }

  lemma UnpackSum(x: bv32, y: bv32, z: bv32, u: bv32, v: bv32, k: bv32)
    ensures Unpack(XorWord(XorWord(XorWord(x, y), z), XorWord(XorWord(u, v), k)))
      == Xor(Xor(Xor(Unpack(x), Unpack(y)), Unpack(z)), Xor(Xor(Unpack(u), Unpack(v)), Unpack(k)))
  {
    hide Unpack, Xor, XorWord;
    UnpackXor(x, y);
    UnpackXor(XorWord(x, y), z);
    UnpackXor(u, v);
    UnpackXor(XorWord(u, v), k);
    UnpackXor(XorWord(XorWord(x, y), z), XorWord(XorWord(u, v), k));
  }

  // ----- Unmixing -----

  lemma FlatUnmix(x: bv8, y: bv8, z: bv8, u: bv8, v: bv8, y1: bv8, y2: bv8, z1: bv8, z2: bv8, z3: bv8, z4: bv8)
    ensures Plus(Plus(Plus(Plus(Plus(x, y), z), Plus(u, v)), Plus(y1, y2)), Plus(Plus(z1, z2), Plus(z3, z4)))
      == x ^ y ^ z ^ u ^ v ^ y1 ^ y2 ^ z1 ^ z2 ^ z3 ^ z4
  {
    calc {
      Plus(Plus(Plus(Plus(Plus(x, y), z), Plus(u, v)), Plus(y1, y2)), Plus(Plus(z1, z2), Plus(z3, z4)));
      Plus(Plus(Plus(Plus(x ^ y, z), u ^ v), y1 ^ y2), Plus(z1 ^ z2, z3 ^ z4));
      Plus(Plus(Plus(x ^ y ^ z, u ^ v), y1 ^ y2), z1 ^ z2 ^ z3 ^ z4);
      Plus(Plus(x ^ y ^ z ^ u ^ v, y1 ^ y2), z1 ^ z2 ^ z3 ^ z4);
      Plus(x ^ y ^ z ^ u ^ v ^ y1 ^ y2, z1 ^ z2 ^ z3 ^ z4);
      x ^ y ^ z ^ u ^ v ^ y1 ^ y2 ^ z1 ^ z2 ^ z3 ^ z4;
    }
  }

  lemma FlatEleven(p1: bv8, p2: bv8, p3: bv8, q1: bv8, q2: bv8, q3: bv8, r1: bv8, r2: bv8, r3: bv8, s1: bv8, s2: bv8)
    ensures Sum11(p1, p2, p3, q1, q2, q3, r1, r2, r3, s1, s2) == p1 ^ p2 ^ p3 ^ q1 ^ q2 ^ q3 ^ r1 ^ r2 ^ r3 ^ s1 ^ s2
  {}

  lemma DoublePair(a: bv8, b: bv8)
    ensures Double(Plus(Double(a), Double(b))) == Plus(Double(Double(a)), Double(Double(b)))
    ensures Double(Plus(Double(Double(a)), Double(Double(b))))
      == Plus(Double(Double(Double(a))), Double(Double(Double(b))))
  {
    hide Double, Plus;
    DoublePlus(Double(a), Double(b));
    DoublePlus(Double(Double(a)), Double(Double(b)));
  }

  lemma FirstOrder(a3: bv8, a2: bv8, a1: bv8, b3: bv8, b1: bv8, b: bv8, c3: bv8, c2: bv8, c: bv8, d3: bv8, d: bv8)
    ensures Plus(Plus(Plus(Plus(Plus(b, c), d), Plus(a1, b1)), Plus(a2, c2)), Plus(Plus(a3, c3), Plus(b3, d3)))
      == Sum11(a3, a2, a1, b3, b1, b, c3, c2, c, d3, d)
  {
    hide Plus, Sum11;
    FlatUnmix(b, c, d, a1, b1, a2, c2, a3, c3, b3, d3);
    FlatEleven(a3, a2, a1, b3, b1, b, c3, c2, c, d3, d);
  }

  lemma SecondOrder(a3: bv8, a2: bv8, a1: bv8, b3: bv8, b1: bv8, b: bv8, c3: bv8, c2: bv8, c: bv8, d3: bv8, d: bv8)
    ensures Plus(Plus(Plus(Plus(Plus(d, b), c), Plus(a1, b1)), Plus(a2, c2)), Plus(Plus(d3, b3), Plus(a3, c3)))
      == Sum11(a3, a2, a1, b3, b1, b, c3, c2, c, d3, d)
  {
    hide Plus, Sum11;
    FlatUnmix(d, b, c, a1, b1, a2, c2, d3, b3, a3, c3);
    FlatEleven(a3, a2, a1, b3, b1, b, c3, c2, c, d3, d);
  }

  lemma ThirdOrder(a3: bv8, a2: bv8, a1: bv8, b3: bv8, b1: bv8, b: bv8, c3: bv8, c2: bv8, c: bv8, d3: bv8, d: bv8)
    ensures Plus(Plus(Plus(Plus(Plus(c, d), b), Plus(a1, b1)), Plus(c2, a2)), Plus(Plus(c3, a3), Plus(d3, b3)))
      == Sum11(a3, a2, a1, b3, b1, b, c3, c2, c, d3, d)
  {
    hide Plus, Sum11;
    FlatUnmix(c, d, b, a1, b1, c2, a2, c3, a3, d3, b3);
    FlatEleven(a3, a2, a1, b3, b1, b, c3, c2, c, d3, d);
  }

  lemma FourthOrder(a3: bv8, a2: bv8, a1: bv8, b3: bv8, b1: bv8, b: bv8, c3: bv8, c2: bv8, c: bv8, d3: bv8, d: bv8)
    ensures Plus(Plus(Plus(Plus(Plus(b, c), d), Plus(b1, a1)), Plus(c2, a2)), Plus(Plus(b3, d3), Plus(c3, a3)))
      == Sum11(a3, a2, a1, b3, b1, b, c3, c2, c, d3, d)
  {
    hide Plus, Sum11;
    FlatUnmix(b, c, d, b1, a1, c2, a2, b3, d3, c3, a3);
    FlatEleven(a3, a2, a1, b3, b1, b, c3, c2, c, d3, d);
  }

  /** Four times the sum of two bytes. */
  function Four(p: bv8, q: bv8): (r: bv8) { Double(Plus(Double(p), Double(q))) }

  /**
   * The sums in the order of the code: three bytes, two doubled ones, a fourfold sum, and one that is doubled again.
   */
  function Unmixed(x: bv8, y: bv8, z: bv8, u: bv8, v: bv8, f: bv8, g: bv8): (r: bv8) {
    Plus(Plus(Plus(Plus(Plus(x, y), z), Plus(Double(u), Double(v))), f), Double(g))
  }

  lemma UnmixedSums(x: bv8, y: bv8, z: bv8, u: bv8, v: bv8, y1: bv8, y2: bv8, z1: bv8, z2: bv8, z3: bv8, z4: bv8)
    ensures Unmixed(x, y, z, u, v, Four(y1, y2), Plus(Four(z1, z2), Four(z3, z4)))
      == Plus(Plus(Plus(Plus(Plus(x, y), z), Plus(Double(u), Double(v))), Plus(Double(Double(y1)), Double(Double(y2)))),
              Plus(Plus(Double(Double(Double(z1))), Double(Double(Double(z2)))),
                   Plus(Double(Double(Double(z3))), Double(Double(Double(z4))))))
  {
    hide Double, Plus;
    DoublePair(y1, y2);
    DoublePair(z1, z2);
    DoublePair(z3, z4);
    DoublePlus(Plus(Double(Double(z1)), Double(Double(z2))), Plus(Double(Double(z3)), Double(Double(z4))));
  }

  /** The code's way of unmixing a column: the sums that the rows share are doubled once. */
  lemma UnmixOrder(a: bv8, b: bv8, c: bv8, d: bv8)
    ensures Unmixed(b, c, d, a, b, Four(a, c), Plus(Four(a, c), Four(b, d))) == InvMixByte(a, b, c, d)
    ensures Unmixed(d, b, c, a, b, Four(a, c), Plus(Four(d, b), Four(a, c))) == InvMixByte(a, b, c, d)
    ensures Unmixed(c, d, b, a, b, Four(c, a), Plus(Four(c, a), Four(d, b))) == InvMixByte(a, b, c, d)
    ensures Unmixed(b, c, d, b, a, Four(c, a), Plus(Four(b, d), Four(c, a))) == InvMixByte(a, b, c, d)
  {
    hide Double, Plus, InvMixByte, Sum11, Four, Unmixed;
    InvMixSum(a, b, c, d);
    UnmixedSums(b, c, d, a, b, a, c, a, c, b, d);
    UnmixedSums(d, b, c, a, b, a, c, d, b, a, c);
    UnmixedSums(c, d, b, a, b, c, a, c, a, d, b);
    UnmixedSums(b, c, d, b, a, c, a, b, d, c, a);
    FirstOrder(Double(Double(Double(a))), Double(Double(a)), Double(a), Double(Double(Double(b))), Double(b), b,
      Double(Double(Double(c))), Double(Double(c)), c, Double(Double(Double(d))), d);
    SecondOrder(Double(Double(Double(a))), Double(Double(a)), Double(a), Double(Double(Double(b))), Double(b), b,
      Double(Double(Double(c))), Double(Double(c)), c, Double(Double(Double(d))), d);
    ThirdOrder(Double(Double(Double(a))), Double(Double(a)), Double(a), Double(Double(Double(b))), Double(b), b,
      Double(Double(Double(c))), Double(Double(c)), c, Double(Double(Double(d))), d);
    FourthOrder(Double(Double(Double(a))), Double(Double(a)), Double(a), Double(Double(Double(b))), Double(b), b,
      Double(Double(Double(c))), Double(Double(c)), c, Double(Double(Double(d))), d);
  }

  function FourQuad(p: Quad, q: Quad): (r: Quad) { DoubleQuad(Xor(DoubleQuad(p), DoubleQuad(q))) }

  function UnmixedQuad(x: Quad, y: Quad, z: Quad, u: Quad, v: Quad, f: Quad, g: Quad): (r: Quad) {
    Xor(Xor(Xor(Xor(Xor(x, y), z), Xor(DoubleQuad(u), DoubleQuad(v))), f), DoubleQuad(g))
  }

  lemma UnmixRowOrder(p: Quad, q: Quad, r: Quad, s: Quad)
    ensures UnmixedQuad(q, r, s, p, q, FourQuad(p, r), Xor(FourQuad(p, r), FourQuad(q, s))) == InvMixRow(p, q, r, s)
    ensures UnmixedQuad(s, q, r, p, q, FourQuad(p, r), Xor(FourQuad(s, q), FourQuad(p, r))) == InvMixRow(p, q, r, s)
    ensures UnmixedQuad(r, s, q, p, q, FourQuad(r, p), Xor(FourQuad(r, p), FourQuad(s, q))) == InvMixRow(p, q, r, s)
    ensures UnmixedQuad(q, r, s, q, p, FourQuad(r, p), Xor(FourQuad(q, s), FourQuad(r, p))) == InvMixRow(p, q, r, s)
  {
    hide Double, Plus, InvMixByte;
    UnmixOrder(p.a, q.a, r.a, s.a);
    UnmixOrder(p.b, q.b, r.b, s.b);
    UnmixOrder(p.c, q.c, r.c, s.c);
    UnmixOrder(p.d, q.d, r.d, s.d);
  }

  lemma UnpackUnmix(x: bv32, y: bv32, z: bv32, u: bv32, v: bv32, w: bv32, e: bv32)
    ensures Unpack(XorWord(XorWord(XorWord(XorWord(XorWord(x, y), z), XorWord(u, v)), w), e))
      == Xor(Xor(Xor(Xor(Xor(Unpack(x), Unpack(y)), Unpack(z)), Xor(Unpack(u), Unpack(v))), Unpack(w)), Unpack(e))
  {
    hide Unpack, Xor, XorWord;
    UnpackXor(x, y);
    UnpackXor(XorWord(x, y), z);
    UnpackXor(u, v);
    UnpackXor(XorWord(XorWord(x, y), z), XorWord(u, v));
    UnpackXor(XorWord(XorWord(XorWord(x, y), z), XorWord(u, v)), w);
    UnpackXor(XorWord(XorWord(XorWord(XorWord(x, y), z), XorWord(u, v)), w), e);
  }

  /** The inverse column mixing on words. */
  method UnmixWords(a0: bv32, a1: bv32, a2: bv32, a3: bv32) returns (t0: bv32, t1: bv32, t2: bv32, t3: bv32)
    ensures Rows(t0, t1, t2, t3) == InvMixColumns(Rows(a0, a1, a2, a3))
  {
    hide Unpack, Xor, DoubleQuad, InvMixRow, Xtime, XorWord;
    var s0, s1, s2, s3 := a0, a1, a2, a3;
    t0 := XorWord(XorWord(s1, s2), s3);
    t1 := XorWord(XorWord(s0, s2), s3);
    t2 := XorWord(XorWord(s0, s1), s3);
    t3 := XorWord(XorWord(s0, s1), s2);
    s0 := Xtime(s0);
    s1 := Xtime(s1);
    s2 := Xtime(s2);
    s3 := Xtime(s3);
    ghost var x0, x1, x2, x3 := s0, s1, s2, s3;
    t0 := XorWord(t0, XorWord(s0, s1));
    t1 := XorWord(t1, XorWord(s1, s2));
    t2 := XorWord(t2, XorWord(s2, s3));
    t3 := XorWord(t3, XorWord(s0, s3));
    UnpackXor(s0, s2);
    UnpackXor(s1, s3);
    XtimeDoubles(XorWord(s0, s2));
    XtimeDoubles(XorWord(s1, s3));
    s0 := Xtime(XorWord(s0, s2));
    s1 := Xtime(XorWord(s1, s3));
    ghost var y0, y1 := s0, s1;
    t0 := XorWord(t0, s0);
    t1 := XorWord(t1, s1);
    t2 := XorWord(t2, s0);
    t3 := XorWord(t3, s1);
    UnpackXor(s0, s1);
    XtimeDoubles(XorWord(s0, s1));
    s0 := Xtime(XorWord(s0, s1));
    t0 := XorWord(t0, s0);
    t1 := XorWord(t1, s0);
    t2 := XorWord(t2, s0);
    t3 := XorWord(t3, s0);
    XtimeDoubles(a0);
    XtimeDoubles(a1);
    XtimeDoubles(a2);
    XtimeDoubles(a3);
    UnpackUnmix(a1, a2, a3, x0, x1, y0, s0);
    UnpackUnmix(a0, a2, a3, x1, x2, y1, s0);
    UnpackUnmix(a0, a1, a3, x2, x3, y0, s0);
    UnpackUnmix(a0, a1, a2, x0, x3, y1, s0);
    UnmixRowOrder(Unpack(a0), Unpack(a1), Unpack(a2), Unpack(a3));
    UnmixRowOrder(Unpack(a1), Unpack(a2), Unpack(a3), Unpack(a0));
    UnmixRowOrder(Unpack(a2), Unpack(a3), Unpack(a0), Unpack(a1));
    UnmixRowOrder(Unpack(a3), Unpack(a0), Unpack(a1), Unpack(a2));
  }
}
