/** The AES-128 cipher of FIPS 197 on a state of bytes, and why decryption undoes encryption. */
module AesCipher {
  import opened AesField

  /** Four bytes: a row of the state, or a word. */
  datatype Quad = Quad(a: bv8, b: bv8, c: bv8, d: bv8)

  /** The four by four bytes of the state, by rows. */
  datatype State = State(r0: Quad, r1: Quad, r2: Quad, r3: Quad)

  function Xor(x: Quad, y: Quad): (r: Quad) {
    Quad(Plus(x.a, y.a), Plus(x.b, y.b), Plus(x.c, y.c), Plus(x.d, y.d))
  }

  function SubWord(q: Quad): (r: Quad) {
    Quad(Sbox(q.a), Sbox(q.b), Sbox(q.c), Sbox(q.d))
  }

  function InvSubWord(q: Quad): (r: Quad) {
    Quad(InvSbox(q.a), InvSbox(q.b), InvSbox(q.c), InvSbox(q.d))
  }

  function RotWord(q: Quad): (r: Quad) {
    Quad(q.b, q.c, q.d, q.a)
  }

  function SubBytes(s: State): (r: State) {
    State(SubWord(s.r0), SubWord(s.r1), SubWord(s.r2), SubWord(s.r3))
  }

  function InvSubBytes(s: State): (r: State) {
    State(InvSubWord(s.r0), InvSubWord(s.r1), InvSubWord(s.r2), InvSubWord(s.r3))
  }

  /** Row `n` is rotated left by `n` bytes (section 5.1.2). */
  function ShiftRows(s: State): (r: State) {
    State(s.r0, RotWord(s.r1), RotWord(RotWord(s.r2)), RotWord(RotWord(RotWord(s.r3))))
  }

  /** Row `n` is rotated right by `n` bytes (section 5.3.1). */
  function InvShiftRows(s: State): (r: State) {
    State(s.r0, RotWord(RotWord(RotWord(s.r1))), RotWord(RotWord(s.r2)), RotWord(s.r3))
  }

  function AddRoundKey(s: State, k: State): (r: State) {
    State(Xor(s.r0, k.r0), Xor(s.r1, k.r1), Xor(s.r2, k.r2), Xor(s.r3, k.r3))
  }

  /** One byte of a mixed column: the coefficients 2, 3, 1, 1 (section 5.1.3). */
  function MixByte(a: bv8, b: bv8, c: bv8, d: bv8): (r: bv8) {
    Mul(a, 0x2) ^ Mul(b, 0x3) ^ c ^ d
  }

  /** One byte of an unmixed column: the coefficients 0E, 0B, 0D, 09 (section 5.3.3). */
  function InvMixByte(a: bv8, b: bv8, c: bv8, d: bv8): (r: bv8) {
    Mul(a, 0xE) ^ Mul(b, 0xB) ^ Mul(c, 0xD) ^ Mul(d, 0x9)
  }

  function MixRow(p: Quad, q: Quad, r: Quad, s: Quad): (m: Quad) {
    Quad(MixByte(p.a, q.a, r.a, s.a), MixByte(p.b, q.b, r.b, s.b),
         MixByte(p.c, q.c, r.c, s.c), MixByte(p.d, q.d, r.d, s.d))
  }

  function InvMixRow(p: Quad, q: Quad, r: Quad, s: Quad): (m: Quad) {
    Quad(InvMixByte(p.a, q.a, r.a, s.a), InvMixByte(p.b, q.b, r.b, s.b),
         InvMixByte(p.c, q.c, r.c, s.c), InvMixByte(p.d, q.d, r.d, s.d))
  }

  function MixColumns(s: State): (r: State) {
    State(MixRow(s.r0, s.r1, s.r2, s.r3), MixRow(s.r1, s.r2, s.r3, s.r0),
          MixRow(s.r2, s.r3, s.r0, s.r1), MixRow(s.r3, s.r0, s.r1, s.r2))
  }

  function InvMixColumns(s: State): (r: State) {
    State(InvMixRow(s.r0, s.r1, s.r2, s.r3), InvMixRow(s.r1, s.r2, s.r3, s.r0),
          InvMixRow(s.r2, s.r3, s.r0, s.r1), InvMixRow(s.r3, s.r0, s.r1, s.r2))
  }

  // ----- The cipher and its inverse (sections 5.1 and 5.3) -----

  /** The state after the first key addition and `n` full rounds. */
  function Rounds(block: State, keys: seq<State>, n: nat): (s: State)
    requires n < |keys|
  {
    if n == 0 then AddRoundKey(block, keys[0])
    else AddRoundKey(MixColumns(ShiftRows(SubBytes(Rounds(block, keys, n - 1)))), keys[n])
  }

  function Cipher(block: State, keys: seq<State>): (s: State)
    requires |keys| == 11
  {
    AddRoundKey(ShiftRows(SubBytes(Rounds(block, keys, 9))), keys[10])
  }

  /** The state after the first key addition and `n` full inverse rounds. */
  function InvRounds(block: State, keys: seq<State>, n: nat): (s: State)
    requires |keys| == 11 && n <= 9
  {
    if n == 0 then AddRoundKey(block, keys[10])
    else InvMixColumns(AddRoundKey(InvSubBytes(InvShiftRows(InvRounds(block, keys, n - 1))), keys[10 - n]))
  }

  function InvCipher(block: State, keys: seq<State>): (s: State)
    requires |keys| == 11
  {
    AddRoundKey(InvSubBytes(InvShiftRows(InvRounds(block, keys, 9))), keys[0])
  }

  // ----- Each step is undone -----

  lemma PlusTwice(x: bv8, y: bv8)
    ensures Plus(Plus(x, y), y) == x
  {}

  lemma XorTwice(x: Quad, y: Quad)
    ensures Xor(Xor(x, y), y) == x
  {
    hide Plus;
    PlusTwice(x.a, y.a);
    PlusTwice(x.b, y.b);
    PlusTwice(x.c, y.c);
    PlusTwice(x.d, y.d);
  }

  lemma AddTwice(s: State, k: State)
    ensures AddRoundKey(AddRoundKey(s, k), k) == s
  {
    hide Xor;
    XorTwice(s.r0, k.r0);
    XorTwice(s.r1, k.r1);
    XorTwice(s.r2, k.r2);
    XorTwice(s.r3, k.r3);
  }

  lemma SubWordInverse(q: Quad)
    ensures InvSubWord(SubWord(q)) == q && SubWord(InvSubWord(q)) == q
  {
    hide Sbox, InvSbox;
    SboxInverse(q.a);
    SboxInverse(q.b);
    SboxInverse(q.c);
    SboxInverse(q.d);
    InvSboxInverse(q.a);
    InvSboxInverse(q.b);
    InvSboxInverse(q.c);
    InvSboxInverse(q.d);
  }

  lemma SubBytesInverse(s: State)
    ensures InvSubBytes(SubBytes(s)) == s && SubBytes(InvSubBytes(s)) == s
  {
    hide SubWord, InvSubWord;
    SubWordInverse(s.r0);
    SubWordInverse(s.r1);
    SubWordInverse(s.r2);
    SubWordInverse(s.r3);
  }

  lemma ShiftRowsInverse(s: State)
    ensures InvShiftRows(ShiftRows(s)) == s && ShiftRows(InvShiftRows(s)) == s
  {}

  // ----- Unmixing undoes mixing -----

  function Sum5(p: bv8, q: bv8, b: bv8, c: bv8, d: bv8): (r: bv8) {
    Plus(Plus(Plus(p, Plus(q, b)), c), d)
  }

  function Sum11(p1: bv8, p2: bv8, p3: bv8, q1: bv8, q2: bv8, q3: bv8, r1: bv8, r2: bv8, r3: bv8, s1: bv8, s2: bv8):
    (r: bv8)
  {
    (p1 ^ p2 ^ p3) ^ (q1 ^ q2 ^ q3) ^ (r1 ^ r2 ^ r3) ^ (s1 ^ s2)
  }

  lemma Flat(p: bv8, q: bv8, b: bv8, c: bv8, d: bv8)
    ensures Sum5(p, q, b, c, d) == p ^ (q ^ b) ^ c ^ d
  {
    calc {
      Sum5(p, q, b, c, d);
      Plus(Plus(Plus(p, q ^ b), c), d);
      Plus(Plus(p ^ (q ^ b), c), d);
      Plus(p ^ (q ^ b) ^ c, d);
      p ^ (q ^ b) ^ c ^ d;
    }
  }

  lemma DoublePlus(x: bv8, y: bv8)
    ensures Double(Plus(x, y)) == Plus(Double(x), Double(y))
  {
    calc {
      Double(Plus(x, y));
      Double(x ^ y);
      { DoubleXor(x, y); }
      Double(x) ^ Double(y);
      Plus(Double(x), Double(y));
    }
  }

  lemma DoubleSum(p: bv8, q: bv8, b: bv8, c: bv8, d: bv8)
    ensures Double(Sum5(p, q, b, c, d)) == Sum5(Double(p), Double(q), Double(b), Double(c), Double(d))
  {
    hide Double, Plus;
    DoublePlus(q, b);
    DoublePlus(p, Plus(q, b));
    DoublePlus(Plus(p, Plus(q, b)), c);
    DoublePlus(Plus(Plus(p, Plus(q, b)), c), d);
  }

  lemma Cancel(
    a0: bv8, a1: bv8, a2: bv8, a3: bv8, a4: bv8,
    b0: bv8, b1: bv8, b2: bv8, b3: bv8, b4: bv8,
    c0: bv8, c1: bv8, c2: bv8, c3: bv8, c4: bv8,
    d0: bv8, d1: bv8, d2: bv8, d3: bv8, d4: bv8)
    ensures ((a4 ^ (b4 ^ b3) ^ c3 ^ d3) ^ (a3 ^ (b3 ^ b2) ^ c2 ^ d2) ^ (a2 ^ (b2 ^ b1) ^ c1 ^ d1))
      ^ ((b4 ^ (c4 ^ c3) ^ d3 ^ a3) ^ (b2 ^ (c2 ^ c1) ^ d1 ^ a1) ^ (b1 ^ (c1 ^ c0) ^ d0 ^ a0))
      ^ ((c4 ^ (d4 ^ d3) ^ a3 ^ b3) ^ (c3 ^ (d3 ^ d2) ^ a2 ^ b2) ^ (c1 ^ (d1 ^ d0) ^ a0 ^ b0))
      ^ ((d4 ^ (a4 ^ a3) ^ b3 ^ c3) ^ (d1 ^ (a1 ^ a0) ^ b0 ^ c0)) == a0
  {}

  lemma CancelSums(
    a0: bv8, a1: bv8, a2: bv8, a3: bv8, a4: bv8,
    b0: bv8, b1: bv8, b2: bv8, b3: bv8, b4: bv8,
    c0: bv8, c1: bv8, c2: bv8, c3: bv8, c4: bv8,
    d0: bv8, d1: bv8, d2: bv8, d3: bv8, d4: bv8)
    ensures Sum11(
      Sum5(a4, b4, b3, c3, d3),
      Sum5(a3, b3, b2, c2, d2),
      Sum5(a2, b2, b1, c1, d1),
      Sum5(b4, c4, c3, d3, a3),
      Sum5(b2, c2, c1, d1, a1),
      Sum5(b1, c1, c0, d0, a0),
      Sum5(c4, d4, d3, a3, b3),
      Sum5(c3, d3, d2, a2, b2),
      Sum5(c1, d1, d0, a0, b0),
      Sum5(d4, a4, a3, b3, c3),
      Sum5(d1, a1, a0, b0, c0)) == a0
  {
    hide Sum5;
    Flat(a4, b4, b3, c3, d3);
    Flat(a3, b3, b2, c2, d2);
    Flat(a2, b2, b1, c1, d1);
    Flat(b4, c4, c3, d3, a3);
    Flat(b2, c2, c1, d1, a1);
    Flat(b1, c1, c0, d0, a0);
    Flat(c4, d4, d3, a3, b3);
    Flat(c3, d3, d2, a2, b2);
    Flat(c1, d1, d0, a0, b0);
    Flat(d4, a4, a3, b3, c3);
    Flat(d1, a1, a0, b0, c0);
    assert Sum11(
        a4 ^ (b4 ^ b3) ^ c3 ^ d3,
        a3 ^ (b3 ^ b2) ^ c2 ^ d2,
        a2 ^ (b2 ^ b1) ^ c1 ^ d1,
        b4 ^ (c4 ^ c3) ^ d3 ^ a3,
        b2 ^ (c2 ^ c1) ^ d1 ^ a1,
        b1 ^ (c1 ^ c0) ^ d0 ^ a0,
        c4 ^ (d4 ^ d3) ^ a3 ^ b3,
        c3 ^ (d3 ^ d2) ^ a2 ^ b2,
        c1 ^ (d1 ^ d0) ^ a0 ^ b0,
        d4 ^ (a4 ^ a3) ^ b3 ^ c3,
        d1 ^ (a1 ^ a0) ^ b0 ^ c0) == a0 by {
      Cancel(a0, a1, a2, a3, a4, b0, b1, b2, b3, b4, c0, c1, c2, c3, c4, d0, d1, d2, d3, d4);
    }
  }

  lemma MixSum(a: bv8, b: bv8, c: bv8, d: bv8)
    ensures MixByte(a, b, c, d) == Sum5(Double(a), Double(b), b, c, d)
  {
    hide Double, Mul, Sum5;
    Flat(Double(a), Double(b), b, c, d);
    calc {
      MixByte(a, b, c, d);
      Mul(a, 0x2) ^ Mul(b, 0x3) ^ c ^ d;
      { SmallMul(a); SmallMul(b); }
      Double(a) ^ (Double(b) ^ b) ^ c ^ d;
      Sum5(Double(a), Double(b), b, c, d);
    }
  }

  function Sum3(p: bv8, q: bv8, r: bv8): (s: bv8) { p ^ q ^ r }

  function Sum4(p: bv8, q: bv8, r: bv8, s: bv8): (t: bv8) { p ^ q ^ r ^ s }

  lemma FlatSums(p1: bv8, p2: bv8, p3: bv8, q1: bv8, q2: bv8, q3: bv8, r1: bv8, r2: bv8, r3: bv8, s1: bv8, s2: bv8)
    ensures Sum4(p1 ^ p2 ^ p3, q1 ^ q2 ^ q3, r1 ^ r2 ^ r3, s1 ^ s2)
      == Sum11(p1, p2, p3, q1, q2, q3, r1, r2, r3, s1, s2)
  {}

  lemma Sum3Is(p: bv8, q: bv8, r: bv8)
    ensures Sum3(p, q, r) == p ^ q ^ r
  {}

  lemma SumOfSums(p1: bv8, p2: bv8, p3: bv8, q1: bv8, q2: bv8, q3: bv8, r1: bv8, r2: bv8, r3: bv8, s1: bv8, s2: bv8)
    ensures Sum4(Sum3(p1, p2, p3), Sum3(q1, q2, q3), Sum3(r1, r2, r3), Plus(s1, s2))
      == Sum11(p1, p2, p3, q1, q2, q3, r1, r2, r3, s1, s2)
  {
    hide Sum3, Sum4, Sum11;
    calc {
      Sum4(Sum3(p1, p2, p3), Sum3(q1, q2, q3), Sum3(r1, r2, r3), Plus(s1, s2));
      { Sum3Is(p1, p2, p3); }
      Sum4(p1 ^ p2 ^ p3, Sum3(q1, q2, q3), Sum3(r1, r2, r3), Plus(s1, s2));
      { Sum3Is(q1, q2, q3); }
      Sum4(p1 ^ p2 ^ p3, q1 ^ q2 ^ q3, Sum3(r1, r2, r3), Plus(s1, s2));
      { Sum3Is(r1, r2, r3); }
      Sum4(p1 ^ p2 ^ p3, q1 ^ q2 ^ q3, r1 ^ r2 ^ r3, s1 ^ s2);
      { FlatSums(p1, p2, p3, q1, q2, q3, r1, r2, r3, s1, s2); }
      Sum11(p1, p2, p3, q1, q2, q3, r1, r2, r3, s1, s2);
    }
  }

  lemma Factor14(x: bv8)
    ensures Mul(x, 0xE) == Sum3(Double(Double(Double(x))), Double(Double(x)), Double(x))
  {
    hide Double, Mul;
    calc {
      Mul(x, 0xE);
      { MulBy14(x); }
      Double(Double(Double(x))) ^ Double(Double(x)) ^ Double(x);
      Sum3(Double(Double(Double(x))), Double(Double(x)), Double(x));
    }
  }

  lemma Factor11(x: bv8)
    ensures Mul(x, 0xB) == Sum3(Double(Double(Double(x))), Double(x), x)
  {
    hide Double, Mul;
    calc {
      Mul(x, 0xB);
      { MulBy11(x); }
      Double(Double(Double(x))) ^ Double(x) ^ x;
      Sum3(Double(Double(Double(x))), Double(x), x);
    }
  }

  lemma Factor13(x: bv8)
    ensures Mul(x, 0xD) == Sum3(Double(Double(Double(x))), Double(Double(x)), x)
  {
    hide Double, Mul;
    calc {
      Mul(x, 0xD);
      { MulBy13(x); }
      Double(Double(Double(x))) ^ Double(Double(x)) ^ x;
      Sum3(Double(Double(Double(x))), Double(Double(x)), x);
    }
  }

  lemma Factor9(x: bv8)
    ensures Mul(x, 0x9) == Plus(Double(Double(Double(x))), x)
  {
    hide Double, Mul;
    calc {
      Mul(x, 0x9);
      { MulBy9(x); }
      Double(Double(Double(x))) ^ x;
      Plus(Double(Double(Double(x))), x);
    }
  }

  lemma InvMixByteIs(a: bv8, b: bv8, c: bv8, d: bv8)
    ensures InvMixByte(a, b, c, d) == Sum4(Mul(a, 0xE), Mul(b, 0xB), Mul(c, 0xD), Mul(d, 0x9))
  {
    hide Mul;
  }

  lemma InvMixSum(a: bv8, b: bv8, c: bv8, d: bv8)
    ensures InvMixByte(a, b, c, d) == Sum11(
      Double(Double(Double(a))), Double(Double(a)), Double(a), Double(Double(Double(b))), Double(b), b,
      Double(Double(Double(c))), Double(Double(c)), c, Double(Double(Double(d))), d)
  {
    hide Double, Mul, Sum3, Sum4, Sum11, Plus, InvMixByte;
    InvMixByteIs(a, b, c, d);
    Factor14(a);
    Factor11(b);
    Factor13(c);
    Factor9(d);
    SumOfSums(Double(Double(Double(a))), Double(Double(a)), Double(a), Double(Double(Double(b))), Double(b), b,
      Double(Double(Double(c))), Double(Double(c)), c, Double(Double(Double(d))), d);
  }

  /** Doubling a mixed byte mixes the doubled bytes. */
  lemma DoubleMix(a: bv8, b: bv8, c: bv8, d: bv8)
    ensures Double(MixByte(a, b, c, d)) == MixByte(Double(a), Double(b), Double(c), Double(d))
  {
    hide Double, Mul, Sum5, MixByte;
    MixSum(a, b, c, d);
    DoubleSum(Double(a), Double(b), b, c, d);
    MixSum(Double(a), Double(b), Double(c), Double(d));
  }

  lemma MixPowers(a: bv8, b: bv8, c: bv8, d: bv8)
    ensures var x := MixByte(a, b, c, d);
      var a1, a2, a3 := Double(a), Double(Double(a)), Double(Double(Double(a)));
      var b1, b2, b3 := Double(b), Double(Double(b)), Double(Double(Double(b)));
      && x == Sum5(a1, b1, b, c, d)
      && Double(x) == Sum5(a2, b2, b1, Double(c), Double(d))
      && Double(Double(x)) == Sum5(a3, b3, b2, Double(Double(c)), Double(Double(d)))
      && Double(Double(Double(x)))
        == Sum5(Double(a3), Double(b3), b3, Double(Double(Double(c))), Double(Double(Double(d))))
  {
    hide Double, Mul, Sum5, MixByte;
    MixSum(a, b, c, d);
    DoubleMix(a, b, c, d);
    MixSum(Double(a), Double(b), Double(c), Double(d));
    DoubleMix(Double(a), Double(b), Double(c), Double(d));
    MixSum(Double(Double(a)), Double(Double(b)), Double(Double(c)), Double(Double(d)));
    DoubleMix(Double(Double(a)), Double(Double(b)), Double(Double(c)), Double(Double(d)));
    MixSum(Double(Double(Double(a))), Double(Double(Double(b))), Double(Double(Double(c))), Double(Double(Double(d))));
  }

  /** Unmixing a mixed column gives its first byte back, and by rotation the others. */
  lemma MixUndone(a: bv8, b: bv8, c: bv8, d: bv8)
    ensures InvMixByte(MixByte(a, b, c, d), MixByte(b, c, d, a), MixByte(c, d, a, b), MixByte(d, a, b, c)) == a
  {
    hide Double, Mul, Sum5, Sum11, MixByte, InvMixByte;
    MixPowers(a, b, c, d);
    MixPowers(b, c, d, a);
    MixPowers(c, d, a, b);
    MixPowers(d, a, b, c);
    InvMixSum(MixByte(a, b, c, d), MixByte(b, c, d, a), MixByte(c, d, a, b), MixByte(d, a, b, c));
    CancelSums(
      a, Double(a), Double(Double(a)), Double(Double(Double(a))), Double(Double(Double(Double(a)))),
      b, Double(b), Double(Double(b)), Double(Double(Double(b))), Double(Double(Double(Double(b)))),
      c, Double(c), Double(Double(c)), Double(Double(Double(c))), Double(Double(Double(Double(c)))),
      d, Double(d), Double(Double(d)), Double(Double(Double(d))), Double(Double(Double(Double(d)))));
  }

  lemma MixRowUndone(p: Quad, q: Quad, r: Quad, s: Quad)
    ensures InvMixRow(MixRow(p, q, r, s), MixRow(q, r, s, p), MixRow(r, s, p, q), MixRow(s, p, q, r)) == p
  {
    hide MixByte, InvMixByte;
    MixUndone(p.a, q.a, r.a, s.a);
    MixUndone(p.b, q.b, r.b, s.b);
    MixUndone(p.c, q.c, r.c, s.c);
    MixUndone(p.d, q.d, r.d, s.d);
  }

  lemma MixColumnsInverse(s: State)
    ensures InvMixColumns(MixColumns(s)) == s
  {
    hide MixRow, InvMixRow;
    MixRowUndone(s.r0, s.r1, s.r2, s.r3);
    MixRowUndone(s.r1, s.r2, s.r3, s.r0);
    MixRowUndone(s.r2, s.r3, s.r0, s.r1);
    MixRowUndone(s.r3, s.r0, s.r1, s.r2);
  }

  /** After `n` inverse rounds the state is the one that `9 - n` rounds had led to, substituted and shifted. */
  lemma {:induction false} RoundsUndone(block: State, keys: seq<State>, n: nat)
    requires |keys| == 11 && n <= 9
    ensures InvRounds(Cipher(block, keys), keys, n) == ShiftRows(SubBytes(Rounds(block, keys, 9 - n)))
  {
    hide AddRoundKey, MixColumns, InvMixColumns, ShiftRows, InvShiftRows, SubBytes, InvSubBytes;
    if n == 0 {
      AddTwice(ShiftRows(SubBytes(Rounds(block, keys, 9))), keys[10]);
    } else {
      RoundsUndone(block, keys, n - 1);
      var s := Rounds(block, keys, 10 - n);
      var before := ShiftRows(SubBytes(Rounds(block, keys, 9 - n)));
      ShiftRowsInverse(SubBytes(s));
      SubBytesInverse(s);
      AddTwice(MixColumns(before), keys[10 - n]);
      MixColumnsInverse(before);
    }
  }

  /** Decryption undoes encryption, for every block and every key schedule. */
  lemma CipherInverse(block: State, keys: seq<State>)
    requires |keys| == 11
    ensures InvCipher(Cipher(block, keys), keys) == block
  {
    hide AddRoundKey, MixColumns, InvMixColumns, ShiftRows, InvShiftRows, SubBytes, InvSubBytes;
    RoundsUndone(block, keys, 9);
    var s := Rounds(block, keys, 0);
    ShiftRowsInverse(SubBytes(s));
    SubBytesInverse(s);
    AddTwice(block, keys[0]);
  }
}
