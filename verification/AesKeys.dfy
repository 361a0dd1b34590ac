/** The key expansion of the AES-128 code, four words at a time, proved against that of the standard. */
module AesKeys {
  import opened AesField
  import opened AesCipher
  import opened AesBlock

  // ----- Key expansion (section 5.2 of FIPS 197) -----

  function Rcon(i: nat): (q: Quad)
    requires 1 <= i <= 10
  {
    Quad(if i == 1 then 0x01 else if i == 2 then 0x02 else if i == 3 then 0x04 else if i == 4 then 0x08
         else if i == 5 then 0x10 else if i == 6 then 0x20 else if i == 7 then 0x40 else if i == 8 then 0x80
         else if i == 9 then 0x1B else 0x36, 0, 0, 0)
  }

  /** The round constants are the powers of x. */
  lemma RconIsPower(i: nat)
    requires 1 <= i < 10
    ensures Rcon(1).a == 1 && Rcon(i + 1).a == Double(Rcon(i).a)
  {}

  /** Word `i` of the expanded key, for a key of four words. */
  function KeyWord(key: seq<Quad>, i: nat): (w: Quad)
    requires |key| == 4 && i < 44
  {
    if i < 4 then key[i]
    else if i % 4 == 0 then Xor(KeyWord(key, i - 4), Xor(SubWord(RotWord(KeyWord(key, i - 1))), Rcon(i / 4)))
    else Xor(KeyWord(key, i - 4), KeyWord(key, i - 1))
  }

  /** The state whose columns are four words. */
  function FromColumns(w0: Quad, w1: Quad, w2: Quad, w3: Quad): (s: State) {
    State(Quad(w0.a, w1.a, w2.a, w3.a), Quad(w0.b, w1.b, w2.b, w3.b),
          Quad(w0.c, w1.c, w2.c, w3.c), Quad(w0.d, w1.d, w2.d, w3.d))
  }

  /** The key of round `i`. */
  function RoundKey(key: seq<Quad>, i: nat): (s: State)
    requires |key| == 4 && i <= 10
  {
    FromColumns(KeyWord(key, 4 * i), KeyWord(key, 4 * i + 1), KeyWord(key, 4 * i + 2), KeyWord(key, 4 * i + 3))
  }

  function KeyExpansion(key: seq<Quad>): (keys: seq<State>)
    requires |key| == 4
    ensures |keys| == 11
  {
    seq(11, i requires 0 <= i < 11 => RoundKey(key, i))
  }

  /** One row of the next round key: the new first byte, then the running sums. */
  function NextRow(row: Quad, x: bv8): (q: Quad) {
    var a := Plus(row.a, x);
    Quad(a, Plus(row.b, a), Plus(row.c, Plus(row.b, a)), Plus(row.d, Plus(row.c, Plus(row.b, a))))
  }

  function NextKey(s: State, i: nat): (t: State)
    requires 1 <= i <= 10
  {
    State(NextRow(s.r0, Plus(Sbox(s.r1.d), Rcon(i).a)), NextRow(s.r1, Plus(Sbox(s.r2.d), 0)),
          NextRow(s.r2, Plus(Sbox(s.r3.d), 0)), NextRow(s.r3, Plus(Sbox(s.r0.d), 0)))
  }

  lemma FirstWord(key: seq<Quad>, i: nat)
    requires |key| == 4 && 1 <= i <= 10
    ensures KeyWord(key, 4 * i) == Xor(KeyWord(key, 4 * i - 4), Xor(SubWord(RotWord(KeyWord(key, 4 * i - 1))), Rcon(i)))
  {
    hide Xor, SubWord, RotWord, Rcon;
  }

  lemma OtherWord(key: seq<Quad>, i: nat)
    requires |key| == 4 && 4 <= i < 44 && i % 4 != 0
    ensures KeyWord(key, i) == Xor(KeyWord(key, i - 4), KeyWord(key, i - 1))
  {
    hide Xor, SubWord, RotWord, Rcon;
  }

  /** The words of a round key from those of the key before it, column by column. */
  function NextColumns(w0: Quad, w1: Quad, w2: Quad, w3: Quad, i: nat): (s: State)
    requires 1 <= i <= 10
  {
    var v0 := Xor(w0, Xor(SubWord(RotWord(w3)), Rcon(i)));
    var v1 := Xor(w1, v0);
    var v2 := Xor(w2, v1);
    FromColumns(v0, v1, v2, Xor(w3, v2))
  }

  lemma ColumnsAreRows(w0: Quad, w1: Quad, w2: Quad, w3: Quad, i: nat)
    requires 1 <= i <= 10
    ensures NextColumns(w0, w1, w2, w3, i) == NextKey(FromColumns(w0, w1, w2, w3), i)
  {
    hide Sbox, Plus;
    RconQuad(i);
    hide Rcon;
  }

  lemma RconQuad(i: nat)
    requires 1 <= i <= 10
    ensures Rcon(i) == Quad(Rcon(i).a, 0, 0, 0)
  {}

  /** Each round key follows from the one before it, row by row. */
  lemma RoundKeyStep(key: seq<Quad>, i: nat)
    requires |key| == 4 && 1 <= i <= 10
    ensures RoundKey(key, i) == NextKey(RoundKey(key, i - 1), i)
  {
    hide KeyWord, Xor, SubWord, RotWord, Rcon, NextKey;
    var n := 4 * i;
    FirstWord(key, i);
    OtherWord(key, n + 1);
    OtherWord(key, n + 2);
    OtherWord(key, n + 3);
    ColumnsAreRows(KeyWord(key, n - 4), KeyWord(key, n - 3), KeyWord(key, n - 2), KeyWord(key, n - 1), i);
  }

  // ----- The key schedule on words -----

  function Top(b: bv8): (w: bv32) { b as bv32 << 24 }

  function RconWord(i: nat): (w: bv32)
    requires i < 10
  {
    if i == 0 then 0x0100_0000 else if i == 1 then 0x0200_0000 else if i == 2 then 0x0400_0000
    else if i == 3 then 0x0800_0000 else if i == 4 then 0x1000_0000 else if i == 5 then 0x2000_0000
    else if i == 6 then 0x4000_0000 else if i == 7 then 0x8000_0000 else if i == 8 then 0x1B00_0000 else 0x3600_0000
  }

  /** The word whose bytes are the running sums of a word's bytes. */
  function Running(w: bv32): (r: bv32) { w ^ ((w >> 8) ^ (w >> 16) ^ (w >> 24)) }

  lemma RunningByte0(w: bv32)
    ensures Byte0(Running(w)) == Byte0(w)
  {}

  lemma RunningByte1(w: bv32)
    ensures Byte1(Running(w)) == Plus(Byte1(w), Byte0(w))
  {}

  lemma RunningByte2(w: bv32)
    ensures Byte2(Running(w)) == Plus(Byte2(w), Plus(Byte1(w), Byte0(w)))
  {}

  lemma RunningByte3(w: bv32)
    ensures Byte3(Running(w)) == Plus(Byte3(w), Plus(Byte2(w), Plus(Byte1(w), Byte0(w))))
  {}

  lemma TopBytes(b: bv8)
    ensures Unpack(Top(b)) == Quad(b, 0, 0, 0)
  {}

  lemma PlusZero(x: bv8)
    ensures Plus(x, 0) == x && Plus(0, x) == x
  {}

  lemma TopSum(b: bv8, i: nat)
    requires i < 10
    ensures XorWord(Top(b), RconWord(i)) == Top(Plus(b, Rcon(i + 1).a))
  {
    RconTop(i);
    hide Rcon, RconWord;
    TopPlus(b, Rcon(i + 1).a);
  }

  lemma RconTop(i: nat)
    requires i < 10
    ensures RconWord(i) == Top(Rcon(i + 1).a)
  {}

  lemma TopPlus(b: bv8, c: bv8)
    ensures XorWord(Top(b), Top(c)) == Top(Plus(b, c))
  {
    assert (b as bv32 << 24) ^ (c as bv32 << 24) == (b ^ c) as bv32 << 24;
  }

  /** What one row of the key becomes. */
  lemma NextRowWord(w: bv32, x: bv8)
    ensures Unpack(Running(XorWord(w, Top(x)))) == NextRow(Unpack(w), x)
    ensures Byte3(XorWord(w, Top(x))) == Byte3(w)
  {
    hide Byte0, Byte1, Byte2, Byte3, Running, XorWord, Top, Plus;
    var v := XorWord(w, Top(x));
    UnpackXor(w, Top(x));
    TopBytes(x);
    PlusZero(Byte1(w));
    PlusZero(Byte2(w));
    PlusZero(Byte3(w));
    RunningByte0(v);
    RunningByte1(v);
    RunningByte2(v);
    RunningByte3(v);
  }

  /** The round key whose rows are the words from `4 * i` on. */
  function RowsAt(exp: seq<bv32>, i: nat): (s: State)
    requires 4 * i + 4 <= |exp|
  {
    Rows(exp[4 * i], exp[4 * i + 1], exp[4 * i + 2], exp[4 * i + 3])
  }

  /** The eleven round keys of an expanded key. */
  function KeysOf(exp: seq<bv32>): (keys: seq<State>)
    requires |exp| == 44
    ensures |keys| == 11 && forall i :: 0 <= i < 11 ==> keys[i] == RowsAt(exp, i)
  {
    seq(11, i requires 0 <= i < 11 => RowsAt(exp, i))
  }

  function KeyQuads(key: seq<bv32>): (q: seq<Quad>)
    requires |key| == 4
    ensures |q| == 4
  {
    [Unpack(key[0]), Unpack(key[1]), Unpack(key[2]), Unpack(key[3])]
  }

  lemma FirstKey(key: seq<bv32>)
    requires |key| == 4
    ensures RoundKey(KeyQuads(key), 0) == Columns(key[0], key[1], key[2], key[3])
  {
    hide Byte0, Byte1, Byte2, Byte3;
  }

  /** The four words of the next round key. */
  method NextKeyWords(c0: bv32, c1: bv32, c2: bv32, c3: bv32, i: nat) returns (d0: bv32, d1: bv32, d2: bv32, d3: bv32)
    requires i < 10
    ensures Rows(d0, d1, d2, d3) == NextKey(Rows(c0, c1, c2, c3), i + 1)
  {
    hide Byte0, Byte1, Byte2, Byte3, Running, XorWord, Top, Plus, Rcon, RconWord, Sbox, NextRow;
    d0, d1, d2, d3 := c0, c1, c2, c3;
    d0 := XorWord(d0, XorWord(Top(Sbox(Byte3(d1))), RconWord(i)));
    d1 := XorWord(d1, Top(Sbox(Byte3(d2))));
    d2 := XorWord(d2, Top(Sbox(Byte3(d3))));
    d3 := XorWord(d3, Top(Sbox(Byte3(d0))));
    d0 := Running(d0);
    d1 := Running(d1);
    d2 := Running(d2);
    d3 := Running(d3);
    TopSum(Sbox(Byte3(c1)), i);
    PlusZero(Sbox(Byte3(c2)));
    PlusZero(Sbox(Byte3(c3)));
    PlusZero(Sbox(Byte3(c0)));
    NextRowWord(c0, Plus(Sbox(Byte3(c1)), Rcon(i + 1).a));
    NextRowWord(c1, Sbox(Byte3(c2)));
    NextRowWord(c2, Sbox(Byte3(c3)));
    NextRowWord(c3, Sbox(Byte3(c0)));
  }

  /** The expanded key is the key expansion of the standard, each round key by rows. */
  method KeySchedule(key: array<bv32>, exp: array<bv32>)
    requires key.Length == 4 && exp.Length == 44
    modifies exp
    ensures KeysOf(exp[..]) == KeyExpansion(KeyQuads(old(key[..])))
  {
    hide Rows, Gather0, Gather1, Gather2, Gather3, NextKey, RoundKey, Unpack, Columns, KeyQuads;
    ghost var quads := KeyQuads(key[..]);
    var copy0 := Gather0(key[0], key[1], key[2], key[3]);
    var copy1 := Gather1(key[0], key[1], key[2], key[3]);
    var copy2 := Gather2(key[0], key[1], key[2], key[3]);
    var copy3 := Gather3(key[0], key[1], key[2], key[3]);
    GatherRows(key[0], key[1], key[2], key[3]);
    FirstKey(key[..]);
    exp[0], exp[1], exp[2], exp[3] := copy0, copy1, copy2, copy3;
    var p, i := 0, 0;
    while i < 10
      invariant 0 <= i <= 10 && p == 4 * i
      invariant Rows(copy0, copy1, copy2, copy3) == RoundKey(quads, i)
      invariant forall j :: 0 <= j <= i ==> RowsAt(exp[..], j) == RoundKey(quads, j)
    {
      RoundKeyStep(quads, i + 1);
      copy0, copy1, copy2, copy3 := NextKeyWords(copy0, copy1, copy2, copy3, i);
      ghost var before := exp[..];
      p := p + 4;
      exp[p], exp[p + 1], exp[p + 2], exp[p + 3] := copy0, copy1, copy2, copy3;
      RowsKept(before, exp[..], i + 1);
      i := i + 1;
    }
    assert KeysOf(exp[..]) == KeyExpansion(quads);
  }

  lemma RowsKept(before: seq<bv32>, now: seq<bv32>, n: nat)
    requires |before| == |now| == 44 && n <= 10
    requires forall k :: 0 <= k < 4 * n ==> now[k] == before[k]
    ensures forall j :: 0 <= j < n ==> RowsAt(now, j) == RowsAt(before, j)
  {
    hide Rows;
  }
}
