/** The example of the standard (appendix B of FIPS 197), which is also the data of the program's main function. */
module AesExample {
  import opened AesField
  import opened AesCipher
  import opened AesBlock
  import opened AesKeys
  import opened AesCode

  const KEY: seq<bv32> := [0x2B7E_1516, 0x28AE_D2A6, 0xABF7_1588, 0x09CF_4F3C]
  const BLOCK: seq<bv32> := [0x3243_F6A8, 0x885A_308D, 0x3131_98A2, 0xE037_0734]
  const ENCRYPTED: seq<bv32> := [0x3925_841D, 0x02DC_09FB, 0xDC11_8597, 0x196A_0B32]

  // ----- The round keys -----

  function Key0(): (k: State) {
    State(Quad(0x2B, 0x28, 0xAB, 0x09), Quad(0x7E, 0xAE, 0xF7, 0xCF),
          Quad(0x15, 0xD2, 0x15, 0x4F), Quad(0x16, 0xA6, 0x88, 0x3C))
  }

  function Key1(): (k: State) {
    State(Quad(0xA0, 0x88, 0x23, 0x2A), Quad(0xFA, 0x54, 0xA3, 0x6C),
          Quad(0xFE, 0x2C, 0x39, 0x76), Quad(0x17, 0xB1, 0x39, 0x05))
  }

  function Key2(): (k: State) {
    State(Quad(0xF2, 0x7A, 0x59, 0x73), Quad(0xC2, 0x96, 0x35, 0x59),
          Quad(0x95, 0xB9, 0x80, 0xF6), Quad(0xF2, 0x43, 0x7A, 0x7F))
  }

  function Key3(): (k: State) {
    State(Quad(0x3D, 0x47, 0x1E, 0x6D), Quad(0x80, 0x16, 0x23, 0x7A),
          Quad(0x47, 0xFE, 0x7E, 0x88), Quad(0x7D, 0x3E, 0x44, 0x3B))
  }

  function Key4(): (k: State) {
    State(Quad(0xEF, 0xA8, 0xB6, 0xDB), Quad(0x44, 0x52, 0x71, 0x0B),
          Quad(0xA5, 0x5B, 0x25, 0xAD), Quad(0x41, 0x7F, 0x3B, 0x00))
  }

  function Key5(): (k: State) {
    State(Quad(0xD4, 0x7C, 0xCA, 0x11), Quad(0xD1, 0x83, 0xF2, 0xF9),
          Quad(0xC6, 0x9D, 0xB8, 0x15), Quad(0xF8, 0x87, 0xBC, 0xBC))
  }

  function Key6(): (k: State) {
    State(Quad(0x6D, 0x11, 0xDB, 0xCA), Quad(0x88, 0x0B, 0xF9, 0x00),
          Quad(0xA3, 0x3E, 0x86, 0x93), Quad(0x7A, 0xFD, 0x41, 0xFD))
  }

  function Key7(): (k: State) {
    State(Quad(0x4E, 0x5F, 0x84, 0x4E), Quad(0x54, 0x5F, 0xA6, 0xA6),
          Quad(0xF7, 0xC9, 0x4F, 0xDC), Quad(0x0E, 0xF3, 0xB2, 0x4F))
  }

  function Key8(): (k: State) {
    State(Quad(0xEA, 0xB5, 0x31, 0x7F), Quad(0xD2, 0x8D, 0x2B, 0x8D),
          Quad(0x73, 0xBA, 0xF5, 0x29), Quad(0x21, 0xD2, 0x60, 0x2F))
  }

  function Key9(): (k: State) {
    State(Quad(0xAC, 0x19, 0x28, 0x57), Quad(0x77, 0xFA, 0xD1, 0x5C),
          Quad(0x66, 0xDC, 0x29, 0x00), Quad(0xF3, 0x21, 0x41, 0x6E))
  }

  function Key10(): (k: State) {
    State(Quad(0xD0, 0xC9, 0xE1, 0xB6), Quad(0x14, 0xEE, 0x3F, 0x63),
          Quad(0xF9, 0x25, 0x0C, 0x0C), Quad(0xA8, 0x89, 0xC8, 0xA6))
  }

  lemma KeyStart()
    ensures Columns(0x2B7E_1516, 0x28AE_D2A6, 0xABF7_1588, 0x09CF_4F3C) == Key0()
  {}

  lemma KeyStep1()
    ensures NextKey(Key0(), 1) == Key1()
  {}

  lemma KeyStep2()
    ensures NextKey(Key1(), 2) == Key2()
  {}

  lemma KeyStep3()
    ensures NextKey(Key2(), 3) == Key3()
  {}

  lemma KeyStep4()
    ensures NextKey(Key3(), 4) == Key4()
  {}

  lemma KeyStep5()
    ensures NextKey(Key4(), 5) == Key5()
  {}

  lemma KeyStep6()
    ensures NextKey(Key5(), 6) == Key6()
  {}

  lemma KeyStep7()
    ensures NextKey(Key6(), 7) == Key7()
  {}

  lemma KeyStep8()
    ensures NextKey(Key7(), 8) == Key8()
  {}

  lemma KeyStep9()
    ensures NextKey(Key8(), 9) == Key9()
  {}

  lemma KeyStep10()
    ensures NextKey(Key9(), 10) == Key10()
  {}

  // ----- The states between the rounds -----

  /** What a full round makes of a state. */
  function FullRound(s: State, k: State): (t: State) {
    AddRoundKey(MixColumns(ShiftRows(SubBytes(s))), k)
  }

  function State0(): (s: State) {
    State(Quad(0x19, 0xA0, 0x9A, 0xE9), Quad(0x3D, 0xF4, 0xC6, 0xF8),
          Quad(0xE3, 0xE2, 0x8D, 0x48), Quad(0xBE, 0x2B, 0x2A, 0x08))
  }

  function State1(): (s: State) {
    State(Quad(0xA4, 0x68, 0x6B, 0x02), Quad(0x9C, 0x9F, 0x5B, 0x6A),
          Quad(0x7F, 0x35, 0xEA, 0x50), Quad(0xF2, 0x2B, 0x43, 0x49))
  }

  function State2(): (s: State) {
    State(Quad(0xAA, 0x61, 0x82, 0x68), Quad(0x8F, 0xDD, 0xD2, 0x32),
          Quad(0x5F, 0xE3, 0x4A, 0x46), Quad(0x03, 0xEF, 0xD2, 0x9A))
  }

  function State3(): (s: State) {
    State(Quad(0x48, 0x67, 0x4D, 0xD6), Quad(0x6C, 0x1D, 0xE3, 0x5F),
          Quad(0x4E, 0x9D, 0xB1, 0x58), Quad(0xEE, 0x0D, 0x38, 0xE7))
  }

  function State4(): (s: State) {
    State(Quad(0xE0, 0xC8, 0xD9, 0x85), Quad(0x92, 0x63, 0xB1, 0xB8),
          Quad(0x7F, 0x63, 0x35, 0xBE), Quad(0xE8, 0xC0, 0x50, 0x01))
  }

  function State5(): (s: State) {
    State(Quad(0xF1, 0xC1, 0x7C, 0x5D), Quad(0x00, 0x92, 0xC8, 0xB5),
          Quad(0x6F, 0x4C, 0x8B, 0xD5), Quad(0x55, 0xEF, 0x32, 0x0C))
  }

  function State6(): (s: State) {
    State(Quad(0x26, 0x3D, 0xE8, 0xFD), Quad(0x0E, 0x41, 0x64, 0xD2),
          Quad(0x2E, 0xB7, 0x72, 0x8B), Quad(0x17, 0x7D, 0xA9, 0x25))
  }

  function State7(): (s: State) {
    State(Quad(0x5A, 0x19, 0xA3, 0x7A), Quad(0x41, 0x49, 0xE0, 0x8C),
          Quad(0x42, 0xDC, 0x19, 0x04), Quad(0xB1, 0x1F, 0x65, 0x0C))
  }

  function State8(): (s: State) {
    State(Quad(0xEA, 0x04, 0x65, 0x85), Quad(0x83, 0x45, 0x5D, 0x96),
          Quad(0x5C, 0x33, 0x98, 0xB0), Quad(0xF0, 0x2D, 0xAD, 0xC5))
  }

  function State9(): (s: State) {
    State(Quad(0xEB, 0x59, 0x8B, 0x1B), Quad(0x40, 0x2E, 0xA1, 0xC3),
          Quad(0xF2, 0x38, 0x13, 0x42), Quad(0x1E, 0x84, 0xE7, 0xD2))
  }

  lemma BlockStart()
    ensures AddRoundKey(Columns(0x3243_F6A8, 0x885A_308D, 0x3131_98A2, 0xE037_0734), Key0()) == State0()
  {}

  /** State 0 substituted and shifted. */
  function Shifted0(): (s: State) {
    State(Quad(0xD4, 0xE0, 0xB8, 0x1E), Quad(0xBF, 0xB4, 0x41, 0x27),
          Quad(0x5D, 0x52, 0x11, 0x98), Quad(0x30, 0xAE, 0xF1, 0xE5))
  }

  /** State 1 substituted and shifted. */
  function Shifted1(): (s: State) {
    State(Quad(0x49, 0x45, 0x7F, 0x77), Quad(0xDB, 0x39, 0x02, 0xDE),
          Quad(0x87, 0x53, 0xD2, 0x96), Quad(0x3B, 0x89, 0xF1, 0x1A))
  }

  /** State 2 substituted and shifted. */
  function Shifted2(): (s: State) {
    State(Quad(0xAC, 0xEF, 0x13, 0x45), Quad(0xC1, 0xB5, 0x23, 0x73),
          Quad(0xD6, 0x5A, 0xCF, 0x11), Quad(0xB8, 0x7B, 0xDF, 0xB5))
  }

  /** State 3 substituted and shifted. */
  function Shifted3(): (s: State) {
    State(Quad(0x52, 0x85, 0xE3, 0xF6), Quad(0xA4, 0x11, 0xCF, 0x50),
          Quad(0xC8, 0x6A, 0x2F, 0x5E), Quad(0x94, 0x28, 0xD7, 0x07))
  }

  /** State 4 substituted and shifted. */
  function Shifted4(): (s: State) {
    State(Quad(0xE1, 0xE8, 0x35, 0x97), Quad(0xFB, 0xC8, 0x6C, 0x4F),
          Quad(0x96, 0xAE, 0xD2, 0xFB), Quad(0x7C, 0x9B, 0xBA, 0x53))
  }

  /** State 5 substituted and shifted. */
  function Shifted5(): (s: State) {
    State(Quad(0xA1, 0x78, 0x10, 0x4C), Quad(0x4F, 0xE8, 0xD5, 0x63),
          Quad(0x3D, 0x03, 0xA8, 0x29), Quad(0xFE, 0xFC, 0xDF, 0x23))
  }

  /** State 6 substituted and shifted. */
  function Shifted6(): (s: State) {
    State(Quad(0xF7, 0x27, 0x9B, 0x54), Quad(0x83, 0x43, 0xB5, 0xAB),
          Quad(0x40, 0x3D, 0x31, 0xA9), Quad(0x3F, 0xF0, 0xFF, 0xD3))
  }

  /** State 7 substituted and shifted. */
  function Shifted7(): (s: State) {
    State(Quad(0xBE, 0xD4, 0x0A, 0xDA), Quad(0x3B, 0xE1, 0x64, 0x83),
          Quad(0xD4, 0xF2, 0x2C, 0x86), Quad(0xFE, 0xC8, 0xC0, 0x4D))
  }

  /** State 8 substituted and shifted. */
  function Shifted8(): (s: State) {
    State(Quad(0x87, 0xF2, 0x4D, 0x97), Quad(0x6E, 0x4C, 0x90, 0xEC),
          Quad(0x46, 0xE7, 0x4A, 0xC3), Quad(0xA6, 0x8C, 0xD8, 0x95))
  }

  /** State 9 substituted and shifted. */
  function Shifted9(): (s: State) {
    State(Quad(0xE9, 0xCB, 0x3D, 0xAF), Quad(0x31, 0x32, 0x2E, 0x09),
          Quad(0x7D, 0x2C, 0x89, 0x07), Quad(0xB5, 0x72, 0x5F, 0x94))
  }

  lemma SubStates(s: State, t: State)
    requires SubWord(s.r0) == t.r0 && RotWord(SubWord(s.r1)) == t.r1
    requires RotWord(RotWord(SubWord(s.r2))) == t.r2 && RotWord(RotWord(RotWord(SubWord(s.r3)))) == t.r3
    ensures ShiftRows(SubBytes(s)) == t
  {
    hide SubWord, RotWord;
  }

  lemma Sub0Upper()
    ensures SubWord(State0().r0) == Shifted0().r0 && RotWord(SubWord(State0().r1)) == Shifted0().r1
  {}

  lemma Sub0Lower()
    ensures RotWord(RotWord(SubWord(State0().r2))) == Shifted0().r2
    ensures RotWord(RotWord(RotWord(SubWord(State0().r3)))) == Shifted0().r3
  {}

  lemma Sub1Upper()
    ensures SubWord(State1().r0) == Shifted1().r0 && RotWord(SubWord(State1().r1)) == Shifted1().r1
  {}

  lemma Sub1Lower()
    ensures RotWord(RotWord(SubWord(State1().r2))) == Shifted1().r2
    ensures RotWord(RotWord(RotWord(SubWord(State1().r3)))) == Shifted1().r3
  {}

  lemma Sub2Upper()
    ensures SubWord(State2().r0) == Shifted2().r0 && RotWord(SubWord(State2().r1)) == Shifted2().r1
  {}

  lemma Sub2Lower()
    ensures RotWord(RotWord(SubWord(State2().r2))) == Shifted2().r2
    ensures RotWord(RotWord(RotWord(SubWord(State2().r3)))) == Shifted2().r3
  {}

  lemma Sub3Upper()
    ensures SubWord(State3().r0) == Shifted3().r0 && RotWord(SubWord(State3().r1)) == Shifted3().r1
  {}

  lemma Sub3Lower()
    ensures RotWord(RotWord(SubWord(State3().r2))) == Shifted3().r2
    ensures RotWord(RotWord(RotWord(SubWord(State3().r3)))) == Shifted3().r3
  {}

  lemma Sub4Upper()
    ensures SubWord(State4().r0) == Shifted4().r0 && RotWord(SubWord(State4().r1)) == Shifted4().r1
  {}

  lemma Sub4Lower()
    ensures RotWord(RotWord(SubWord(State4().r2))) == Shifted4().r2
    ensures RotWord(RotWord(RotWord(SubWord(State4().r3)))) == Shifted4().r3
  {}

  lemma Sub5Upper()
    ensures SubWord(State5().r0) == Shifted5().r0 && RotWord(SubWord(State5().r1)) == Shifted5().r1
  {}

  lemma Sub5Lower()
    ensures RotWord(RotWord(SubWord(State5().r2))) == Shifted5().r2
    ensures RotWord(RotWord(RotWord(SubWord(State5().r3)))) == Shifted5().r3
  {}

  lemma Sub6Upper()
    ensures SubWord(State6().r0) == Shifted6().r0 && RotWord(SubWord(State6().r1)) == Shifted6().r1
  {}

  lemma Sub6Lower()
    ensures RotWord(RotWord(SubWord(State6().r2))) == Shifted6().r2
    ensures RotWord(RotWord(RotWord(SubWord(State6().r3)))) == Shifted6().r3
  {}

  lemma Sub7Upper()
    ensures SubWord(State7().r0) == Shifted7().r0 && RotWord(SubWord(State7().r1)) == Shifted7().r1
  {}

  lemma Sub7Lower()
    ensures RotWord(RotWord(SubWord(State7().r2))) == Shifted7().r2
    ensures RotWord(RotWord(RotWord(SubWord(State7().r3)))) == Shifted7().r3
  {}

  lemma Sub8Upper()
    ensures SubWord(State8().r0) == Shifted8().r0 && RotWord(SubWord(State8().r1)) == Shifted8().r1
  {}

  lemma Sub8Lower()
    ensures RotWord(RotWord(SubWord(State8().r2))) == Shifted8().r2
    ensures RotWord(RotWord(RotWord(SubWord(State8().r3)))) == Shifted8().r3
  {}

  lemma Sub9Upper()
    ensures SubWord(State9().r0) == Shifted9().r0 && RotWord(SubWord(State9().r1)) == Shifted9().r1
  {}

  lemma Sub9Lower()
    ensures RotWord(RotWord(SubWord(State9().r2))) == Shifted9().r2
    ensures RotWord(RotWord(RotWord(SubWord(State9().r3)))) == Shifted9().r3
  {}

  /** Mixing by doublings, as far as evaluating it goes. */
  lemma MixedByDoubling(s: State)
    ensures MixColumns(s) == State(Doubled(s.r0, s.r1, s.r2, s.r3), Doubled(s.r1, s.r2, s.r3, s.r0),
                                   Doubled(s.r2, s.r3, s.r0, s.r1), Doubled(s.r3, s.r0, s.r1, s.r2))
  {
    hide MixRow, Doubled;
    RowByDoubling(s.r0, s.r1, s.r2, s.r3);
    RowByDoubling(s.r1, s.r2, s.r3, s.r0);
    RowByDoubling(s.r2, s.r3, s.r0, s.r1);
    RowByDoubling(s.r3, s.r0, s.r1, s.r2);
  }

  function Doubled(p: Quad, q: Quad, r: Quad, s: Quad): (m: Quad) {
    Quad(Sum5(Double(p.a), Double(q.a), q.a, r.a, s.a), Sum5(Double(p.b), Double(q.b), q.b, r.b, s.b),
         Sum5(Double(p.c), Double(q.c), q.c, r.c, s.c), Sum5(Double(p.d), Double(q.d), q.d, r.d, s.d))
  }

  lemma RowByDoubling(p: Quad, q: Quad, r: Quad, s: Quad)
    ensures MixRow(p, q, r, s) == Doubled(p, q, r, s)
  {
    hide MixByte, Sum5, Double;
    MixSum(p.a, q.a, r.a, s.a);
    MixSum(p.b, q.b, r.b, s.b);
    MixSum(p.c, q.c, r.c, s.c);
    MixSum(p.d, q.d, r.d, s.d);
  }

  lemma Round1()
    ensures FullRound(State0(), Key1()) == State1()
  {
    hide SubWord, RotWord, SubBytes, ShiftRows, MixColumns;
    Sub0Upper();
    Sub0Lower();
    SubStates(State0(), Shifted0());
    MixedByDoubling(Shifted0());
  }

  lemma Round2()
    ensures FullRound(State1(), Key2()) == State2()
  {
    hide SubWord, RotWord, SubBytes, ShiftRows, MixColumns;
    Sub1Upper();
    Sub1Lower();
    SubStates(State1(), Shifted1());
    MixedByDoubling(Shifted1());
  }

  lemma Round3()
    ensures FullRound(State2(), Key3()) == State3()
  {
    hide SubWord, RotWord, SubBytes, ShiftRows, MixColumns;
    Sub2Upper();
    Sub2Lower();
    SubStates(State2(), Shifted2());
    MixedByDoubling(Shifted2());
  }

  lemma Round4()
    ensures FullRound(State3(), Key4()) == State4()
  {
    hide SubWord, RotWord, SubBytes, ShiftRows, MixColumns;
    Sub3Upper();
    Sub3Lower();
    SubStates(State3(), Shifted3());
    MixedByDoubling(Shifted3());
  }

  lemma Round5()
    ensures FullRound(State4(), Key5()) == State5()
  {
    hide SubWord, RotWord, SubBytes, ShiftRows, MixColumns;
    Sub4Upper();
    Sub4Lower();
    SubStates(State4(), Shifted4());
    MixedByDoubling(Shifted4());
  }

  lemma Round6()
    ensures FullRound(State5(), Key6()) == State6()
  {
    hide SubWord, RotWord, SubBytes, ShiftRows, MixColumns;
    Sub5Upper();
    Sub5Lower();
    SubStates(State5(), Shifted5());
    MixedByDoubling(Shifted5());
  }

  lemma Round7()
    ensures FullRound(State6(), Key7()) == State7()
  {
    hide SubWord, RotWord, SubBytes, ShiftRows, MixColumns;
    Sub6Upper();
    Sub6Lower();
    SubStates(State6(), Shifted6());
    MixedByDoubling(Shifted6());
  }

  lemma Round8()
    ensures FullRound(State7(), Key8()) == State8()
  {
    hide SubWord, RotWord, SubBytes, ShiftRows, MixColumns;
    Sub7Upper();
    Sub7Lower();
    SubStates(State7(), Shifted7());
    MixedByDoubling(Shifted7());
  }

  lemma Round9()
    ensures FullRound(State8(), Key9()) == State9()
  {
    hide SubWord, RotWord, SubBytes, ShiftRows, MixColumns;
    Sub8Upper();
    Sub8Lower();
    SubStates(State8(), Shifted8());
    MixedByDoubling(Shifted8());
  }

  lemma LastRound()
    ensures AddRoundKey(ShiftRows(SubBytes(State9())), Key10())
      == Columns(0x3925_841D, 0x02DC_09FB, 0xDC11_8597, 0x196A_0B32)
  {
    hide SubWord, RotWord, SubBytes, ShiftRows, State9;
    Sub9Upper();
    Sub9Lower();
    SubStates(State9(), Shifted9());
  }

  // ----- The example -----

  /** The key expansion of the example key. */
  lemma ExampleKeys()
    ensures KeyExpansion(KeyQuads(KEY))
      == [Key0(), Key1(), Key2(), Key3(), Key4(), Key5(), Key6(), Key7(), Key8(), Key9(), Key10()]
  {
    hide NextKey, Columns, RoundKey, KeyQuads,
      Key0, Key1, Key2, Key3, Key4, Key5, Key6, Key7, Key8, Key9, Key10;
    var q := KeyQuads(KEY);
    FirstKey(KEY);
    KeyStart();
    KeyStep1();
    RoundKeyStep(q, 1);
    KeyStep2();
    RoundKeyStep(q, 2);
    KeyStep3();
    RoundKeyStep(q, 3);
    KeyStep4();
    RoundKeyStep(q, 4);
    KeyStep5();
    RoundKeyStep(q, 5);
    KeyStep6();
    RoundKeyStep(q, 6);
    KeyStep7();
    RoundKeyStep(q, 7);
    KeyStep8();
    RoundKeyStep(q, 8);
    KeyStep9();
    RoundKeyStep(q, 9);
    KeyStep10();
    RoundKeyStep(q, 10);
  }

  lemma ExampleRounds(keys: seq<State>)
    requires keys == [Key0(), Key1(), Key2(), Key3(), Key4(), Key5(), Key6(), Key7(), Key8(), Key9(), Key10()]
    ensures Rounds(BlockState(BLOCK), keys, 9) == State9()
  {
    hide AddRoundKey, SubBytes, ShiftRows, MixColumns, Columns,
      Key0, Key1, Key2, Key3, Key4, Key5, Key6, Key7, Key8, Key9, Key10,
      State0, State1, State2, State3, State4, State5, State6, State7, State8, State9;
    BlockStart();
    Round1();
    RoundUnfolds(BlockState(BLOCK), keys, 1);
    Round2();
    RoundUnfolds(BlockState(BLOCK), keys, 2);
    Round3();
    RoundUnfolds(BlockState(BLOCK), keys, 3);
    Round4();
    RoundUnfolds(BlockState(BLOCK), keys, 4);
    Round5();
    RoundUnfolds(BlockState(BLOCK), keys, 5);
    Round6();
    RoundUnfolds(BlockState(BLOCK), keys, 6);
    Round7();
    RoundUnfolds(BlockState(BLOCK), keys, 7);
    Round8();
    RoundUnfolds(BlockState(BLOCK), keys, 8);
    Round9();
    RoundUnfolds(BlockState(BLOCK), keys, 9);
  }

  lemma RoundUnfolds(block: State, keys: seq<State>, n: nat)
    requires 0 < n < |keys|
    ensures Rounds(block, keys, n) == FullRound(Rounds(block, keys, n - 1), keys[n])
  {}

  /** The cipher of the example block under the example key is the one the standard gives. */
  lemma KnownAnswer()
    ensures Cipher(BlockState(BLOCK), KeyExpansion(KeyQuads(KEY))) == BlockState(ENCRYPTED)
  {
    hide KeyExpansion, Rounds, Columns, AddRoundKey, SubBytes, ShiftRows;
    ExampleKeys();
    ExampleRounds(KeyExpansion(KeyQuads(KEY)));
    LastRound();
  }

  /** The first turn of the program's main loop: encrypted and decrypted words of its block. */
  method FirstTurn() returns (outencry: array<bv32>, outdecry: array<bv32>)
    ensures fresh(outencry) && fresh(outdecry)
    ensures outencry[..] == ENCRYPTED && outdecry[..] == BLOCK
  {
    hide Cipher, KeyExpansion, Columns;
    var key := new bv32[] [0x2B7E_1516, 0x28AE_D2A6, 0xABF7_1588, 0x09CF_4F3C];
    var block := new bv32[] [0x3243_F6A8, 0x885A_308D, 0x3131_98A2, 0xE037_0734];
    assert key[..] == KEY && block[..] == BLOCK;
    var expanded := new bv32[44];
    KeySchedule(key, expanded);
    outencry, outdecry := EncryptThenDecrypt(block, expanded);
    KnownAnswer();
    SameBlock(outencry[..], ENCRYPTED);
  }
}
