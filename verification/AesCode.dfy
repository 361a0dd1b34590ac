/** Encryption and decryption of a block, two rounds a turn of the loop, against the cipher of FIPS 197. */
module AesCode {
  import opened AesField
  import opened AesCipher
  import opened AesBlock
  import opened AesKeys

  /** The state that a block of four words holds, by columns. */
  function BlockState(w: seq<bv32>): (s: State)
    requires |w| == 4
  {
    Columns(w[0], w[1], w[2], w[3])
  }

  lemma AddWords(s0: bv32, s1: bv32, s2: bv32, s3: bv32, k0: bv32, k1: bv32, k2: bv32, k3: bv32)
    ensures Rows(XorWord(s0, k0), XorWord(s1, k1), XorWord(s2, k2), XorWord(s3, k3))
      == AddRoundKey(Rows(s0, s1, s2, s3), Rows(k0, k1, k2, k3))
  {
    hide Unpack, Xor, XorWord;
    UnpackXor(s0, k0);
    UnpackXor(s1, k1);
    UnpackXor(s2, k2);
    UnpackXor(s3, k3);
  }

  /** Reads a block by rows and adds the key words from `k` on. */
  method LoadBlock(input: array<bv32>, expkey: array<bv32>, k: nat) returns (s0: bv32, s1: bv32, s2: bv32, s3: bv32)
    requires input.Length == 4 && expkey.Length == 44 && k % 4 == 0 && k + 4 <= 44
    ensures Rows(s0, s1, s2, s3) == AddRoundKey(BlockState(input[..]), KeysOf(expkey[..])[k / 4])
  {
    hide Rows, Columns, Gather0, Gather1, Gather2, Gather3, XorWord, AddRoundKey;
    GatherRows(input[0], input[1], input[2], input[3]);
    AddWords(Gather0(input[0], input[1], input[2], input[3]), Gather1(input[0], input[1], input[2], input[3]),
             Gather2(input[0], input[1], input[2], input[3]), Gather3(input[0], input[1], input[2], input[3]),
             expkey[k], expkey[k + 1], expkey[k + 2], expkey[k + 3]);
    s0 := XorWord(Gather0(input[0], input[1], input[2], input[3]), expkey[k]);
    s1 := XorWord(Gather1(input[0], input[1], input[2], input[3]), expkey[k + 1]);
    s2 := XorWord(Gather2(input[0], input[1], input[2], input[3]), expkey[k + 2]);
    s3 := XorWord(Gather3(input[0], input[1], input[2], input[3]), expkey[k + 3]);
  }

  /** Writes the rows of a state as the columns of a block. */
  method StoreBlock(t0: bv32, t1: bv32, t2: bv32, t3: bv32, output: array<bv32>)
    requires output.Length == 4
    modifies output
    ensures BlockState(output[..]) == Rows(t0, t1, t2, t3)
  {
    hide Rows, Columns, Gather0, Gather1, Gather2, Gather3;
    GatherColumns(t0, t1, t2, t3);
    output[0] := Gather0(t0, t1, t2, t3);
    output[1] := Gather1(t0, t1, t2, t3);
    output[2] := Gather2(t0, t1, t2, t3);
    output[3] := Gather3(t0, t1, t2, t3);
  }

  /** One full round: substitution, row shift, column mixing and the key words from `k` on. */
  method Round(s0: bv32, s1: bv32, s2: bv32, s3: bv32, expkey: array<bv32>, k: nat)
    returns (t0: bv32, t1: bv32, t2: bv32, t3: bv32)
    requires expkey.Length == 44 && k % 4 == 0 && k + 4 <= 44
    ensures Rows(t0, t1, t2, t3)
      == AddRoundKey(MixColumns(ShiftRows(SubBytes(Rows(s0, s1, s2, s3)))), KeysOf(expkey[..])[k / 4])
  {
    hide Rows, AddRoundKey, MixColumns, ShiftRows, SubBytes, SubRow0, SubRow1, SubRow2, SubRow3;
    SubRows(s0, s1, s2, s3);
    t0, t1, t2, t3 := MixWords(SubRow0(s0), SubRow1(s1), SubRow2(s2), SubRow3(s3), expkey[k], expkey[k + 1],
      expkey[k + 2], expkey[k + 3]);
  }

  /** The code's encryption is the cipher of the standard under the round keys held in the expanded key. */
  method EncryptBlock(input: array<bv32>, output: array<bv32>, expkey: array<bv32>)
    requires input.Length == 4 && output.Length == 4 && expkey.Length == 44
    modifies output
    ensures BlockState(output[..]) == Cipher(BlockState(old(input[..])), KeysOf(expkey[..]))
  {
    hide Rows, Columns, AddRoundKey, MixColumns, ShiftRows, SubBytes, SubRow0, SubRow1, SubRow2, SubRow3, XorWord,
      BlockState, KeysOf;
    ghost var keys, block := KeysOf(expkey[..]), BlockState(input[..]);
    var s0, s1, s2, s3 := LoadBlock(input, expkey, 0);
    var t0, t1, t2, t3 := s0, s1, s2, s3;
    var r, p := 5, 0;
    while true
      invariant 1 <= r <= 5 && p == 8 * (5 - r)
      invariant Rows(s0, s1, s2, s3) == Rounds(block, keys, 2 * (5 - r))
      decreases r
    {
      t0, t1, t2, t3 := Round(s0, s1, s2, s3, expkey, p + 4);
      assert Rows(t0, t1, t2, t3) == Rounds(block, keys, 2 * (5 - r) + 1);
      p := p + 8;
      r := r - 1;
      if r == 0 {
        break;
      }
      s0, s1, s2, s3 := Round(t0, t1, t2, t3, expkey, p);
    }
    assert p == 40 && keys[10] == RowsAt(expkey[..], 10);
    SubRows(t0, t1, t2, t3);
    AddWords(SubRow0(t0), SubRow1(t1), SubRow2(t2), SubRow3(t3), expkey[p], expkey[p + 1], expkey[p + 2],
      expkey[p + 3]);
    t0 := XorWord(SubRow0(t0), expkey[p]);
    t1 := XorWord(SubRow1(t1), expkey[p + 1]);
    t2 := XorWord(SubRow2(t2), expkey[p + 2]);
    t3 := XorWord(SubRow3(t3), expkey[p + 3]);
    assert Rows(t0, t1, t2, t3) == Cipher(block, keys);
    StoreBlock(t0, t1, t2, t3, output);
  }

  /** The inverse substitution and row shift, and the key words from `k` on. */
  method InvSubAdd(s0: bv32, s1: bv32, s2: bv32, s3: bv32, expkey: array<bv32>, k: nat)
    returns (t0: bv32, t1: bv32, t2: bv32, t3: bv32)
    requires expkey.Length == 44 && k % 4 == 0 && k + 4 <= 44
    ensures Rows(t0, t1, t2, t3)
      == AddRoundKey(InvSubBytes(InvShiftRows(Rows(s0, s1, s2, s3))), KeysOf(expkey[..])[k / 4])
  {
    hide Rows, AddRoundKey, InvShiftRows, InvSubBytes, InvSubRow0, InvSubRow1, InvSubRow2, InvSubRow3, XorWord;
    InvSubRows(s0, s1, s2, s3);
    AddWords(InvSubRow0(s0), InvSubRow1(s1), InvSubRow2(s2), InvSubRow3(s3), expkey[k], expkey[k + 1], expkey[k + 2],
      expkey[k + 3]);
    t0 := XorWord(InvSubRow0(s0), expkey[k]);
    t1 := XorWord(InvSubRow1(s1), expkey[k + 1]);
    t2 := XorWord(InvSubRow2(s2), expkey[k + 2]);
    t3 := XorWord(InvSubRow3(s3), expkey[k + 3]);
  }

  /** The code's decryption is the inverse cipher of the standard. */
  method DecryptBlock(input: array<bv32>, output: array<bv32>, expkey: array<bv32>)
    requires input.Length == 4 && output.Length == 4 && expkey.Length == 44
    modifies output
    ensures BlockState(output[..]) == InvCipher(BlockState(old(input[..])), KeysOf(expkey[..]))
  {
    hide Rows, Columns, AddRoundKey, InvMixColumns, InvShiftRows, InvSubBytes, XorWord, BlockState, KeysOf, RowsAt;
    ghost var keys, block := KeysOf(expkey[..]), BlockState(input[..]);
    var s0, s1, s2, s3 := LoadBlock(input, expkey, 40);
    var t0, t1, t2, t3 := s0, s1, s2, s3;
    var r, p := 5, 40;
    while true
      invariant 1 <= r <= 5 && p == 8 * r
      invariant Rows(s0, s1, s2, s3) == InvRounds(block, keys, 2 * (5 - r))
      decreases r
    {
      p := p - 8;
      s0, s1, s2, s3 := InvSubAdd(s0, s1, s2, s3, expkey, p + 4);
      t0, t1, t2, t3 := UnmixWords(s0, s1, s2, s3);
      assert Rows(t0, t1, t2, t3) == InvRounds(block, keys, 2 * (5 - r) + 1);
      r := r - 1;
      if r == 0 {
        break;
      }
      t0, t1, t2, t3 := InvSubAdd(t0, t1, t2, t3, expkey, p);
      s0, s1, s2, s3 := UnmixWords(t0, t1, t2, t3);
    }
    t0, t1, t2, t3 := InvSubAdd(t0, t1, t2, t3, expkey, p);
    assert Rows(t0, t1, t2, t3) == InvCipher(block, keys);
    StoreBlock(t0, t1, t2, t3, output);
  }

  /**
   * The program's round trip, under any expanded key: what was encrypted is decrypted to the same four words.
   */
  method EncryptThenDecrypt(block: array<bv32>, expkey: array<bv32>)
    returns (encrypted: array<bv32>, decrypted: array<bv32>)
    requires block.Length == 4 && expkey.Length == 44
    ensures fresh(encrypted) && fresh(decrypted) && encrypted.Length == 4
    ensures BlockState(encrypted[..]) == Cipher(BlockState(block[..]), KeysOf(expkey[..]))
    ensures decrypted[..] == block[..]
  {
    hide Columns, Cipher, InvCipher;
    encrypted, decrypted := new bv32[4], new bv32[4];
    EncryptBlock(block, encrypted, expkey);
    DecryptBlock(encrypted, decrypted, expkey);
    CipherInverse(BlockState(block[..]), KeysOf(expkey[..]));
    SameBlock(decrypted[..], block[..]);
  }

  /** The words of a block are determined by the state it holds. */
  lemma SameBlock(v: seq<bv32>, w: seq<bv32>)
    requires |v| == |w| == 4 && BlockState(v) == BlockState(w)
    ensures v == w
  {
    hide Columns;
    ColumnsInjective(v[0], v[1], v[2], v[3], w[0], w[1], w[2], w[3]);
  }

  /** AES-128 of a block under a four-word key: key schedule, then encryption. */
  method Encrypt(key: array<bv32>, block: array<bv32>, output: array<bv32>)
    requires key.Length == 4 && block.Length == 4 && output.Length == 4
    modifies output
    ensures BlockState(output[..]) == Cipher(BlockState(old(block[..])), KeyExpansion(KeyQuads(old(key[..]))))
  {
    hide Columns, Cipher, KeyExpansion;
    var expanded := new bv32[44];
    KeySchedule(key, expanded);
    EncryptBlock(block, output, expanded);
  }
}
