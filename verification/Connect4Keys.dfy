/** The keys of the transposition table: a lock and an index taken from a code, and when they identify it. */
module Connect4Keys {
  import opened Connect4Board
  import opened Connect4Game
  import opened Connect4Threats
  import opened Connect4Hash

  /** Number of table entries: a little less than 2^23, the number of codes that share a lock. */
  const TRANSIZE := 8306069

  function Lock(code: bv64): (n: nat) {
    Number(code >> 23)
  }

  function Index(code: bv64): (n: nat)
    ensures n < TRANSIZE
  {
    Number(code) % TRANSIZE
  }

  // ----- Reversing the columns -----

  function Seventh(b: bv64): (r: bv64) { b >> 7 }

  function Join(r: bv64, c: bv64): (j: bv64) { (r << 7) | (c & 0x7F) }

  /** What is left of a code after `k` columns have been shifted out. */
  function Rest(code: bv64, k: nat): (r: bv64) {
    if k == 0 then code else Seventh(Rest(code, k - 1))
  }

  /** The first `k` columns, in the opposite order. */
  function Reversed(code: bv64, k: nat): (r: bv64) {
    if k == 0 then 0 else Join(Reversed(code, k - 1), Rest(code, k - 1))
  }

  function Seventh4(b: bv64): (r: bv64) { Seventh(Seventh(Seventh(Seventh(b)))) }

  lemma RestUnfolds(code: bv64)
    ensures Rest(code, 0) == code
    ensures Rest(code, 1) == Seventh(code) && Rest(code, 2) == Seventh(Seventh(code))
    ensures Rest(code, 3) == Seventh(Seventh(Seventh(code))) && Rest(code, 4) == Seventh4(code)
    ensures Rest(code, 5) == Seventh(Seventh4(code)) && Rest(code, 6) == Seventh(Seventh(Seventh4(code)))
    ensures Rest(code, 7) == Seventh(Seventh(Seventh(Seventh4(code))))
  {
    hide Seventh;
    assert Rest(code, 3) == Seventh(Rest(code, 2));
    assert Rest(code, 5) == Seventh(Rest(code, 4));
  }

  lemma LastColumn(code: bv64)
    requires InRange(code)
    ensures Seventh(Seventh(Seventh4(code))) != 0
  {}

  lemma NoColumn(code: bv64)
    requires InRange(code)
    ensures Seventh(Seventh(Seventh(Seventh4(code)))) == 0
  {}

  lemma SeventhOfZero()
    ensures Seventh(0) == 0
  {}

  /** A code loses its last bit exactly at the seventh shift. */
  lemma RestIsZero(code: bv64, k: nat)
    requires InRange(code) && k <= 7
    ensures Rest(code, k) == 0 <==> k == 7
  {
    hide Seventh, InRange;
    RestUnfolds(code);
    LastColumn(code);
    NoColumn(code);
    SeventhOfZero();
  }

  lemma Joined(code: bv64)
    requires InRange(code)
    ensures var c4 := Seventh4(code);
      Join(Join(Join(Join(Join(Join(Join(0, code), Seventh(code)), Seventh(Seventh(code))),
        Seventh(Seventh(Seventh(code)))),
        c4), Seventh(c4)), Seventh(Seventh(c4))) == Mirror(code)
  {}

  lemma ReversedStep(code: bv64, k: nat)
    ensures Reversed(code, 0) == 0
    ensures Rest(code, k + 1) == Seventh(Rest(code, k))
    ensures Reversed(code, k + 1) == Join(Reversed(code, k), Rest(code, k))
  {
    hide Join, Seventh;
  }

  lemma NothingReversed(code: bv64)
    ensures Rest(code, 0) == code && Reversed(code, 0) == 0
  {}

  lemma IndexSmall(code: bv64)
    ensures Index(code) < TRANSIZE
  {}

  /** Seven rounds of the loop make the mirror image. */
  lemma ReversedIsMirror(code: bv64)
    requires InRange(code)
    ensures Reversed(code, 7) == Mirror(code)
  {
    hide Seventh, Seventh4, Join, Mirror, Rest, Reversed, InRange;
    RestUnfolds(code);
    Joined(code);
    ReversedStep(code, 0);
    ReversedStep(code, 1);
    ReversedStep(code, 2);
    ReversedStep(code, 3);
    ReversedStep(code, 4);
    ReversedStep(code, 5);
    ReversedStep(code, 6);
  }

  // ----- Codes as numbers -----

  predicate HasBit(b: bv64, x: bv64) { b & x != 0 }

  function If(c: bool, n: nat): (r: nat) { if c then n else 0 }

  /** The number in the lowest column of a word. */
  function Digit(b: bv64): (n: nat)
    ensures n < 128
  {
    If(HasBit(b, 0x1), 1) + If(HasBit(b, 0x2), 2) + If(HasBit(b, 0x4), 4) + If(HasBit(b, 0x8), 8)
    + If(HasBit(b, 0x10), 16) + If(HasBit(b, 0x20), 32) + If(HasBit(b, 0x40), 64)
  }

  lemma ZeroHalves()
    ensures Half(0) == 0 && !Odd(0)
  {}

  lemma NumberHalves(b: bv64)
    ensures Number(b) == 2 * Number(Half(b)) + If(Odd(b), 1)
  {
    hide Half, Odd;
    ZeroHalves();
  }

  lemma HalfBits(b: bv64)
    ensures Odd(b) <==> HasBit(b, 0x1)
    ensures HasBit(Half(b), 0x1) <==> HasBit(b, 0x2)
    ensures HasBit(Half(b), 0x2) <==> HasBit(b, 0x4)
    ensures HasBit(Half(b), 0x4) <==> HasBit(b, 0x8)
    ensures HasBit(Half(b), 0x8) <==> HasBit(b, 0x10)
    ensures HasBit(Half(b), 0x10) <==> HasBit(b, 0x20)
    ensures HasBit(Half(b), 0x20) <==> HasBit(b, 0x40)
  {}

  lemma SevenHalves(b: bv64)
    ensures Half(Half(Half(Half(Half(Half(Half(b))))))) == Seventh(b)
  {}

  lemma OddBits(b: bv64)
    ensures Odd(b) <==> HasBit(b, 0x1)
    ensures Odd(Half(b)) <==> HasBit(b, 0x2)
    ensures Odd(Half(Half(b))) <==> HasBit(b, 0x4)
    ensures Odd(Half(Half(Half(b)))) <==> HasBit(b, 0x8)
    ensures Odd(Half(Half(Half(Half(b))))) <==> HasBit(b, 0x10)
    ensures Odd(Half(Half(Half(Half(Half(b)))))) <==> HasBit(b, 0x20)
    ensures Odd(Half(Half(Half(Half(Half(Half(b))))))) <==> HasBit(b, 0x40)
  {
    hide Half, Odd, HasBit;
    HalfBits(b);
    HalfBits(Half(b));
    HalfBits(Half(Half(b)));
    HalfBits(Half(Half(Half(b))));
    HalfBits(Half(Half(Half(Half(b)))));
    HalfBits(Half(Half(Half(Half(Half(b))))));
    HalfBits(Half(Half(Half(Half(Half(Half(b)))))));
  }

  /** A word's number, column by column. */
  lemma NumberColumn(b: bv64)
    ensures Number(b) == 128 * Number(Seventh(b)) + Digit(b)
  {
    hide Half, Odd, HasBit, Number, Seventh;
    OddBits(b);
    SevenHalves(b);
    NumberHalves(b);
    NumberHalves(Half(b));
    NumberHalves(Half(Half(b)));
    NumberHalves(Half(Half(Half(b))));
    NumberHalves(Half(Half(Half(Half(b)))));
    NumberHalves(Half(Half(Half(Half(Half(b))))));
    NumberHalves(Half(Half(Half(Half(Half(Half(b)))))));
  }

  lemma LockShift(code: bv64)
    ensures code >> 23 == Half(Half(Seventh(Seventh(Seventh(code)))))
  {}

  /** The two lowest bits of a code's fourth column. */
  function Fourth(code: bv64): (r: nat)
    ensures r < 4
  {
    var x := Seventh(Seventh(Seventh(code)));
    If(Odd(x), 1) + 2 * If(Odd(Half(x)), 1)
  }

  /** A code's number by its three lowest columns, the two lowest bits of the fourth, and the lock. */
  lemma NumberByLock(code: bv64)
    ensures Number(code) == Digit(code) + 128 * Digit(Seventh(code)) + 16384 * Digit(Seventh(Seventh(code)))
      + 2097152 * Fourth(code) + 8388608 * Lock(code)
  {
    hide Half, Odd, Digit, Number, Seventh;
    NumberColumn(code);
    NumberColumn(Seventh(code));
    NumberColumn(Seventh(Seventh(code)));
    var x := Seventh(Seventh(Seventh(code)));
    NumberHalves(x);
    NumberHalves(Half(x));
    LockShift(code);
  }

  lemma LockIsQuotient(code: bv64)
    ensures Lock(code) == Number(code) / 8388608
  {
    hide Number, Seventh, Lock;
    NumberByLock(code);
  }

  /** The 26-bit lock field and the 49-bit code lose nothing. */
  lemma LockFits(code: bv64)
    requires InRange(code)
    ensures Number(code) < 0x2_0000_0000_0000 && Lock(code) < 0x400_0000
  {
    hide Number, Seventh, Lock, InRange, Seventh4, Digit;
    LockIsQuotient(code);
    NoColumn(code);
    SeventhFour(code);
    NumberColumn(code);
    NumberColumn(Seventh(code));
    NumberColumn(Seventh(Seventh(code)));
    NumberColumn(Seventh(Seventh(Seventh(code))));
    var c4 := Seventh4(code);
    NumberColumn(c4);
    NumberColumn(Seventh(c4));
    NumberColumn(Seventh(Seventh(c4)));
  }

  lemma SeventhFour(code: bv64)
    ensures Seventh4(code) == Seventh(Seventh(Seventh(Seventh(code))))
  {}

  predicate SameKey(a: bv64, b: bv64) {
    Lock(a) == Lock(b) && Index(a) == Index(b)
  }

  /** Codes that share a key are equal or differ by exactly the table size. */
  lemma KeyCollision(a: bv64, b: bv64)
    ensures SameKey(a, b) <==>
      (a == b || (Lock(a) == Lock(b) && (Number(a) == Number(b) + 8306069 || Number(b) == Number(a) + 8306069)))
  {
    hide Number, Lock;
    LockIsQuotient(a);
    LockIsQuotient(b);
    if Number(a) == Number(b) {
      NumberInjective(a, b);
    }
  }

  // ----- A collision needs a finished game -----

  /** Adding in the lowest of some columns: the digit, and the carry into the rest. */
  lemma Carry(x: int, y: int, t: int, rest: int, sum: int) returns (c: int)
    requires 0 <= x < 128 && 0 <= y < 128 && 0 <= t <= 128 && y + 128 * sum == x + t + 128 * rest
    ensures (c == 0 || c == 1) && y == x + t - 128 * c && sum == rest + c
  {
    c := if x + t >= 128 then 1 else 0;
  }

  lemma CarryIntoColumn(x0: int, x1: int, x2: int, xr: int, y0: int, y1: int, y2: int, yr: int)
    requires 1 <= x0 < 128 && 1 <= x1 < 128 && 1 <= x2 < 128 && 0 <= xr < 4
    requires 0 <= y0 < 128 && 0 <= y1 < 128 && 0 <= y2 < 128 && 0 <= yr < 4
    requires y0 + 128 * y1 + 16384 * y2 + 2097152 * yr == x0 + 128 * x1 + 16384 * x2 + 2097152 * xr + TRANSIZE
    ensures y1 >= 124 || y2 >= 124
  {
    var c0 := Carry(x0, y0, 21, x1 + 128 * x2 + 16384 * xr + 64891, y1 + 128 * y2 + 16384 * yr);
    var c1 := Carry(x1, y1, 123 + c0, x2 + 128 * xr + 506, y2 + 128 * yr);
    var c2 := Carry(x2, y2, 122 + c1, xr + 3, yr);
  }

  lemma DigitOfColumn(b: bv64)
    requires b & 0x7F != 0
    ensures Digit(b) >= 1
  {
    SomeBit(b);
    hide HasBit;
  }

  lemma SomeBit(b: bv64)
    requires b & 0x7F != 0
    ensures HasBit(b, 0x1) || HasBit(b, 0x2) || HasBit(b, 0x4) || HasBit(b, 0x8) || HasBit(b, 0x10)
      || HasBit(b, 0x20) || HasBit(b, 0x40)
  {}

  lemma TopBits(b: bv64)
    requires Digit(b) >= 124
    ensures HasBit(b, 0x4) && HasBit(b, 0x8) && HasBit(b, 0x10) && HasBit(b, 0x20) && HasBit(b, 0x40)
  {
    hide HasBit;
  }

  predicate Filled(b: bv64, x: bv64) { b & x == x }

  lemma FilledColumn(b: bv64)
    requires HasBit(b, 0x4) && HasBit(b, 0x8) && HasBit(b, 0x10) && HasBit(b, 0x20) && HasBit(b, 0x40)
    ensures Filled(b, 0x7C)
  {}

  lemma Filled1(code: bv64)
    requires Filled(Seventh(code), 0x7C)
    ensures Filled(code, 0x3E00)
  {}

  lemma Filled2(code: bv64)
    requires Filled(Seventh(Seventh(code)), 0x7C)
    ensures Filled(code, 0x1F_0000)
  {}

  lemma MineFills1(code: bv64, m: bv64, s: bv64, f: Squares)
    requires Layout(code, m, s, f) && Filled(code, 0x3E00)
    ensures Filled(m, 0x1E00)
  {}

  lemma MineFills2(code: bv64, m: bv64, s: bv64, f: Squares)
    requires Layout(code, m, s, f) && Filled(code, 0x1F_0000)
    ensures Filled(m, 0xF_0000)
  {}

  lemma FilledWins(m: bv64)
    requires Filled(m, 0x1E00) || Filled(m, 0xF_0000)
    ensures Folded1(m) != 0
  {}

  lemma Column0(code: bv64, f: bv64)
    requires Tops(code, 0x7F, f)
    ensures code & 0x7F != 0
  {}

  lemma Column1(code: bv64, f: bv64)
    requires Tops(code, 0x3F80, f)
    ensures Seventh(code) & 0x7F != 0
  {}

  lemma Column2(code: bv64, f: bv64)
    requires Tops(code, 0x1F_C000, f)
    ensures Seventh(Seventh(code)) & 0x7F != 0
  {}

  lemma CodeDigits(p: Position)
    requires Ok(p)
    ensures var code := PositionCode(p);
      Digit(code) >= 1 && Digit(Seventh(code)) >= 1 && Digit(Seventh(Seventh(code))) >= 1
  {
    hide Bit, Tops, Stacked, Free, PositionCode, Digit, Seventh;
    var code := PositionCode(p);
    CodeTops(p);
    Column0(code, Bit(p.height[0]));
    Column1(code, Bit(p.height[1]));
    Column2(code, Bit(p.height[2]));
    DigitOfColumn(code);
    DigitOfColumn(Seventh(code));
    DigitOfColumn(Seventh(Seventh(code)));
  }

  lemma HighDigits(code: bv64)
    requires Digit(Seventh(code)) >= 124 || Digit(Seventh(Seventh(code))) >= 124
    ensures Filled(code, 0x3E00) || Filled(code, 0x1F_0000)
  {
    hide HasBit, Digit, Seventh, Filled;
    if Digit(Seventh(code)) >= 124 {
      TopBits(Seventh(code));
      FilledColumn(Seventh(code));
      Filled1(code);
    } else {
      TopBits(Seventh(Seventh(code)));
      FilledColumn(Seventh(Seventh(code)));
      Filled2(code);
    }
  }

  lemma FilledCode(q: Position)
    requires Ok(q) && (Filled(PositionCode(q), 0x3E00) || Filled(PositionCode(q), 0x1F_0000))
    ensures HasWon(Mine(q))
  {
    hide Lowest, Layout, Stacked, Union, PositionCode, Filled, Folded1, Folded6, Folded7, Folded8, Mine, Stones;
    var b, s, f := PositionCode(q), Stones(q.color[0], q.color[1]), Lowest(q.height);
    CodeLayout(q);
    if Filled(b, 0x3E00) {
      MineFills1(b, Mine(q), s, f);
    } else {
      MineFills2(b, Mine(q), s, f);
    }
    FilledWins(Mine(q));
  }

  /** The larger of two colliding codes shows four of the mover's stones on top of each other. */
  lemma CollisionHasFour(p: Position, q: Position)
    requires Ok(p) && Ok(q)
    requires Lock(PositionCode(p)) == Lock(PositionCode(q))
    requires Number(PositionCode(q)) == Number(PositionCode(p)) + TRANSIZE
    ensures HasWon(Mine(q))
  {
    hide Stacked, Free, ValidHeights, PositionCode, Digit, Seventh, Number, Lock, Filled, HasWon, Mine;
    var a, b := PositionCode(p), PositionCode(q);
    CodeDigits(p);
    NumberByLock(a);
    NumberByLock(b);
    CarryIntoColumn(Digit(a), Digit(Seventh(a)), Digit(Seventh(Seventh(a))), Fourth(a),
      Digit(b), Digit(Seventh(b)), Digit(Seventh(Seventh(b))), Fourth(b));
    HighDigits(b);
    FilledCode(q);
  }

  function FirstExample(): (p: Position) {
    Position([0x181, 0xE0_0000], [1, 9, 14, 24, 28, 35, 42], 6)
  }

  function SecondExample(): (p: Position) {
    Position([0x6F_0008, 0x80_C087], [4, 8, 20, 24, 28, 35, 42], 14)
  }

  lemma FirstOk()
    ensures Ok(FirstExample()) && PositionCode(FirstExample()) == 0x408_1100_4383
  {
    assert Bit(1) == 0x2 && Bit(9) == 0x200 && Bit(14) == 0x4000 && Bit(24) == 0x100_0000;
    assert Bit(28) == 0x1000_0000 && Bit(35) == 0x8_0000_0000 && Bit(42) == 0x400_0000_0000;
  }

  lemma SecondOk()
    ensures Ok(SecondExample()) && PositionCode(SecondExample()) == 0x408_117F_0118
  {
    assert Bit(4) == 0x10 && Bit(8) == 0x100 && Bit(20) == 0x10_0000 && Bit(24) == 0x100_0000;
    assert Bit(28) == 0x1000_0000 && Bit(35) == 0x8_0000_0000 && Bit(42) == 0x400_0000_0000;
  }

  lemma ExampleDigits()
    ensures Seventh(0x408_1100_4383) == 0x8_1022_0087 && Seventh(0x8_1022_0087) == 0x1020_4401
    ensures Digit(0x408_1100_4383) == 3 && Digit(0x8_1022_0087) == 7 && Digit(0x1020_4401) == 1
    ensures Seventh(0x408_117F_0118) == 0x8_1022_FE02 && Seventh(0x8_1022_FE02) == 0x1020_45FC
    ensures Digit(0x408_117F_0118) == 24 && Digit(0x8_1022_FE02) == 2 && Digit(0x1020_45FC) == 124
    ensures Fourth(0x408_1100_4383) == 0 && Fourth(0x408_117F_0118) == 3
  {}

  lemma ExampleLock()
    ensures Lock(0x408_1100_4383) == Lock(0x408_117F_0118)
  {
    hide Number;
  }

  /** Once a game is over keys do collide: two well-formed boards with the same lock and index. */
  lemma CollisionExists()
    ensures Ok(FirstExample()) && Ok(SecondExample()) && FirstExample() != SecondExample()
    ensures SameKey(PositionCode(FirstExample()), PositionCode(SecondExample()))
  {
    hide Ok, PositionCode, Number, Digit, Lock, Fourth, Seventh, SameKey;
    FirstOk();
    SecondOk();
    ExampleDigits();
    ExampleLock();
    NumberByLock(0x408_1100_4383);
    NumberByLock(0x408_117F_0118);
    KeyCollision(0x408_1100_4383, 0x408_117F_0118);
  }

  /** Among positions whose mover has not won, the key of a code identifies the position. */
  lemma KeyIdentifies(p: Position, q: Position)
    requires Ok(p) && Ok(q) && !HasWon(Mine(p)) && !HasWon(Mine(q))
    requires SameKey(PositionCode(p), PositionCode(q))
    ensures p == q
  {
    hide HasWon, Stacked, Free, ValidHeights, PositionCode, Number, Lock;
    KeyCollision(PositionCode(p), PositionCode(q));
    if PositionCode(p) == PositionCode(q) {
      CodeInjective(p, q);
    } else if Number(PositionCode(q)) == Number(PositionCode(p)) + TRANSIZE {
      CollisionHasFour(p, q);
    } else {
      CollisionHasFour(q, p);
    }
  }

  lemma ImageNotWon(p: Position) returns (q: Position)
    requires Ok(p) && !HasWon(Mine(p))
    ensures Ok(q) && !HasWon(Mine(q)) && PositionCode(q) == NormCode(p)
  {
    hide HasWon, Stacked, Free, PositionCode, Mirror, Below, Smaller;
    SmallerIsOne(PositionCode(p), Mirror(PositionCode(p)));
    MirrorCode(p);
    MirrorSides(p);
    StonesOnBoard(p);
    MirrorWon(Mine(p));
    q := if NormCode(p) == PositionCode(p) then p else MirrorPosition(p);
  }

  /** Two unwon positions that share lock and index are worth the same: the table cannot confuse them. */
  lemma SharedKeyValue(p: Position, q: Position)
    requires Ok(p) && Ok(q) && !HasWon(Mine(p)) && !HasWon(Mine(q))
    requires SameKey(NormCode(p), NormCode(q))
    ensures Value(p) == Value(q)
    ensures p == q || (p.nplies < SYMMREC && q == MirrorPosition(p))
  {
    hide HasWon, Stacked, Free, ValidHeights, PositionCode, NormCode, Value, MirrorPosition, SameKey;
    var r := ImageNotWon(p);
    var t := ImageNotWon(q);
    KeyIdentifies(r, t);
    NormCodeIff(p, q);
    NormCodeValue(p, q);
  }
}
