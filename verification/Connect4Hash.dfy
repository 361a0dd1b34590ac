/** Position codes and their mirror images: a code determines its position, and images have equal values. */
module Connect4Hash {
  import opened Connect4Board
  import opened Connect4Game
  import opened Connect4Threats

  // ----- A position's code determines the position -----

  function Sum(a: bv64, b: bv64): (s: bv64) { a + b }

  function Code(mine: bv64, c0: bv64, c1: bv64): (code: bv64) {
    Sum(Sum(Sum(mine, c0), c1), BOTTOM)
  }

  /** The code of a position: the mover's stones on top of the bitmap of heights. */
  function PositionCode(p: Position): (code: bv64)
    requires |p.color| == 2
  {
    Code(Mine(p), p.color[0], p.color[1])
  }

  /** A code shows the free squares above the mover's stones, with no carry from one column to the next. */
  predicate Shows(code: bv64, mine: bv64, free: bv64) {
    code == Or(mine, free) && Clear(mine, free)
  }

  lemma Associative(a: bv64, b: bv64, c: bv64)
    ensures (a + b) + c == a + (b + c)
  {}

  lemma SumAssociative(a: bv64, b: bv64, c: bv64)
    ensures Sum(Sum(a, b), c) == Sum(a, Sum(b, c))
  {
    calc {
      Sum(Sum(a, b), c);
      Sum(a + b, c);
      (a + b) + c;
      { Associative(a, b, c); }
      a + (b + c);
      Sum(a, b + c);
      Sum(a, Sum(b, c));
    }
  }

  lemma NoCarry(m: bv64, f: bv64)
    requires Clear(m, f)
    ensures Sum(m, f) == Or(m, f)
  {
    assert m + f == m | f;
  }

  /** Adding the bottom row to the stones carries each column up to its free square. */
  lemma PiledSum(s: bv64, free: bv64)
    requires Piled(s, free)
    ensures Sum(s, BOTTOM) == free
  {}

  lemma Disjoint(c0: bv64, c1: bv64, free: bv64)
    requires Clear(Stones(c0, c1), free)
    ensures Clear(c0, free) && Clear(c1, free)
  {}

  lemma CodeBits(c0: bv64, c1: bv64, free: bv64, mine: bv64)
    requires Stacked(c0, c1, free) && (mine == c0 || mine == c1)
    ensures Shows(Code(mine, c0, c1), mine, free)
  {
    hide Clear, Supported, Topped, Below, Or, Sum;
    SumAssociative(mine, c0, c1);
    SumAssociative(mine, Sum(c0, c1), BOTTOM);
    NoCarry(c0, c1);
    PiledSum(Stones(c0, c1), free);
    Disjoint(c0, c1, free);
    NoCarry(mine, free);
  }

  lemma CodeShows(p: Position)
    requires Ok(p)
    ensures Shows(PositionCode(p), Mine(p), Free(p.height))
  {
    hide Free, Shows, Stacked, Code;
    CodeBits(p.color[0], p.color[1], Free(p.height), Mine(p));
  }

  /** Within its column the free square is above all stones. */
  predicate Tops(code: bv64, col: bv64, f: bv64) {
    code & col >= f && code & col < f + f && f & (f - 1) == 0 && f != 0 && f & col == f && f < 0x2_0000_0000_0000
  }

  /** A code, the mover's stones in it, all the stones, and the lowest free squares. */
  ghost predicate Layout(code: bv64, m: bv64, s: bv64, f: Squares) {
    InColumns(f) && Piled(s, Union(f)) && Shows(code, m, Union(f)) && PartOf(m, s)
  }

  lemma Tops0(code: bv64, m: bv64, s: bv64, f: Squares)
    requires Layout(code, m, s, f)
    ensures Tops(code, 0x7F, f.f0)
  {}

  lemma Tops1(code: bv64, m: bv64, s: bv64, f: Squares)
    requires Layout(code, m, s, f)
    ensures Tops(code, 0x3F80, f.f1)
  {}

  lemma Tops2(code: bv64, m: bv64, s: bv64, f: Squares)
    requires Layout(code, m, s, f)
    ensures Tops(code, 0x1F_C000, f.f2)
  {}

  lemma Tops3(code: bv64, m: bv64, s: bv64, f: Squares)
    requires Layout(code, m, s, f)
    ensures Tops(code, 0xFE0_0000, f.f3)
  {}

  lemma Tops4(code: bv64, m: bv64, s: bv64, f: Squares)
    requires Layout(code, m, s, f)
    ensures Tops(code, 0x7_F000_0000, f.f4)
  {}

  lemma Tops5(code: bv64, m: bv64, s: bv64, f: Squares)
    requires Layout(code, m, s, f)
    ensures Tops(code, 0x3F8_0000_0000, f.f5)
  {}

  lemma Tops6(code: bv64, m: bv64, s: bv64, f: Squares)
    requires Layout(code, m, s, f)
    ensures Tops(code, 0x1_FC00_0000_0000, f.f6)
  {}

  lemma SameTop(code: bv64, col: bv64, f: bv64, g: bv64)
    requires Tops(code, col, f) && Tops(code, col, g)
    ensures f == g
  {}

  lemma MineIsOne(p: Position)
    requires |p.color| == 2
    ensures Mine(p) == p.color[0] || Mine(p) == p.color[1]
  {}

  lemma StonesPart(c0: bv64, c1: bv64)
    ensures PartOf(c0, Stones(c0, c1)) && PartOf(c1, Stones(c0, c1))
  {}

  lemma CodeLayout(p: Position)
    requires Ok(p)
    ensures Layout(PositionCode(p), Mine(p), Stones(p.color[0], p.color[1]), Lowest(p.height))
  {
    hide Lowest, InColumns, Union, Shows, Code, Piled, Stones, Clear, PartOf, Mine;
    LowestInColumns(p.height);
    CodeShows(p);
    MineIsOne(p);
    StonesPart(p.color[0], p.color[1]);
  }

  lemma CodeTops(p: Position)
    requires Ok(p)
    ensures Tops(PositionCode(p), 0x7F, Bit(p.height[0]))
    ensures Tops(PositionCode(p), 0x3F80, Bit(p.height[1]))
    ensures Tops(PositionCode(p), 0x1F_C000, Bit(p.height[2]))
    ensures Tops(PositionCode(p), 0xFE0_0000, Bit(p.height[3]))
    ensures Tops(PositionCode(p), 0x7_F000_0000, Bit(p.height[4]))
    ensures Tops(PositionCode(p), 0x3F8_0000_0000, Bit(p.height[5]))
    ensures Tops(PositionCode(p), 0x1_FC00_0000_0000, Bit(p.height[6]))
  {
    hide Bit, Stacked, Free, Tops, Layout, PositionCode, Mine, Stones;
    CodeLayout(p);
    var code, m, s, f := PositionCode(p), Mine(p), Stones(p.color[0], p.color[1]), Lowest(p.height);
    Tops0(code, m, s, f);
    Tops1(code, m, s, f);
    Tops2(code, m, s, f);
    Tops3(code, m, s, f);
    Tops4(code, m, s, f);
    Tops5(code, m, s, f);
    Tops6(code, m, s, f);
  }

  lemma BitInjective(c: nat, i: nat, j: nat)
    requires c < WIDTH && 7 * c <= i < 7 * c + 7 && 7 * c <= j < 7 * c + 7 && Bit(i) == Bit(j)
    ensures i == j
  {}

  /** Two shown boards with the same free squares are the same board. */
  lemma MineShown(code: bv64, m: bv64, n: bv64, free: bv64)
    requires Shows(code, m, free) && Shows(code, n, free)
    ensures m == n
  {}

  lemma SamePile(s: bv64, t: bv64, free: bv64)
    requires Piled(s, free) && Piled(t, free)
    ensures s == t
  {}

  lemma SameOther(c0: bv64, c1: bv64, d0: bv64, d1: bv64)
    requires Clear(c0, c1) && Clear(d0, d1) && Stones(c0, c1) == Stones(d0, d1) && (c0 == d0 || c1 == d1)
    ensures c0 == d0 && c1 == d1
  {}

  lemma SameHeight(p: Position, q: Position, c: nat, col: bv64)
    requires Ok(p) && Ok(q) && c < WIDTH && PositionCode(p) == PositionCode(q)
    requires Tops(PositionCode(p), col, Bit(p.height[c])) && Tops(PositionCode(q), col, Bit(q.height[c]))
    ensures p.height[c] == q.height[c]
  {
    hide Bit, Tops, PositionCode, Stacked, Free;
    SameTop(PositionCode(p), col, Bit(p.height[c]), Bit(q.height[c]));
    BitInjective(c, p.height[c], q.height[c]);
  }

  lemma SameHeights(p: Position, q: Position)
    requires Ok(p) && Ok(q) && PositionCode(p) == PositionCode(q)
    ensures p.height == q.height
  {
    hide Bit, Tops, PositionCode, Stacked, Free;
    CodeTops(p);
    CodeTops(q);
    SameHeight(p, q, 0, 0x7F);
    SameHeight(p, q, 1, 0x3F80);
    SameHeight(p, q, 2, 0x1F_C000);
    SameHeight(p, q, 3, 0xFE0_0000);
    SameHeight(p, q, 4, 0x7_F000_0000);
    SameHeight(p, q, 5, 0x3F8_0000_0000);
    SameHeight(p, q, 6, 0x1_FC00_0000_0000);
  }

  /** The position code is a complete encoding: no two positions share one. */
  lemma CodeInjective(p: Position, q: Position)
    requires Ok(p) && Ok(q) && PositionCode(p) == PositionCode(q)
    ensures p == q
  {
    hide PositionCode, Free, Shows, Piled, Stones, Clear;
    SameHeights(p, q);
    CodeShows(p);
    CodeShows(q);
    MineShown(PositionCode(p), Mine(p), Mine(q), Free(p.height));
    SamePile(Stones(p.color[0], p.color[1]), Stones(q.color[0], q.color[1]), Free(p.height));
    SameOther(p.color[0], p.color[1], q.color[0], q.color[1]);
  }

  // ----- Mirror images -----

  /** The seven columns of a board in the opposite order. */
  function Mirror(b: bv64): (m: bv64) {
    ((b & 0x7F) << 42) | (((b >> 7) & 0x7F) << 35) | (((b >> 14) & 0x7F) << 28) | (((b >> 21) & 0x7F) << 21)
    | (((b >> 28) & 0x7F) << 14) | (((b >> 35) & 0x7F) << 7) | ((b >> 42) & 0x7F)
  }

  function MirrorHeight(height: seq<nat>): (h: seq<nat>)
    requires ValidHeights(height)
    ensures ValidHeights(h) && Plies(h) == Plies(height)
  {
    [height[6] - 42, height[5] - 28, height[4] - 14, height[3], height[2] + 14, height[1] + 28, height[0] + 42]
  }

  function MirrorPosition(p: Position): (q: Position)
    requires Ok(p)
  {
    Position([Mirror(p.color[0]), Mirror(p.color[1])], MirrorHeight(p.height), p.nplies)
  }

  lemma MirrorBit(c: nat, i: nat)
    requires c < WIDTH && 7 * c <= i < 7 * c + 7
    ensures Bit(i + 42 - 14 * c) == Mirror(Bit(i))
  {
    if c == 0 {} else if c == 1 {} else if c == 2 {} else if c == 3 {} else if c == 4 {} else if c == 5 {} else {}
  }

  lemma MirrorUnion(f: Squares)
    ensures Mirror(Union(f))
      == Union(Squares(Mirror(f.f6), Mirror(f.f5), Mirror(f.f4), Mirror(f.f3), Mirror(f.f2), Mirror(f.f1),
        Mirror(f.f0)))
  {}

  lemma MirrorFree(height: seq<nat>)
    requires ValidHeights(height)
    ensures Free(MirrorHeight(height)) == Mirror(Free(height))
  {
    hide Bit, Union, Mirror;
    MirrorUnion(Lowest(height));
    MirrorBit(0, height[0]);
    MirrorBit(1, height[1]);
    MirrorBit(2, height[2]);
    MirrorBit(3, height[3]);
    MirrorBit(4, height[4]);
    MirrorBit(5, height[5]);
    MirrorBit(6, height[6]);
  }

  lemma MirrorPiled(s: bv64, f: bv64)
    requires Piled(s, f)
    ensures Piled(Mirror(s), Mirror(f))
  {}

  lemma MirrorOr(a: bv64, b: bv64)
    ensures Mirror(a | b) == Mirror(a) | Mirror(b)
  {}

  lemma MirrorStones(a: bv64, b: bv64)
    ensures Mirror(Or(a, b)) == Or(Mirror(a), Mirror(b))
  {
    MirrorOr(a, b);
    hide Mirror;
    assert Or(a, b) == a | b;
  }

  lemma MirrorClear(c0: bv64, c1: bv64)
    requires Clear(c0, c1)
    ensures Clear(Mirror(c0), Mirror(c1))
  {}

  lemma MirrorOk(p: Position)
    requires Ok(p)
    ensures Ok(MirrorPosition(p))
  {
    hide Free, Mirror, Piled, Or, Clear;
    var c0, c1 := p.color[0], p.color[1];
    MirrorPiled(Stones(c0, c1), Free(p.height));
    MirrorStones(c0, c1);
    MirrorClear(c0, c1);
    MirrorFree(p.height);
  }

  lemma MirrorShows(code: bv64, m: bv64, f: bv64)
    requires Shows(code, m, f)
    ensures Shows(Mirror(code), Mirror(m), Mirror(f))
  {
    hide Mirror;
    MirrorStones(m, f);
    MirrorClear(m, f);
  }

  lemma ShownOnce(a: bv64, b: bv64, m: bv64, f: bv64)
    requires Shows(a, m, f) && Shows(b, m, f)
    ensures a == b
  {}

  lemma MirrorSides(p: Position)
    requires Ok(p)
    ensures Mine(MirrorPosition(p)) == Mirror(Mine(p))
    ensures Theirs(MirrorPosition(p)) == Mirror(Theirs(p))
  {
    hide Mirror, Stacked, Free;
  }

  /** The code of the mirrored board is the mirrored code. */
  lemma MirrorCode(p: Position)
    requires Ok(p)
    ensures Ok(MirrorPosition(p))
    ensures PositionCode(MirrorPosition(p)) == Mirror(PositionCode(p))
  {
    hide Stacked, Free, Mirror, PositionCode, Shows, Mine;
    MirrorOk(p);
    MirrorSides(p);
    var q := MirrorPosition(p);
    CodeShows(p);
    CodeShows(q);
    MirrorFree(p.height);
    MirrorShows(PositionCode(p), Mine(p), Free(p.height));
    ShownOnce(PositionCode(q), Mirror(PositionCode(p)), Mine(q), Free(q.height));
  }

  lemma MirrorFalling(b: bv64)
    requires b & 0xFFFF_0204_0810_2040 == 0
    ensures var m := ((b & 0x7F) << 42) | (((b >> 7) & 0x7F) << 35) | (((b >> 14) & 0x7F) << 28)
      | (((b >> 21) & 0x7F) << 21)
        | (((b >> 28) & 0x7F) << 14) | (((b >> 35) & 0x7F) << 7) | ((b >> 42) & 0x7F);
      var y := m & (m >> 6);
      var z := b & (b >> 8);
      y & (y >> 12) != 0 <==> z & (z >> 16) != 0
  {}

  lemma MirrorLevel(b: bv64)
    requires b & 0xFFFF_0204_0810_2040 == 0
    ensures var m := ((b & 0x7F) << 42) | (((b >> 7) & 0x7F) << 35) | (((b >> 14) & 0x7F) << 28)
      | (((b >> 21) & 0x7F) << 21)
        | (((b >> 28) & 0x7F) << 14) | (((b >> 35) & 0x7F) << 7) | ((b >> 42) & 0x7F);
      var y := m & (m >> 7);
      var z := b & (b >> 7);
      y & (y >> 14) != 0 <==> z & (z >> 14) != 0
  {}

  lemma MirrorRising(b: bv64)
    requires b & 0xFFFF_0204_0810_2040 == 0
    ensures var m := ((b & 0x7F) << 42) | (((b >> 7) & 0x7F) << 35) | (((b >> 14) & 0x7F) << 28)
      | (((b >> 21) & 0x7F) << 21)
        | (((b >> 28) & 0x7F) << 14) | (((b >> 35) & 0x7F) << 7) | ((b >> 42) & 0x7F);
      var y := m & (m >> 8);
      var z := b & (b >> 6);
      y & (y >> 16) != 0 <==> z & (z >> 12) != 0
  {}

  lemma MirrorVertical(b: bv64)
    requires b & 0xFFFF_0204_0810_2040 == 0
    ensures var m := ((b & 0x7F) << 42) | (((b >> 7) & 0x7F) << 35) | (((b >> 14) & 0x7F) << 28)
      | (((b >> 21) & 0x7F) << 21)
        | (((b >> 28) & 0x7F) << 14) | (((b >> 35) & 0x7F) << 7) | ((b >> 42) & 0x7F);
      var y := m & (m >> 1);
      var z := b & (b >> 1);
      y & (y >> 2) != 0 <==> z & (z >> 2) != 0
  {}

  lemma MirrorFolds(b: bv64)
    requires Below(b)
    ensures Folded6(Mirror(b)) != 0 <==> Folded8(b) != 0
    ensures Folded8(Mirror(b)) != 0 <==> Folded6(b) != 0
  {
    MirrorFalling(b);
    MirrorRising(b);
  }

  lemma MirrorStraight(b: bv64)
    requires Below(b)
    ensures Folded7(Mirror(b)) != 0 <==> Folded7(b) != 0
    ensures Folded1(Mirror(b)) != 0 <==> Folded1(b) != 0
  {
    MirrorLevel(b);
    MirrorVertical(b);
  }

  /** Four in a row is seen in the mirror. */
  lemma MirrorWon(b: bv64)
    requires Below(b)
    ensures HasWon(Mirror(b)) <==> HasWon(b)
  {
    hide Mirror, Below, Folded1, Folded6, Folded7, Folded8;
    MirrorFolds(b);
    MirrorStraight(b);
  }

  lemma MirrorTheirs(p: Position)
    requires Ok(p) && Ok(MirrorPosition(p))
    ensures HasFour(Theirs(MirrorPosition(p))) <==> HasFour(Theirs(p))
  {
    hide HasWon, HasFour, Stacked, Free, Mirror, Below;
    MirrorSides(p);
    StonesOnBoard(p);
    MirrorWon(Theirs(p));
    WonIsFour(p);
    WonIsFour(MirrorPosition(p));
  }

  lemma MirrorXor(b: bv64, f: bv64)
    ensures Mirror(Xor(b, f)) == Xor(Mirror(b), Mirror(f))
  {}

  lemma MirrorFlip(b: bv64, c: nat, i: nat)
    requires c < WIDTH && 7 * c <= i < 7 * c + 7
    ensures Mirror(Flip(b, i)) == Flip(Mirror(b), i + 42 - 14 * c)
  {
    hide Bit, Mirror, Xor;
    MirrorBit(c, i);
    MirrorXor(b, Bit(i));
  }

  lemma MirrorRaise(height: seq<nat>, c: nat)
    requires ValidHeights(height) && c < WIDTH && height[c] < 7 * c + HEIGHT
    ensures ValidHeights(height[c := height[c] + 1])
    ensures MirrorHeight(height[c := height[c] + 1]) == MirrorHeight(height)[6 - c := height[c] + 43 - 14 * c]
  {
    if c == 0 {} else if c == 1 {} else if c == 2 {} else if c == 3 {} else if c == 4 {} else if c == 5 {} else {}
  }

  lemma MirroredHeight(height: seq<nat>, c: nat)
    requires ValidHeights(height) && c < WIDTH
    ensures MirrorHeight(height)[6 - c] == height[c] + 42 - 14 * c
  {}

  lemma MirrorColors(color: seq<bv64>, s: nat, x: bv64)
    requires |color| == 2 && s < 2
    ensures var d := color[s := x]; [Mirror(d[0]), Mirror(d[1])] == [Mirror(color[0]), Mirror(color[1])][s := Mirror(x)]
  {
    hide Mirror;
  }

  lemma MirrorPlayable(p: Position, c: nat)
    requires Ok(p) && Ok(MirrorPosition(p)) && c < WIDTH
    ensures Playable(MirrorPosition(p), 6 - c) <==> Playable(p, c)
  {
    hide Stacked, Free, Mirror;
  }

  /** Moving in the mirrored column leads to the mirrored position. */
  lemma MirrorPlay(p: Position, c: nat)
    requires Ok(p) && Ok(MirrorPosition(p)) && Playable(p, c)
    ensures Ok(Play(p, c)) && Playable(MirrorPosition(p), 6 - c)
    ensures Play(MirrorPosition(p), 6 - c) == MirrorPosition(Play(p, c))
  {
    hide Stacked, Free, Mirror, Flip, MirrorHeight;
    PlayOk(p, c);
    MirroredHeight(p.height, c);
    MirrorRaise(p.height, c);
    MirrorPlayable(p, c);
    MirrorFlip(Mine(p), c, p.height[c]);
    MirrorSides(p);
    MirrorColors(p.color, Side(p), Flip(Mine(p), p.height[c]));
    hide Mine;
  }

  lemma {:induction false} MirrorMoves(p: Position, c: nat)
    requires Ok(p) && Ok(MirrorPosition(p)) && Playable(p, c) && Playable(MirrorPosition(p), 6 - c)
    ensures MoveValue(MirrorPosition(p), 6 - c) == MoveValue(p, c)
    decreases SIZE - p.nplies, 0
  {
    hide Stacked, Free, Mirror, HasFour, Best;
    RoomLeft(p, c);
    MirrorPlay(p, c);
    MirrorValue(Play(p, c));
  }

  /** A position and its mirror image are worth the same. */
  lemma {:induction false} MirrorValue(p: Position)
    requires Ok(p)
    ensures Ok(MirrorPosition(p)) && Value(MirrorPosition(p)) == Value(p)
    decreases SIZE - p.nplies, 1
  {
    hide Stacked, Free, Mirror, HasFour, HasWon, Best, MoveValue, Playable;
    MirrorOk(p);
    var q := MirrorPosition(p);
    MirrorTheirs(p);
    WonIsFour(p);
    WonIsFour(q);
    if !HasWon(Theirs(p)) && p.nplies < SIZE {
      forall c: nat | c < WIDTH
        ensures Playable(p, c) <==> Playable(q, 6 - c)
        ensures Playable(p, c) ==> MoveValue(q, 6 - c) == MoveValue(p, c)
        ensures Playable(p, c) ==> MoveValue(p, c) <= Value(q) && MoveValue(q, 6 - c) <= Value(p)
      {
        MirrorPlayable(p, c);
        if Playable(p, c) {
          MirrorMoves(p, c);
          ValueAtLeast(p, c);
          ValueAtLeast(q, 6 - c);
        }
      }
      ValueAtMost(p, Value(q));
      forall c | 0 <= c < WIDTH && Playable(q, c)
        ensures MoveValue(q, c) <= Value(p)
      {
        assert c == 6 - (6 - c);
        MirrorPlayable(p, 6 - c);
      }
      ValueAtMost(q, Value(p));
    }
  }

  // ----- The hash code -----

  const SYMMREC := 10

  function Half(b: bv64): (h: bv64) { b >> 1 }

  predicate Odd(b: bv64) { b & 1 != 0 }

  /** A word as an unsigned integer. */
  function Number(b: bv64): (n: nat)
    ensures n == 0 <==> b == 0
    decreases b
  {
    if b == 0 then 0 else
      Shrinks(b);
      2 * Number(Half(b)) + (if Odd(b) then 1 else 0)
  }

  lemma Shrinks(b: bv64)
    requires b != 0
    ensures Half(b) < b && (Half(b) == 0 ==> Odd(b))
  {}

  lemma SameHalves(a: bv64, b: bv64)
    requires Half(a) == Half(b) && (Odd(a) <==> Odd(b))
    ensures a == b
  {}

  lemma {:induction false} NumberInjective(a: bv64, b: bv64)
    requires Number(a) == Number(b)
    ensures a == b
    decreases Number(a)
  {
    hide Half, Odd;
    if a != 0 && b != 0 {
      Shrinks(a);
      NumberInjective(Half(a), Half(b));
      SameHalves(a, b);
    }
  }

  /** The smaller of two words. */
  function Smaller(a: bv64, b: bv64): (m: bv64) {
    if Number(b) < Number(a) then b else a
  }

  /** The code the table is consulted under: early in the game, the smaller of a code and its mirror image. */
  function NormCode(p: Position): (code: bv64)
    requires |p.color| == 2
  {
    if p.nplies < SYMMREC then Smaller(PositionCode(p), Mirror(PositionCode(p))) else PositionCode(p)
  }

  predicate InRange(code: bv64) {
    0x400_0000_0000 <= code <= 0x1_FFFF_FFFF_FFFF
  }

  lemma LayoutInRange(code: bv64, m: bv64, s: bv64, f: Squares)
    requires Layout(code, m, s, f)
    ensures InRange(code)
  {}

  /** A code fits in the 49 bits of the board and has a bit in the last column. */
  lemma CodeInRange(p: Position)
    requires Ok(p)
    ensures InRange(PositionCode(p))
  {
    hide Lowest, Stacked, PositionCode, Layout, Stones, InRange, Mine;
    CodeLayout(p);
    LayoutInRange(PositionCode(p), Mine(p), Stones(p.color[0], p.color[1]), Lowest(p.height));
  }

  lemma MirrorTwice(code: bv64)
    requires InRange(code)
    ensures Mirror(Mirror(code)) == code
  {}

  lemma SmallerSwap(a: bv64, b: bv64)
    ensures Smaller(a, b) == Smaller(b, a)
  {
    hide Number;
    if Number(a) == Number(b) {
      NumberInjective(a, b);
    }
  }

  lemma SmallerIsOne(a: bv64, b: bv64)
    ensures Smaller(a, b) == a || Smaller(a, b) == b
  {
    hide Number;
  }

  /** The mirrored position is looked up under the same code. */
  lemma NormCodeMirror(p: Position)
    requires Ok(p) && p.nplies < SYMMREC
    ensures NormCode(MirrorPosition(p)) == NormCode(p)
  {
    hide Stacked, Free, Mirror, PositionCode, InRange, Smaller;
    MirrorCode(p);
    CodeInRange(p);
    MirrorTwice(PositionCode(p));
    SmallerSwap(PositionCode(p), Mirror(PositionCode(p)));
  }

  lemma MirrorInjective(p: Position, q: Position)
    requires Ok(p) && Ok(q) && PositionCode(q) == Mirror(PositionCode(p))
    ensures q == MirrorPosition(p)
  {
    hide ValidHeights, Stacked, Free, MirrorPosition, PositionCode, Mirror;
    MirrorCode(p);
    CodeInjective(q, MirrorPosition(p));
  }

  lemma MirrorKeepsPlies(p: Position)
    requires Ok(p)
    ensures MirrorPosition(p).nplies == p.nplies
  {}

  lemma NormImages(p: Position, q: Position)
    requires Ok(p) && Ok(q) && NormCode(p) == NormCode(q)
    ensures PositionCode(p) == PositionCode(q) || PositionCode(q) == Mirror(PositionCode(p))
  {
    hide ValidHeights, Stacked, Free, PositionCode, Mirror, InRange, Smaller;
    var a, b := PositionCode(p), PositionCode(q);
    CodeInRange(p);
    CodeInRange(q);
    SmallerIsOne(a, Mirror(a));
    SmallerIsOne(b, Mirror(b));
    MirrorTwice(a);
    MirrorTwice(b);
  }

  lemma NormPlies(p: Position, q: Position)
    requires Ok(p) && Ok(q) && NormCode(p) == NormCode(q)
    ensures p == q || (p.nplies < SYMMREC && q == MirrorPosition(p))
  {
    hide ValidHeights, Stacked, Free, PositionCode, Mirror, MirrorPosition, Smaller;
    NormImages(p, q);
    if PositionCode(p) == PositionCode(q) {
      CodeInjective(p, q);
    } else {
      MirrorInjective(p, q);
      MirrorKeepsPlies(p);
    }
  }

  /**
   * Two positions are looked up under one code exactly when they are the same, or early mirror images of each other.
   */
  lemma NormCodeIff(p: Position, q: Position)
    requires Ok(p) && Ok(q)
    ensures NormCode(p) == NormCode(q) <==> p == q || (p.nplies < 10 && q == MirrorPosition(p))
  {
    hide ValidHeights, Stacked, Free, NormCode, MirrorPosition;
    if NormCode(p) == NormCode(q) {
      NormPlies(p, q);
    } else if p.nplies < SYMMREC {
      NormCodeMirror(p);
    }
  }

  lemma NormCodeValue(p: Position, q: Position)
    requires Ok(p) && Ok(q) && NormCode(p) == NormCode(q)
    ensures Value(p) == Value(q)
  {
    hide ValidHeights, Stacked, Free, NormCode, MirrorPosition, Value;
    NormCodeIff(p, q);
    MirrorValue(p);
  }
}
