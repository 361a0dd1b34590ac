/** Positions, moves and the value of the game of connect four. */
module Connect4Game {
  import opened Connect4Board

  const LOSS := 1
  const DRAWLOSS := 2
  const DRAW := 3
  const DRAWWIN := 4
  const WIN := 5
  const LOSSWIN := 6

  /** The two bitboards, the bit index of the lowest free square of each column, and the number of moves made. */
  datatype Position = Position(color: seq<bv64>, height: seq<nat>, nplies: nat)

  predicate ValidHeights(height: seq<nat>) {
    |height| == WIDTH && forall c :: 0 <= c < WIDTH ==> 7 * c <= height[c] <= 7 * c + HEIGHT
  }

  /** One square in each column. */
  datatype Squares = Squares(f0: bv64, f1: bv64, f2: bv64, f3: bv64, f4: bv64, f5: bv64, f6: bv64)

  function Union(f: Squares): (b: bv64) {
    f.f0 | f.f1 | f.f2 | f.f3 | f.f4 | f.f5 | f.f6
  }

  /** The lowest free squares. */
  function Lowest(height: seq<nat>): (f: Squares)
    requires ValidHeights(height)
  {
    Squares(Bit(height[0]), Bit(height[1]), Bit(height[2]), Bit(height[3]), Bit(height[4]), Bit(height[5]),
      Bit(height[6]))
  }

  function Free(height: seq<nat>): (b: bv64)
    requires ValidHeights(height)
  {
    Union(Lowest(height))
  }

  /** Stones on a board with these heights. */
  function Plies(height: seq<nat>): (n: int)
    requires ValidHeights(height)
    ensures 0 <= n <= SIZE
  {
    height[0] + height[1] + height[2] + height[3] + height[4] + height[5] + height[6] - 147
  }

  predicate Clear(b: bv64, f: bv64) { b & f == 0 }

  function Or(b: bv64, f: bv64): (r: bv64) { b | f }

  function Stones(c0: bv64, c1: bv64): (s: bv64) { Or(c0, c1) }

  /** Nothing hangs in the air: a stone or free square is at the bottom or right above a stone. */
  predicate Supported(stones: bv64, free: bv64) {
    (stones | free) & !((stones << 1) | 0x0408_1020_4081) == 0
  }

  /** The bottom squares and those right above a stone are stones or free. */
  predicate Topped(stones: bv64, free: bv64) {
    ((stones << 1) | 0x0408_1020_4081) & !(stones | free) == 0
  }

  /** Each column's stones are contiguous from the bottom, with the free square on top of them. */
  predicate Piled(stones: bv64, free: bv64) {
    Supported(stones, free) && Topped(stones, free) && Clear(stones, free) && Below(stones)
  }

  /** Neither sentinels nor bits that no column uses. */
  predicate Below(f: bv64) { f & 0xFFFF_0204_0810_2040 == 0 }

  /** Disjoint colours whose stones fill the columns up to the free squares. */
  predicate Stacked(c0: bv64, c1: bv64, free: bv64) {
    Clear(c0, c1) && Piled(Stones(c0, c1), free)
  }

  predicate Ok(p: Position) {
    && |p.color| == 2
    && ValidHeights(p.height)
    && Stacked(p.color[0], p.color[1], Free(p.height))
    && p.nplies == Plies(p.height)
  }

  /** A free square's bit: a single bit of its column. */
  predicate SingleIn(f: bv64, col: bv64) {
    f & col == f && f & (f - 1) == 0 && f != 0
  }

  lemma BitInColumn(i: nat)
    requires i < SIZE1
    ensures 0 <= i < 7 ==> SingleIn(Bit(i), 0x7F)
    ensures 7 <= i < 14 ==> SingleIn(Bit(i), 0x3F80)
    ensures 14 <= i < 21 ==> SingleIn(Bit(i), 0x1F_C000)
    ensures 21 <= i < 28 ==> SingleIn(Bit(i), 0xFE0_0000)
    ensures 28 <= i < 35 ==> SingleIn(Bit(i), 0x7_F000_0000)
    ensures 35 <= i < 42 ==> SingleIn(Bit(i), 0x3F8_0000_0000)
    ensures 42 <= i < 49 ==> SingleIn(Bit(i), 0x1_FC00_0000_0000)
  {
    if i < 7 {} else if i < 14 {} else if i < 21 {} else if i < 28 {} else if i < 35 {} else if i < 42 {} else {}
  }

  predicate InColumns(f: Squares) {
    && SingleIn(f.f0, 0x7F) && SingleIn(f.f1, 0x3F80) && SingleIn(f.f2, 0x1F_C000) && SingleIn(f.f3, 0xFE0_0000)
    && SingleIn(f.f4, 0x7_F000_0000) && SingleIn(f.f5, 0x3F8_0000_0000) && SingleIn(f.f6, 0x1_FC00_0000_0000)
  }

  lemma LowestInColumns(height: seq<nat>)
    requires ValidHeights(height)
    ensures InColumns(Lowest(height))
  {
    hide Bit, SingleIn;
    BitInColumn(height[0]);
    BitInColumn(height[1]);
    BitInColumn(height[2]);
    BitInColumn(height[3]);
    BitInColumn(height[4]);
    BitInColumn(height[5]);
    BitInColumn(height[6]);
  }

  /** The next square up the column. */
  function Up(f: bv64): (g: bv64) { f << 1 }

  lemma BelowSentinel(i: nat)
    requires i < SIZE1
    ensures Below(Bit(i)) <==> i % 7 != 6
  {}

  lemma BitUp(i: nat)
    requires i < SIZE1 - 1
    ensures Bit(i + 1) == Up(Bit(i))
  {
    hide Bit;
    BitNext(i);
  }

  /** The free squares after a stone has taken one of them. */
  function Raise(free: bv64, f: bv64): (next: bv64) { (free & !f) | Up(f) }

  lemma Raise0(f: Squares)
    requires InColumns(f) && Below(f.f0)
    ensures Union(f.(f0 := Up(f.f0))) == Raise(Union(f), f.f0)
  {}

  lemma Raise1(f: Squares)
    requires InColumns(f) && Below(f.f1)
    ensures Union(f.(f1 := Up(f.f1))) == Raise(Union(f), f.f1)
  {}

  lemma Raise2(f: Squares)
    requires InColumns(f) && Below(f.f2)
    ensures Union(f.(f2 := Up(f.f2))) == Raise(Union(f), f.f2)
  {}

  lemma Raise3(f: Squares)
    requires InColumns(f) && Below(f.f3)
    ensures Union(f.(f3 := Up(f.f3))) == Raise(Union(f), f.f3)
  {}

  lemma Raise4(f: Squares)
    requires InColumns(f) && Below(f.f4)
    ensures Union(f.(f4 := Up(f.f4))) == Raise(Union(f), f.f4)
  {}

  lemma Raise5(f: Squares)
    requires InColumns(f) && Below(f.f5)
    ensures Union(f.(f5 := Up(f.f5))) == Raise(Union(f), f.f5)
  {}

  lemma Raise6(f: Squares)
    requires InColumns(f) && Below(f.f6)
    ensures Union(f.(f6 := Up(f.f6))) == Raise(Union(f), f.f6)
  {}

  lemma RoomBelow(height: seq<nat>, c: nat)
    requires ValidHeights(height) && c < WIDTH && height[c] < 7 * c + HEIGHT
    ensures Below(Bit(height[c]))
  {
    hide Bit, Below;
    BelowSentinel(height[c]);
  }

  /** The square of a column. */
  function Pick(f: Squares, c: nat): (x: bv64)
    requires c < WIDTH
  {
    if c == 0 then f.f0 else if c == 1 then f.f1 else if c == 2 then f.f2 else if c == 3 then f.f3
    else if c == 4 then f.f4 else if c == 5 then f.f5 else f.f6
  }

  function Replace(f: Squares, c: nat, x: bv64): (g: Squares)
    requires c < WIDTH
  {
    if c == 0 then f.(f0 := x) else if c == 1 then f.(f1 := x) else if c == 2 then f.(f2 := x) else
    if c == 3 then f.(f3 := x)
    else if c == 4 then f.(f4 := x) else if c == 5 then f.(f5 := x) else f.(f6 := x)
  }

  lemma RaiseColumn(f: Squares, c: nat)
    requires c < WIDTH && InColumns(f) && Below(Pick(f, c))
    ensures Union(Replace(f, c, Up(Pick(f, c)))) == Raise(Union(f), Pick(f, c))
  {
    hide InColumns, Union, Up, Below, Raise;
    if c == 0 {
      Raise0(f);
    } else if c == 1 {
      Raise1(f);
    } else if c == 2 {
      Raise2(f);
    } else if c == 3 {
      Raise3(f);
    } else if c == 4 {
      Raise4(f);
    } else if c == 5 {
      Raise5(f);
    } else {
      Raise6(f);
    }
  }

  lemma LowestAt(height: seq<nat>, c: nat)
    requires ValidHeights(height) && c < WIDTH
    ensures Pick(Lowest(height), c) == Bit(height[c])
  {
    hide Bit;
  }

  lemma LowestRaised(height: seq<nat>, c: nat)
    requires ValidHeights(height) && c < WIDTH && height[c] < 7 * c + HEIGHT
    ensures ValidHeights(height[c := height[c] + 1])
    ensures Lowest(height[c := height[c] + 1]) == Replace(Lowest(height), c, Bit(height[c] + 1))
  {
    hide Bit;
    if c == 0 {} else if c == 1 {} else if c == 2 {} else if c == 3 {} else if c == 4 {} else if c == 5 {} else {}
  }

  /** A stone dropped in a column that has room raises its free square by one. */
  lemma Raised(height: seq<nat>, c: nat)
    requires ValidHeights(height) && c < WIDTH && height[c] < 7 * c + HEIGHT
    ensures ValidHeights(height[c := height[c] + 1])
    ensures Free(height[c := height[c] + 1]) == Raise(Free(height), Bit(height[c]))
  {
    hide Bit, InColumns, Union, Up, Below, Raise, Lowest, Replace, Pick;
    LowestInColumns(height);
    LowestAt(height, c);
    LowestRaised(height, c);
    BitUp(height[c]);
    RoomBelow(height, c);
    RaiseColumn(Lowest(height), c);
  }

  predicate PartOf(f: bv64, all: bv64) { f & !all == 0 }

  lemma Part0(f: Squares)
    ensures PartOf(f.f0, Union(f))
  {}

  lemma Part1(f: Squares)
    ensures PartOf(f.f1, Union(f))
  {}

  lemma Part2(f: Squares)
    ensures PartOf(f.f2, Union(f))
  {}

  lemma Part3(f: Squares)
    ensures PartOf(f.f3, Union(f))
  {}

  lemma Part4(f: Squares)
    ensures PartOf(f.f4, Union(f))
  {}

  lemma Part5(f: Squares)
    ensures PartOf(f.f5, Union(f))
  {}

  lemma Part6(f: Squares)
    ensures PartOf(f.f6, Union(f))
  {}

  lemma PickPart(f: Squares, c: nat)
    requires c < WIDTH
    ensures PartOf(Pick(f, c), Union(f))
  {
    hide PartOf, Union;
    Part0(f);
    Part1(f);
    Part2(f);
    Part3(f);
    Part4(f);
    Part5(f);
    Part6(f);
  }

  lemma FreePart(height: seq<nat>, c: nat)
    requires ValidHeights(height) && c < WIDTH
    ensures PartOf(Bit(height[c]), Free(height))
  {
    hide Bit, PartOf, Union, Lowest, Pick;
    LowestAt(height, c);
    PickPart(Lowest(height), c);
  }

  lemma FreeIsClear(s: bv64, free: bv64, f: bv64)
    requires Piled(s, free) && PartOf(f, free)
    ensures Clear(s, f)
  {}

  lemma StonesClear(c0: bv64, c1: bv64, f: bv64)
    requires Clear(Stones(c0, c1), f)
    ensures Clear(c0, f) && Clear(c1, f)
  {}

  /** The lowest free square of a column carries no stone. */
  lemma FreeSquare(p: Position, c: nat)
    requires Ok(p) && c < WIDTH
    ensures Clear(p.color[0], Bit(p.height[c])) && Clear(p.color[1], Bit(p.height[c]))
  {
    hide Bit, PartOf, Free, Clear, Piled, Stones;
    FreePart(p.height, c);
    FreeIsClear(Stones(p.color[0], p.color[1]), Free(p.height), Bit(p.height[c]));
    StonesClear(p.color[0], p.color[1], Bit(p.height[c]));
  }

  /** Whether a column has room. */
  predicate Playable(p: Position, c: int)
    requires Ok(p)
  {
    0 <= c < WIDTH && p.height[c] < 7 * c + HEIGHT
  }

  function Side(p: Position): (s: nat) { p.nplies % 2 }

  function Mine(p: Position): (b: bv64)
    requires |p.color| == 2
  {
    p.color[Side(p)]
  }

  function Theirs(p: Position): (b: bv64)
    requires |p.color| == 2
  {
    p.color[1 - Side(p)]
  }

  function Xor(b: bv64, f: bv64): (r: bv64) { b ^ f }

  /** A board with one more stone. */
  function With(b: bv64, i: nat): (r: bv64)
    requires i < SIZE1
  {
    Or(b, Bit(i))
  }

  /** A board with one stone put on or taken off. */
  function Flip(b: bv64, i: nat): (r: bv64)
    requires i < SIZE1
  {
    Xor(b, Bit(i))
  }

  /** The mover drops a stone in a column. */
  function Play(p: Position, c: nat): (q: Position)
    requires Ok(p) && Playable(p, c)
  {
    Position(p.color[Side(p) := Flip(Mine(p), p.height[c])], p.height[c := p.height[c] + 1], p.nplies + 1)
  }

  lemma XorIsOr(b: bv64, f: bv64)
    requires Clear(b, f)
    ensures Xor(b, f) == Or(b, f)
  {
    assert b ^ f == b | f;
  }

  lemma XorTwice(b: bv64, f: bv64)
    ensures Xor(Xor(b, f), f) == b
  {}

  lemma FlipTwice(b: bv64, i: nat)
    requires i < SIZE1
    ensures Flip(Flip(b, i), i) == b
  {
    hide Bit, Xor;
    XorTwice(b, Bit(i));
  }

  lemma StepSupported(s: bv64, free: bv64, f: bv64)
    requires Supported(s, free) && PartOf(f, free)
    ensures Supported(Or(s, f), Raise(free, f))
  {}

  lemma StepTopped(s: bv64, free: bv64, f: bv64)
    requires Topped(s, free)
    ensures Topped(Or(s, f), Raise(free, f))
  {}

  lemma StepClear(s: bv64, free: bv64, f: bv64)
    requires Supported(s, free) && Clear(s, free) && Below(s) && PartOf(f, free) && Below(f)
    ensures Clear(Or(s, f), Raise(free, f))
  {}

  lemma StepBelow(s: bv64, f: bv64)
    requires Below(s) && Below(f)
    ensures Below(Or(s, f))
  {}

  /** A stone on a free square leaves the columns contiguous. */
  lemma PileStep(s: bv64, free: bv64, f: bv64)
    requires Piled(s, free) && PartOf(f, free) && Below(f)
    ensures Piled(Or(s, f), Raise(free, f))
  {
    hide Supported, Topped, Clear, Below, Or, Raise, PartOf;
    StepSupported(s, free, f);
    StepTopped(s, free, f);
    StepClear(s, free, f);
    StepBelow(s, f);
  }

  lemma OrSwap(a: bv64, b: bv64, f: bv64)
    ensures (a | f) | b == (a | b) | f
  {}

  lemma OrMove(a: bv64, b: bv64, f: bv64)
    ensures a | (b | f) == (a | b) | f
  {}

  lemma StonesFirst(c0: bv64, c1: bv64, f: bv64)
    ensures Stones(Or(c0, f), c1) == Or(Stones(c0, c1), f)
  {
    assert Or(c0, f) == c0 | f;
    assert Or(c0, c1) == c0 | c1;
    OrSwap(c0, c1, f);
  }

  lemma StonesSecond(c0: bv64, c1: bv64, f: bv64)
    ensures Stones(c0, Or(c1, f)) == Or(Stones(c0, c1), f)
  {
    assert Or(c1, f) == c1 | f;
    assert Or(c0, c1) == c0 | c1;
    OrMove(c0, c1, f);
  }

  lemma ClearOr(c0: bv64, c1: bv64, f: bv64)
    requires Clear(c0, c1) && Clear(c0, f) && Clear(c1, f)
    ensures Clear(Or(c0, f), c1) && Clear(c0, Or(c1, f))
  {}

  /** A stone of either colour keeps the colours disjoint. */
  lemma StackStep(c0: bv64, c1: bv64, free: bv64, f: bv64)
    requires Clear(c0, c1) && Clear(c0, f) && Clear(c1, f) && Piled(Or(Stones(c0, c1), f), free)
    ensures Stacked(Or(c0, f), c1, free) && Stacked(c0, Or(c1, f), free)
  {
    hide Clear, Piled, Stones, Or;
    StonesFirst(c0, c1, f);
    StonesSecond(c0, c1, f);
    ClearOr(c0, c1, f);
  }

  lemma PlayStacked(p: Position, c: nat)
    requires Ok(p) && Playable(p, c)
    ensures var f, height := Bit(p.height[c]), p.height[c := p.height[c] + 1];
      && Clear(Mine(p), f) && ValidHeights(height) && Plies(height) == p.nplies + 1
      && Stacked(Or(p.color[0], f), p.color[1], Free(height)) && Stacked(p.color[0], Or(p.color[1], f), Free(height))
  {
    hide Bit, Free, Clear, Piled, Stones, Raise, Or, PartOf, Below;
    var c0, c1, f := p.color[0], p.color[1], Bit(p.height[c]);
    FreeSquare(p, c);
    Raised(p.height, c);
    FreePart(p.height, c);
    RoomBelow(p.height, c);
    PileStep(Stones(c0, c1), Free(p.height), f);
    StackStep(c0, c1, Raise(Free(p.height), f), f);
  }

  lemma PlayFields(p: Position, c: nat)
    requires Ok(p) && Playable(p, c)
    ensures var q := Play(p, c);
      && |q.color| == 2 && q.height == p.height[c := p.height[c] + 1] && q.nplies == p.nplies + 1
      && Side(q) == 1 - Side(p) && Mine(q) == Theirs(p) && Theirs(q) == Flip(Mine(p), p.height[c])
  {
    hide Stacked, Free, Flip;
  }

  lemma FlipIsWith(p: Position, c: nat)
    requires Ok(p) && Playable(p, c) && Clear(Mine(p), Bit(p.height[c]))
    ensures Flip(Mine(p), p.height[c]) == With(Mine(p), p.height[c]) == Or(Mine(p), Bit(p.height[c]))
  {
    hide Bit, Free, Clear, Xor, Or, Stacked;
    XorIsOr(Mine(p), Bit(p.height[c]));
  }

  lemma NextOk(p: Position, q: Position, f: bv64)
    requires |p.color| == |q.color| == 2 && ValidHeights(q.height) && q.nplies == Plies(q.height)
    requires Side(q) == 1 - Side(p) && Mine(q) == Theirs(p) && Theirs(q) == Or(Mine(p), f)
    requires Stacked(Or(p.color[0], f), p.color[1], Free(q.height))
    requires Stacked(p.color[0], Or(p.color[1], f), Free(q.height))
    ensures Ok(q)
  {
    hide Stacked, Or, Free, Plies, ValidHeights;
    if Side(p) == 0 {
      assert q.color[0] == Or(p.color[0], f) && q.color[1] == p.color[1];
    } else {
      assert q.color[0] == p.color[0] && q.color[1] == Or(p.color[1], f);
    }
  }

  /** Dropping a stone keeps the colours disjoint, the columns contiguous and the counts right. */
  lemma PlayOk(p: Position, c: nat)
    requires Ok(p) && Playable(p, c)
    ensures Ok(Play(p, c))
    ensures Theirs(Play(p, c)) == With(Mine(p), p.height[c]) && Mine(Play(p, c)) == Theirs(p)
  {
    hide Bit, Free, Clear, Flip, With, Or, Stacked, Play, Mine, Theirs, Side, Plies;
    PlayStacked(p, c);
    FlipIsWith(p, c);
    PlayFields(p, c);
    NextOk(p, Play(p, c), Bit(p.height[c]));
  }

  predicate OnBoard(b: bv64) {
    IsLegal(b) && b <= 0x1_FFFF_FFFF_FFFF
  }

  lemma PiledOnBoard(s: bv64, free: bv64)
    requires Piled(s, free)
    ensures Below(s)
  {}

  lemma StonesBelow(c0: bv64, c1: bv64)
    requires Below(Stones(c0, c1))
    ensures Below(c0) && Below(c1)
  {}

  lemma BelowOnBoard(b: bv64)
    requires Below(b)
    ensures OnBoard(b)
  {}

  /** No stone is on a sentinel or off the board. */
  lemma StonesOnBoard(p: Position)
    requires Ok(p)
    ensures Below(p.color[0]) && Below(p.color[1])
  {
    hide Below, Piled, Stones, Clear, Free;
    PiledOnBoard(Stones(p.color[0], p.color[1]), Free(p.height));
    StonesBelow(p.color[0], p.color[1]);
  }

  lemma ColorsOnBoard(p: Position)
    requires Ok(p)
    ensures OnBoard(p.color[0]) && OnBoard(p.color[1])
  {
    hide Below, OnBoard, Stacked, Free;
    StonesOnBoard(p);
    BelowOnBoard(p.color[0]);
    BelowOnBoard(p.color[1]);
  }

  lemma OrLegal(b: bv64, f: bv64)
    requires OnBoard(b) && f <= 0x1_FFFF_FFFF_FFFF
    ensures IsLegal(Or(b, f)) <==> Below(f)
  {}

  lemma BitSmall(i: nat)
    requires i < SIZE1
    ensures Bit(i) <= 0x1_FFFF_FFFF_FFFF
  {}

  /** A board with one more stone is legal unless that stone overflows its column. */
  lemma WithOnBoard(b: bv64, i: nat)
    requires OnBoard(b) && i < SIZE1
    ensures IsLegal(With(b, i)) <==> i % 7 != 6
  {
    hide Bit, Or, IsLegal, Below, OnBoard;
    BelowSentinel(i);
    BitSmall(i);
    OrLegal(b, Bit(i));
  }

  lemma PlayCounts(p: Position, c: nat)
    requires Ok(p) && Playable(p, c)
    ensures Ok(Play(p, c)) && p.nplies < Play(p, c).nplies <= SIZE
  {
    hide Stacked, Free, Flip, With;
    PlayOk(p, c);
  }

  /** The value of a position for the player to move, by the rules alone. */
  ghost function Value(p: Position): (v: int)
    requires Ok(p)
    ensures v == LOSS || v == DRAW || v == WIN
    decreases SIZE - p.nplies, WIDTH + 1
  {
    if HasFour(Theirs(p)) then LOSS
    else if p.nplies == SIZE then DRAW
    else Best(p, WIDTH)
  }

  /** The best of the moves in the first `n` columns. */
  ghost function Best(p: Position, n: nat): (v: int)
    requires Ok(p) && n <= WIDTH
    ensures v == LOSS || v == DRAW || v == WIN
    decreases SIZE - p.nplies, n
  {
    if n == 0 then LOSS
    else if Playable(p, n - 1) then Max(Best(p, n - 1), MoveValue(p, n - 1))
    else Best(p, n - 1)
  }

  /** What a move is worth to the mover. */
  ghost function MoveValue(p: Position, c: nat): (v: int)
    requires Ok(p) && Playable(p, c)
    ensures v == LOSS || v == DRAW || v == WIN
    decreases SIZE - p.nplies, 0
  {
    hide *;
    PlayCounts(p, c);
    LOSSWIN - Value(Play(p, c))
  }

  function Max(x: int, y: int): (m: int) { if x > y then x else y }

  // ----- The value as a game -----

  /** A column can be played, to a position that has this value for the player then to move. */
  ghost predicate LeadsTo(p: Position, c: nat, v: int)
    requires Ok(p)
  {
    c < WIDTH && Playable(p, c) && Ok(Play(p, c)) && Value(Play(p, c)) == v
  }

  lemma MoveLeadsTo(p: Position, c: nat)
    requires Ok(p) && Playable(p, c)
    ensures LeadsTo(p, c, LOSSWIN - MoveValue(p, c))
  {
    hide Stacked, Free, Play, Flip, With;
    PlayOk(p, c);
  }

  lemma {:induction false} BestOfMoves(p: Position, n: nat)
    requires Ok(p) && n <= WIDTH
    ensures Best(p, n) == WIN <==> exists c :: 0 <= c < n && LeadsTo(p, c, LOSS)
    ensures Best(p, n) == LOSS <==> forall c :: 0 <= c < n && Playable(p, c) ==> LeadsTo(p, c, WIN)
  {
    hide LeadsTo, Ok;
    if n > 0 {
      BestOfMoves(p, n - 1);
      if Playable(p, n - 1) {
        MoveLeadsTo(p, n - 1);
        OneValue(p, n - 1, LOSSWIN - MoveValue(p, n - 1));
      } else {
        NotPlayed(p, n - 1);
      }
    }
  }

  lemma OneValue(p: Position, c: nat, v: int)
    requires Ok(p) && LeadsTo(p, c, v)
    ensures forall u :: LeadsTo(p, c, u) <==> u == v
  {}

  lemma NotPlayed(p: Position, c: nat)
    requires Ok(p) && !Playable(p, c)
    ensures forall u :: !LeadsTo(p, c, u)
  {}

  /**
   * A game that goes on is won exactly when some move leaves the opponent lost, and lost exactly when all of them leave
   * the opponent winning; a game that is over is lost when the opponent has four in a row, and drawn otherwise.
   */
  lemma Minimax(p: Position)
    requires Ok(p)
    ensures HasFour(Theirs(p)) ==> Value(p) == LOSS
    ensures !HasFour(Theirs(p)) && p.nplies == SIZE ==> Value(p) == DRAW
    ensures !HasFour(Theirs(p)) && p.nplies < SIZE ==>
      && (Value(p) == WIN <==> exists c :: 0 <= c < WIDTH && LeadsTo(p, c, LOSS))
      && (Value(p) == LOSS <==> forall c :: 0 <= c < WIDTH && Playable(p, c) ==> LeadsTo(p, c, WIN))
  {
    BestOfMoves(p, WIDTH);
    hide LeadsTo, Best, HasFour;
  }
}
