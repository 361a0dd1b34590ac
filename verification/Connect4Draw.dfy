/** A game that ends in a draw: a full board that nobody has won is reached by legal moves. */
module Connect4Draw {
  import opened Connect4Board
  import opened Connect4Game
  import opened Connect4Search

  /** The columns played. */
  function Columns(): (moves: seq<nat>)
    ensures |moves| == SIZE
  {
    [5, 4, 5, 0, 6, 2, 4, 5, 5, 0, 4, 1, 1, 0, 4, 5, 6, 5, 3, 1, 1,
     2, 2, 6, 2, 6, 6, 3, 6, 2, 0, 3, 0, 3, 3, 4, 3, 1, 4, 2, 1, 0]
  }

  /** A position with its stones and heights side by side. */
  datatype Spot = Spot(c0: bv64, c1: bv64, h0: nat, h1: nat, h2: nat, h3: nat, h4: nat, h5: nat, h6: nat, n: nat)

  function At(s: Spot): (p: Position) {
    Position([s.c0, s.c1], [s.h0, s.h1, s.h2, s.h3, s.h4, s.h5, s.h6], s.n)
  }

  function Height(s: Spot, c: nat): (h: nat) {
    if c == 0 then s.h0 else if c == 1 then s.h1 else if c == 2 then s.h2 else if c == 3 then s.h3
    else if c == 4 then s.h4 else if c == 5 then s.h5 else s.h6
  }

  function Raised(s: Spot, c: nat): (r: Spot) {
    if c == 0 then s.(h0 := s.h0 + 1) else if c == 1 then s.(h1 := s.h1 + 1) else if c == 2 then s.(h2 := s.h2 + 1)
    else if c == 3 then s.(h3 := s.h3 + 1) else if c == 4 then s.(h4 := s.h4 + 1)
    else if c == 5 then s.(h5 := s.h5 + 1) else s.(h6 := s.h6 + 1)
  }

  /** A move in column `c`, whose stone has the given bit. */
  function Moved(s: Spot, c: nat, bit: bv64): (r: Spot) {
    Raised(Recolored(s, bit), c).(n := s.n + 1)
  }

  function Recolored(s: Spot, bit: bv64): (r: Spot) {
    if s.n % 2 == 0 then s.(c0 := Xor(s.c0, bit)) else s.(c1 := Xor(s.c1, bit))
  }

  lemma RaisedHeights(s: Spot, c: nat)
    requires c < WIDTH
    ensures At(s).height[c] == Height(s, c) && At(Raised(s, c)).height == At(s).height[c := Height(s, c) + 1]
  {
    if c == 0 {} else if c == 1 {} else if c == 2 {} else if c == 3 {} else if c == 4 {} else if c == 5 {} else {}
  }

  lemma PairUpdate<T>(a: T, b: T, x: T)
    ensures [a, b][0 := x] == [x, b] && [a, b][1 := x] == [a, x]
  {}

  lemma RecoloredColors(s: Spot, bit: bv64)
    ensures At(Recolored(s, bit)).color == At(s).color[s.n % 2 := Xor(At(s).color[s.n % 2], bit)]
    ensures At(Recolored(s, bit)).height == At(s).height && Recolored(s, bit).n == s.n
  {
    hide Xor;
    PairUpdate(s.c0, s.c1, Xor(s.c0, bit));
    PairUpdate(s.c0, s.c1, Xor(s.c1, bit));
  }

  lemma RaisedColors(s: Spot, c: nat, n: nat)
    requires c < WIDTH
    ensures At(Raised(s, c).(n := n)).color == At(s).color
    ensures At(Raised(s, c).(n := n)).height == At(Raised(s, c)).height
  {}

  lemma MovedParts(s: Spot, c: nat, bit: bv64)
    requires c < WIDTH
    ensures At(Moved(s, c, bit)).height == At(s).height[c := At(s).height[c] + 1] && Moved(s, c, bit).n == s.n + 1
    ensures At(Moved(s, c, bit)).color == At(s).color[s.n % 2 := Xor(At(s).color[s.n % 2], bit)]
  {
    hide Raised, Recolored, Height, At;
    RecoloredColors(s, bit);
    RaisedHeights(Recolored(s, bit), c);
    RaisedColors(Recolored(s, bit), c, s.n + 1);
  }

  lemma PlayIsMoved(s: Spot, c: nat)
    requires Ok(At(s)) && c < WIDTH && Height(s, c) < 7 * c + HEIGHT
    ensures Playable(At(s), c) && Play(At(s), c) == At(Moved(s, c, Bit(Height(s, c))))
  {
    RaisedHeights(s, c);
    assert Playable(At(s), c) && At(s).nplies == s.n && |At(s).color| == 2;
    hide Ok, Bit, Height, At, Moved, Raised, Xor, Play;
    PlayParts(At(s), c);
    assert Flip(At(s).color[s.n % 2], Height(s, c)) == Xor(At(s).color[s.n % 2], Bit(Height(s, c)));
    MovedParts(s, c, Bit(Height(s, c)));
    AtParts(Moved(s, c, Bit(Height(s, c))));
  }

  lemma AtParts(s: Spot)
    ensures At(s).nplies == s.n && |At(s).color| == 2 && |At(s).height| == WIDTH
  {}

  /** The run has come to this position. */
  ghost predicate Comes(s: Spot) {
    s.n <= SIZE && Legal(Columns()[..s.n]) && After(Columns()[..s.n]) == At(s)
  }

  function Column(n: nat): (c: nat)
    requires n < SIZE
  {
    Columns()[n]
  }

  /** One move of the run. */
  lemma Move(s: Spot, c: nat, bit: bv64)
    requires Comes(s) && s.n < SIZE && Column(s.n) == c < WIDTH
    requires Height(s, c) < 7 * c + HEIGHT && bit == Bit(Height(s, c))
    ensures Comes(Moved(s, c, bit))
  {
    hide Ok, Bit, Height, At, Columns;
    PlayIsMoved(s, c);
    assert Columns()[..s.n + 1] == Columns()[..s.n] + [c];
    AfterMove(Columns()[..s.n], c);
  }

  lemma NoMoves()
    ensures Comes(Spot(0x0, 0x0, 0, 7, 14, 21, 28, 35, 42, 0))
  {}

  lemma Columns6()
    ensures Column(0) == 5 && Column(1) == 4 && Column(2) == 5 && Column(3) == 0 && Column(4) == 6 && Column(5) == 2
  {
    var moves := Columns();
    assert moves[0] == 5 && moves[1] == 4 && moves[2] == 5 && moves[3] == 0 && moves[4] == 6 && moves[5] == 2;
  }

  lemma Columns12()
    ensures Column(6) == 4 && Column(7) == 5 && Column(8) == 5 && Column(9) == 0 && Column(10) == 4 && Column(11) == 1
  {
    var moves := Columns();
    assert moves[6] == 4 && moves[7] == 5 && moves[8] == 5 && moves[9] == 0 && moves[10] == 4 && moves[11] == 1;
  }

  lemma Columns18()
    ensures Column(12) == 1 && Column(13) == 0 && Column(14) == 4 && Column(15) == 5 && Column(16) == 6
      && Column(17) == 5
  {
    var moves := Columns();
    assert moves[12] == 1 && moves[13] == 0 && moves[14] == 4 && moves[15] == 5 && moves[16] == 6 && moves[17] == 5;
  }

  lemma Columns24()
    ensures Column(18) == 3 && Column(19) == 1 && Column(20) == 1 && Column(21) == 2 && Column(22) == 2
      && Column(23) == 6
  {
    var moves := Columns();
    assert moves[18] == 3 && moves[19] == 1 && moves[20] == 1 && moves[21] == 2 && moves[22] == 2 && moves[23] == 6;
  }

  lemma Columns30()
    ensures Column(24) == 2 && Column(25) == 6 && Column(26) == 6 && Column(27) == 3 && Column(28) == 6
      && Column(29) == 2
  {
    var moves := Columns();
    assert moves[24] == 2 && moves[25] == 6 && moves[26] == 6 && moves[27] == 3 && moves[28] == 6 && moves[29] == 2;
  }

  lemma Columns36()
    ensures Column(30) == 0 && Column(31) == 3 && Column(32) == 0 && Column(33) == 3 && Column(34) == 3
      && Column(35) == 4
  {
    var moves := Columns();
    assert moves[30] == 0 && moves[31] == 3 && moves[32] == 0 && moves[33] == 3 && moves[34] == 3 && moves[35] == 4;
  }

  lemma Columns42()
    ensures Column(36) == 3 && Column(37) == 1 && Column(38) == 4 && Column(39) == 2 && Column(40) == 1
      && Column(41) == 0
  {
    var moves := Columns();
    assert moves[36] == 3 && moves[37] == 1 && moves[38] == 4 && moves[39] == 2 && moves[40] == 1 && moves[41] == 0;
  }

  lemma Moves6()
    ensures Comes(Spot(0x41800000000, 0x10004001, 1, 7, 15, 21, 29, 37, 43, 6))
  {
    hide Comes, Column;
    Columns6();
    NoMoves();
    Move(Spot(0x0, 0x0, 0, 7, 14, 21, 28, 35, 42, 0), 5, 0x800000000);
    Move(Spot(0x800000000, 0x0, 0, 7, 14, 21, 28, 36, 42, 1), 4, 0x10000000);
    Move(Spot(0x800000000, 0x10000000, 0, 7, 14, 21, 29, 36, 42, 2), 5, 0x1000000000);
    Move(Spot(0x1800000000, 0x10000000, 0, 7, 14, 21, 29, 37, 42, 3), 0, 0x1);
    Move(Spot(0x1800000000, 0x10000001, 1, 7, 14, 21, 29, 37, 42, 4), 6, 0x40000000000);
    Move(Spot(0x41800000000, 0x10000001, 1, 7, 14, 21, 29, 37, 43, 5), 2, 0x4000);
  }

  lemma Moves12()
    ensures Comes(Spot(0x45860000000, 0x2010004083, 2, 8, 15, 21, 31, 39, 43, 12))
  {
    hide Comes, Column;
    Columns12();
    Moves6();
    Move(Spot(0x41800000000, 0x10004001, 1, 7, 15, 21, 29, 37, 43, 6), 4, 0x20000000);
    Move(Spot(0x41820000000, 0x10004001, 1, 7, 15, 21, 30, 37, 43, 7), 5, 0x2000000000);
    Move(Spot(0x41820000000, 0x2010004001, 1, 7, 15, 21, 30, 38, 43, 8), 5, 0x4000000000);
    Move(Spot(0x45820000000, 0x2010004001, 1, 7, 15, 21, 30, 39, 43, 9), 0, 0x2);
    Move(Spot(0x45820000000, 0x2010004003, 2, 7, 15, 21, 30, 39, 43, 10), 4, 0x40000000);
    Move(Spot(0x45860000000, 0x2010004003, 2, 7, 15, 21, 31, 39, 43, 11), 1, 0x80);
  }

  lemma Moves18()
    ensures Comes(Spot(0xC58E0000100, 0x1A010004087, 3, 9, 15, 21, 32, 41, 44, 18))
  {
    hide Comes, Column;
    Columns18();
    Moves12();
    Move(Spot(0x45860000000, 0x2010004083, 2, 8, 15, 21, 31, 39, 43, 12), 1, 0x100);
    Move(Spot(0x45860000100, 0x2010004083, 2, 9, 15, 21, 31, 39, 43, 13), 0, 0x4);
    Move(Spot(0x45860000100, 0x2010004087, 3, 9, 15, 21, 31, 39, 43, 14), 4, 0x80000000);
    Move(Spot(0x458E0000100, 0x2010004087, 3, 9, 15, 21, 32, 39, 43, 15), 5, 0x8000000000);
    Move(Spot(0x458E0000100, 0xA010004087, 3, 9, 15, 21, 32, 40, 43, 16), 6, 0x80000000000);
    Move(Spot(0xC58E0000100, 0xA010004087, 3, 9, 15, 21, 32, 40, 44, 17), 5, 0x10000000000);
  }

  lemma Moves24()
    ensures Comes(Spot(0xC58E0210500, 0x11A01000C287, 3, 11, 17, 22, 32, 41, 45, 24))
  {
    hide Comes, Column;
    Columns24();
    Moves18();
    Move(Spot(0xC58E0000100, 0x1A010004087, 3, 9, 15, 21, 32, 41, 44, 18), 3, 0x200000);
    Move(Spot(0xC58E0200100, 0x1A010004087, 3, 9, 15, 22, 32, 41, 44, 19), 1, 0x200);
    Move(Spot(0xC58E0200100, 0x1A010004287, 3, 10, 15, 22, 32, 41, 44, 20), 1, 0x400);
    Move(Spot(0xC58E0200500, 0x1A010004287, 3, 11, 15, 22, 32, 41, 44, 21), 2, 0x8000);
    Move(Spot(0xC58E0200500, 0x1A01000C287, 3, 11, 16, 22, 32, 41, 44, 22), 2, 0x10000);
    Move(Spot(0xC58E0210500, 0x1A01000C287, 3, 11, 17, 22, 32, 41, 44, 23), 6, 0x100000000000);
  }

  lemma Moves30()
    ensures Comes(Spot(0xCC58E0230500, 0x31A01044C287, 3, 11, 19, 23, 32, 41, 48, 30))
  {
    hide Comes, Column;
    Columns30();
    Moves24();
    Move(Spot(0xC58E0210500, 0x11A01000C287, 3, 11, 17, 22, 32, 41, 45, 24), 2, 0x20000);
    Move(Spot(0xC58E0230500, 0x11A01000C287, 3, 11, 18, 22, 32, 41, 45, 25), 6, 0x200000000000);
    Move(Spot(0xC58E0230500, 0x31A01000C287, 3, 11, 18, 22, 32, 41, 46, 26), 6, 0x400000000000);
    Move(Spot(0x4C58E0230500, 0x31A01000C287, 3, 11, 18, 22, 32, 41, 47, 27), 3, 0x400000);
    Move(Spot(0x4C58E0230500, 0x31A01040C287, 3, 11, 18, 23, 32, 41, 47, 28), 6, 0x800000000000);
    Move(Spot(0xCC58E0230500, 0x31A01040C287, 3, 11, 18, 23, 32, 41, 48, 29), 2, 0x40000);
  }

  lemma Moves36()
    ensures Comes(Spot(0xCC58E2230518, 0x31A111C4C287, 5, 11, 19, 26, 33, 41, 48, 36))
  {
    hide Comes, Column;
    Columns36();
    Moves30();
    Move(Spot(0xCC58E0230500, 0x31A01044C287, 3, 11, 19, 23, 32, 41, 48, 30), 0, 0x8);
    Move(Spot(0xCC58E0230508, 0x31A01044C287, 4, 11, 19, 23, 32, 41, 48, 31), 3, 0x800000);
    Move(Spot(0xCC58E0230508, 0x31A010C4C287, 4, 11, 19, 24, 32, 41, 48, 32), 0, 0x10);
    Move(Spot(0xCC58E0230518, 0x31A010C4C287, 5, 11, 19, 24, 32, 41, 48, 33), 3, 0x1000000);
    Move(Spot(0xCC58E0230518, 0x31A011C4C287, 5, 11, 19, 25, 32, 41, 48, 34), 3, 0x2000000);
    Move(Spot(0xCC58E2230518, 0x31A011C4C287, 5, 11, 19, 26, 32, 41, 48, 35), 4, 0x100000000);
  }

  lemma Moves42()
    ensures Comes(Spot(0xCC5AE6231518, 0x31A111CCCAA7, 6, 13, 20, 27, 34, 41, 48, 42))
  {
    hide Comes, Column;
    Columns42();
    Moves36();
    Move(Spot(0xCC58E2230518, 0x31A111C4C287, 5, 11, 19, 26, 33, 41, 48, 36), 3, 0x4000000);
    Move(Spot(0xCC58E6230518, 0x31A111C4C287, 5, 11, 19, 27, 33, 41, 48, 37), 1, 0x800);
    Move(Spot(0xCC58E6230518, 0x31A111C4CA87, 5, 12, 19, 27, 33, 41, 48, 38), 4, 0x200000000);
    Move(Spot(0xCC5AE6230518, 0x31A111C4CA87, 5, 12, 19, 27, 34, 41, 48, 39), 2, 0x80000);
    Move(Spot(0xCC5AE6230518, 0x31A111CCCA87, 5, 12, 20, 27, 34, 41, 48, 40), 1, 0x1000);
    Move(Spot(0xCC5AE6231518, 0x31A111CCCA87, 5, 13, 20, 27, 34, 41, 48, 41), 0, 0x20);
  }

  /** The board at the end. */
  function FullBoard(): (p: Position) {
    At(Spot(0xCC5AE6231518, 0x31A111CCCAA7, 6, 13, 20, 27, 34, 41, 48, 42))
  }

  lemma NobodyWon()
    ensures !HasWon(FullBoard().color[0]) && !HasWon(FullBoard().color[1])
  {}

  /** There are drawn games: the run is legal and fills the board, and neither side has four in a row. */
  lemma FullBoardReached()
    ensures Legal(Columns()) && After(Columns()) == FullBoard() && Ok(FullBoard()) && FullBoard().nplies == SIZE
    ensures !HasWon(Mine(FullBoard())) && !HasWon(Theirs(FullBoard())) && Value(FullBoard()) == DRAW
  {
    hide HasWon, Value, Legal, After, Ok, Columns;
    Moves42();
    assert Columns()[..42] == Columns();
    NobodyWon();
    WonAlready(FullBoard());
  }
}
