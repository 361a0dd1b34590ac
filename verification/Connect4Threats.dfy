/** What immediate wins and threats decide about a position, before any search. */
module Connect4Threats {
  import opened Connect4Board
  import opened Connect4Game

  /** The mover wins at once by dropping in this column. */
  predicate WinsAt(p: Position, c: int)
    requires Ok(p)
  {
    Playable(p, c) && HasWon(With(Mine(p), p.height[c]))
  }

  /** The opponent would win at once by dropping in this column. */
  predicate Threat(p: Position, c: int)
    requires Ok(p)
  {
    Playable(p, c) && HasWon(With(Theirs(p), p.height[c]))
  }

  /** The opponent would win on top of the mover's stone in this column. */
  predicate WinOnTop(p: Position, c: int)
    requires Ok(p)
  {
    Playable(p, c) && p.height[c] + 1 < 7 * c + HEIGHT && HasWon(With(Theirs(p), p.height[c] + 1))
  }

  /** Nobody has won, and the mover has no win at once: what the search assumes of every position it is given. */
  ghost predicate Quiet(p: Position) {
    Ok(p) && !HasWon(Theirs(p)) && !HasWon(Mine(p)) && forall c :: 0 <= c < WIDTH ==> !WinsAt(p, c)
  }

  /** A column has room exactly when one more stone on it does not reach its sentinel. */
  lemma LegalIsPlayable(p: Position, c: nat)
    requires Ok(p) && c < WIDTH
    ensures IsLegal(With(Mine(p), p.height[c])) <==> Playable(p, c)
    ensures IsLegal(With(Theirs(p), p.height[c])) <==> Playable(p, c)
    ensures Playable(p, c) ==> (IsLegal(With(Theirs(p), p.height[c] + 1)) <==> p.height[c] + 1 < 7 * c + HEIGHT)
  {
    hide IsLegal, With, OnBoard, Stacked, Free;
    ColorsOnBoard(p);
    WithInColumn(p.color[0], p.height[c], c);
    WithInColumn(p.color[1], p.height[c], c);
    if Playable(p, c) {
      WithInColumn(p.color[0], p.height[c] + 1, c);
      WithInColumn(p.color[1], p.height[c] + 1, c);
    }
  }

  lemma WithInColumn(b: bv64, h: nat, c: nat)
    requires OnBoard(b) && c < WIDTH && 7 * c <= h <= 7 * c + HEIGHT
    ensures IsLegal(With(b, h)) <==> h < 7 * c + HEIGHT
  {
    hide IsLegal, With, OnBoard;
    WithOnBoard(b, h);
    assert h % 7 == h - 7 * c;
  }

  /** Stones are never taken away, so a won board stays won. */
  lemma WonStays(b: bv64, f: bv64)
    requires HasWon(b)
    ensures HasWon(Or(b, f))
  {
    if Folded6(b) != 0 {
      FoldStays6(b, f);
    } else if Folded7(b) != 0 {
      FoldStays7(b, f);
    } else if Folded8(b) != 0 {
      FoldStays8(b, f);
    } else {
      FoldStays1(b, f);
    }
  }

  lemma FoldStays6(b: bv64, f: bv64)
    requires Folded6(b) != 0
    ensures Folded6(b | f) != 0
  {}

  lemma FoldStays7(b: bv64, f: bv64)
    requires Folded7(b) != 0
    ensures Folded7(b | f) != 0
  {}

  lemma FoldStays8(b: bv64, f: bv64)
    requires Folded8(b) != 0
    ensures Folded8(b | f) != 0
  {}

  lemma FoldStays1(b: bv64, f: bv64)
    requires Folded1(b) != 0
    ensures Folded1(b | f) != 0
  {}

  lemma WithStaysWon(b: bv64, i: nat)
    requires HasWon(b) && i < SIZE1
    ensures HasWon(With(b, i))
  {
    hide HasWon, Bit, Or;
    WonStays(b, Bit(i));
  }

  lemma WonIsFour(p: Position)
    requires Ok(p)
    ensures HasWon(Theirs(p)) <==> HasFour(Theirs(p))
    ensures HasWon(Mine(p)) <==> HasFour(Mine(p))
  {
    hide HasWon, HasFour, Stacked, Free, OnBoard;
    ColorsOnBoard(p);
    OnBoardWon(p.color[0]);
    OnBoardWon(p.color[1]);
  }

  lemma OnBoardWon(b: bv64)
    requires OnBoard(b)
    ensures HasWon(b) <==> HasFour(b)
  {
    hide HasWon, HasFour;
    HasWonIsFour(b);
  }

  lemma {:induction false} BestAtLeast(p: Position, n: nat, c: nat)
    requires Ok(p) && c < n <= WIDTH && Playable(p, c)
    ensures Best(p, n) >= MoveValue(p, c)
  {
    hide Stacked, Free, MoveValue;
    if c < n - 1 {
      BestAtLeast(p, n - 1, c);
    }
  }

  lemma {:induction false} BestAtMost(p: Position, n: nat, u: int)
    requires Ok(p) && n <= WIDTH && u >= LOSS
    requires forall c :: 0 <= c < n && Playable(p, c) ==> MoveValue(p, c) <= u
    ensures Best(p, n) <= u
  {
    hide Stacked, Free, MoveValue;
    if n > 0 {
      BestAtMost(p, n - 1, u);
    }
  }

  /** An unfinished position is worth at least each of its moves. */
  lemma ValueAtLeast(p: Position, c: nat)
    requires Ok(p) && !HasWon(Theirs(p)) && Playable(p, c)
    ensures Value(p) >= MoveValue(p, c)
  {
    hide HasWon, HasFour, Stacked, Free, MoveValue, Best;
    WonIsFour(p);
    RoomLeft(p, c);
    BestAtLeast(p, WIDTH, c);
  }

  /** An unfinished position is worth no more than what bounds all of its moves. */
  lemma ValueAtMost(p: Position, u: int)
    requires Ok(p) && p.nplies < SIZE && u >= LOSS
    requires forall c :: 0 <= c < WIDTH && Playable(p, c) ==> MoveValue(p, c) <= u
    ensures Value(p) <= u
  {
    hide HasWon, HasFour, Stacked, Free, MoveValue, Best;
    BestAtMost(p, WIDTH, u);
  }

  lemma RoomLeft(p: Position, c: nat)
    requires Ok(p) && Playable(p, c)
    ensures p.nplies < SIZE
  {
    hide Stacked, Free;
  }

  lemma SomeRoom(p: Position) returns (c: nat)
    requires Ok(p) && p.nplies < SIZE
    ensures Playable(p, c)
  {
    hide Stacked, Free;
    c := if Playable(p, 0) then 0 else if Playable(p, 1) then 1 else if Playable(p, 2) then 2
      else if Playable(p, 3) then 3 else if Playable(p, 4) then 4 else if Playable(p, 5) then 5 else 6;
  }

  /** A move that makes four in a row wins. */
  lemma WinningMove(p: Position, c: nat)
    requires Ok(p) && WinsAt(p, c)
    ensures MoveValue(p, c) == WIN
  {
    hide HasWon, HasFour, Stacked, Free, Best, With, Flip;
    PlayOk(p, c);
    WonIsFour(Play(p, c));
  }

  /** A move is lost when the opponent's answer wins. */
  lemma AnsweredMove(p: Position, c: nat, d: nat)
    requires Ok(p) && Playable(p, c) && !WinsAt(p, c)
    requires Ok(Play(p, c)) && WinsAt(Play(p, c), d)
    ensures MoveValue(p, c) == LOSS
  {
    hide HasWon, HasFour, Stacked, Free, Best, With, Flip;
    PlayOk(p, c);
    WinningMove(Play(p, c), d);
    ValueAtLeast(Play(p, c), d);
  }

  /** A threat that is not answered loses. */
  lemma IgnoredThreat(p: Position, i: nat, c: nat)
    requires Quiet(p) && Threat(p, i) && Playable(p, c) && c != i
    ensures MoveValue(p, c) == LOSS
  {
    hide HasWon, HasFour, Stacked, Free, Best, With, Flip, MoveValue;
    PlayOk(p, c);
    AnsweredMove(p, c, i);
  }

  /** Playing under a winning square of the opponent loses. */
  lemma BuriedThreat(p: Position, c: nat)
    requires Quiet(p) && WinOnTop(p, c)
    ensures MoveValue(p, c) == LOSS
  {
    hide HasWon, HasFour, Stacked, Free, Best, With, Flip, MoveValue;
    PlayOk(p, c);
    AnsweredMove(p, c, c);
  }

  /** A move that leaves no threat behind hands on a quiet position. */
  lemma QuietAfter(p: Position, c: nat)
    requires Quiet(p) && Playable(p, c) && !WinOnTop(p, c)
    requires forall i :: 0 <= i < WIDTH && i != c ==> !Threat(p, i)
    ensures Quiet(Play(p, c))
  {
    hide HasWon, HasFour, Stacked, Free, With, Flip;
    PlayOk(p, c);
    var q := Play(p, c);
    assert !WinsAt(p, c);
    forall d | 0 <= d < WIDTH
      ensures !WinsAt(q, d)
    {
      if d != c {
        assert !Threat(p, d);
      }
    }
  }

  /** With one square left nobody who is to move can lose. */
  lemma LastSquare(p: Position)
    requires Ok(p) && p.nplies == SIZE - 1 && !HasWon(Theirs(p))
    ensures Value(p) >= DRAW
  {
    hide HasWon, HasFour, Stacked, Free, Best, With, Flip;
    var c := SomeRoom(p);
    PlayOk(p, c);
    ValueAtLeast(p, c);
  }

  /** With one square left and no win on it the game is drawn. */
  lemma LastMove(p: Position)
    requires Quiet(p) && p.nplies == SIZE - 1
    ensures Value(p) == DRAW
  {
    hide HasWon, HasFour, Stacked, Free, Best, With, Flip;
    LastSquare(p);
    forall c | 0 <= c < WIDTH && Playable(p, c)
      ensures MoveValue(p, c) <= DRAW
    {
      PlayOk(p, c);
      WonIsFour(Play(p, c));
      assert !WinsAt(p, c);
    }
    ValueAtMost(p, DRAW);
  }

  /** With two squares left and a move that leaves the opponent no win the game is drawn. */
  lemma LastTwoMoves(p: Position, c: nat)
    requires Quiet(p) && p.nplies == SIZE - 2 && Playable(p, c) && Quiet(Play(p, c))
    ensures Value(p) == DRAW
  {
    hide HasWon, HasFour, Stacked, Free, Best, With, Flip;
    PlayOk(p, c);
    LastMove(Play(p, c));
    ValueAtLeast(p, c);
    forall d | 0 <= d < WIDTH && Playable(p, d)
      ensures MoveValue(p, d) <= DRAW
    {
      PlayOk(p, d);
      assert !WinsAt(p, d);
      LastSquare(Play(p, d));
    }
    ValueAtMost(p, DRAW);
  }
}
