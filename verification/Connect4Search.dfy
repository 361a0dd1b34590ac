/** The solver: moves made and taken back on one board, a two-slot table of results, and the search. */
module Connect4Search {
  import opened Connect4Board
  import opened Connect4Game
  import opened Connect4Threats
  import opened Connect4Hash
  import opened Connect4Keys

  const UNKNOWN := 0

  // ----- Runs of moves -----

  function Start(): (p: Position) {
    Position([0, 0], [0, 7, 14, 21, 28, 35, 42], 0)
  }

  lemma StartOk()
    ensures Ok(Start())
  {
    assert Bit(0) == 0x1 && Bit(7) == 0x80 && Bit(14) == 0x4000 && Bit(21) == 0x20_0000;
    assert Bit(28) == 0x1000_0000 && Bit(35) == 0x8_0000_0000 && Bit(42) == 0x400_0000_0000;
  }

  /** The columns can be played in this order from the empty board. */
  ghost predicate Legal(moves: seq<nat>)
    decreases |moves|, 0
  {
    moves == [] || (Legal(moves[..|moves| - 1]) && Playable(After(moves[..|moves| - 1]), moves[|moves| - 1]))
  }

  /** The position after a run of moves: colours disjoint, columns contiguous, all counts right. */
  ghost function After(moves: seq<nat>): (p: Position)
    requires Legal(moves)
    ensures Ok(p) && p.nplies == |moves|
    decreases |moves|, 1
  {
    hide Stacked, Free;
    if moves == [] then
      StartOk();
      Start()
    else
      var q := After(moves[..|moves| - 1]);
      PlayOk(q, moves[|moves| - 1]);
      Play(q, moves[|moves| - 1])
  }

  lemma AfterMove(moves: seq<nat>, c: nat)
    requires Legal(moves) && Playable(After(moves), c)
    ensures Legal(moves + [c]) && After(moves + [c]) == Play(After(moves), c)
  {
    hide Stacked, Free;
    var next := moves + [c];
    assert next[..|next| - 1] == moves;
  }

  lemma AfterLast(moves: seq<nat>)
    requires Legal(moves) && moves != []
    ensures var before := moves[..|moves| - 1]; var c := moves[|moves| - 1];
      Legal(before) && Playable(After(before), c) && After(moves) == Play(After(before), c)
  {
    hide Stacked, Free;
  }

  lemma PlayParts(p: Position, c: nat)
    requires Ok(p) && Playable(p, c)
    ensures Play(p, c).color == p.color[p.nplies % 2 := Flip(p.color[p.nplies % 2], p.height[c])]
    ensures Play(p, c).height == p.height[c := p.height[c] + 1] && Play(p, c).nplies == p.nplies + 1
  {}

  // ----- What a score says -----

  /** The best outcome for the opponent that a score leaves open. */
  function Lower(score: int): (v: int) {
    if score == DRAW || score == DRAWWIN then DRAW else if score == WIN then WIN else LOSS
  }

  /** The best outcome for the mover that a score leaves open. */
  function Upper(score: int): (v: int) {
    if score == LOSS then LOSS else if score == DRAWLOSS || score == DRAW then DRAW else WIN
  }

  /** The value lies in the interval that the score's name says. */
  predicate Bounds(score: int, v: int) {
    LOSS <= score <= WIN && Lower(score) <= v <= Upper(score)
  }

  lemma BoundsFlip(score: int, v: int)
    requires Bounds(score, v)
    ensures Bounds(LOSSWIN - score, LOSSWIN - v)
  {}

  predicate Window(alpha: int, beta: int) {
    alpha < beta && (alpha == LOSS || alpha == DRAW) && (beta == DRAW || beta == WIN)
  }

  /** What the search promises: a sound score, one-sided only against a draw bound of its window. */
  predicate Answers(score: int, alpha: int, beta: int, v: int) {
    Bounds(score, v) && (score == DRAWLOSS ==> alpha == DRAW) && (score == DRAWWIN ==> beta == DRAW)
  }

  // ----- The table -----

  /** Two slots: `big` for the result that took most work, `new` for the latest other one. */
  datatype HashEntry = HashEntry(biglock: nat, bigwork: nat, newlock: nat, newscore: int, bigscore: int)

  /** What an entry has for a lock: the big slot's score, else the new one's. */
  function LookedUp(e: HashEntry, l: nat): (score: int) {
    if e.biglock == l then e.bigscore else if e.newlock == l then e.newscore else UNKNOWN
  }

  /** The position is looked up in slot `x` under lock `l`. */
  ghost predicate FoundAt(p: Position, x: nat, l: nat) {
    Ok(p) && !HasWon(Mine(p)) && Index(NormCode(p)) == x && Lock(NormCode(p)) == l
  }

  /** A score holds of every position it can be read for. */
  ghost predicate SlotSound(x: nat, l: nat, score: int) {
    score == UNKNOWN || forall p :: FoundAt(p, x, l) ==> Bounds(score, Value(p))
  }

  ghost predicate EntrySound(x: nat, e: HashEntry) {
    SlotSound(x, e.biglock, e.bigscore) && SlotSound(x, e.newlock, e.newscore)
  }

  ghost predicate TableSound(table: seq<HashEntry>) {
    |table| == TRANSIZE && forall x :: 0 <= x < TRANSIZE ==> EntrySound(x, table[x])
  }

  /** A result stored under a position's key is sound for every position that shares the key. */
  lemma StoreSound(p: Position, score: int)
    requires Ok(p) && !HasWon(Mine(p)) && Bounds(score, Value(p))
    ensures SlotSound(Index(NormCode(p)), Lock(NormCode(p)), score)
  {
    hide HasWon, Stacked, Free, NormCode, Value, MirrorPosition, Lock, Number, Bounds;
    forall q | FoundAt(q, Index(NormCode(p)), Lock(NormCode(p)))
      ensures Bounds(score, Value(q))
    {
      SharedKeyValue(p, q);
    }
  }

  // ----- The moves worth searching -----

  /** Moves that hand on a quiet position, while all the others lose. */
  ghost predicate Candidates(p: Position, ms: seq<nat>)
    requires Ok(p)
  {
    && (forall c :: c in ms ==> Playable(p, c) && Quiet(Play(p, c)))
    && (forall c :: 0 <= c < WIDTH && Playable(p, c) && c !in ms ==> MoveValue(p, c) == LOSS)
  }

  /** Two winning squares of the opponent cannot both be answered; nor can one above the other. */
  lemma DoubleThreat(p: Position, i: nat, j: nat)
    requires Quiet(p) && Threat(p, i)
    requires if i == j then WinOnTop(p, i) else Threat(p, j)
    ensures Value(p) == LOSS
  {
    hide HasWon, Stacked, Free, Value, MoveValue, Best;
    forall c | 0 <= c < WIDTH && Playable(p, c)
      ensures MoveValue(p, c) <= LOSS
    {
      if c != i {
        IgnoredThreat(p, i, c);
      } else if c == j {
        BuriedThreat(p, c);
      } else {
        IgnoredThreat(p, j, c);
      }
    }
    RoomLeft(p, i);
    ValueAtMost(p, LOSS);
  }

  /** A single threat forces the answer. */
  lemma ForcedMove(p: Position, i: nat)
    requires Quiet(p) && Threat(p, i) && !WinOnTop(p, i)
    requires forall c :: 0 <= c < WIDTH && c != i ==> !Threat(p, c)
    ensures Candidates(p, [i])
  {
    hide HasWon, Stacked, Free, Value, MoveValue, Best, With, Play;
    QuietAfter(p, i);
    forall c | 0 <= c < WIDTH && Playable(p, c) && c !in [i]
      ensures MoveValue(p, c) == LOSS
    {
      assert c != i;
      IgnoredThreat(p, i, c);
    }
  }

  /** The playable columns before `n` that do not help the opponent to a win on top. */
  ghost predicate Spared(p: Position, ms: seq<nat>, n: nat)
    requires Ok(p)
  {
    && (forall k :: 0 <= k < |ms| ==> ms[k] < n && Playable(p, ms[k]) && !WinOnTop(p, ms[k]))
    && (forall c :: 0 <= c < n && Playable(p, c) && !WinOnTop(p, c) ==> c in ms)
  }

  lemma EmptySpared(p: Position)
    requires Ok(p)
    ensures Spared(p, [], 0)
  {}

  lemma SparedStep(p: Position, ms: seq<nat>, i: nat)
    requires Ok(p) && Spared(p, ms, i)
    ensures Spared(p, if Playable(p, i) && !WinOnTop(p, i) then ms + [i] else ms, i + 1)
  {
    hide Ok, Playable, WinOnTop;
    var next := ms + [i];
    assert i in next;
    forall c | c in ms
      ensures c in next
    {}
  }

  /** Without threats every move is free that does not help the opponent to a win on top. */
  lemma FreeMoves(p: Position, ms: seq<nat>)
    requires Quiet(p) && Spared(p, ms, WIDTH)
    requires forall c :: 0 <= c < WIDTH ==> !Threat(p, c)
    ensures Candidates(p, ms)
  {
    hide HasWon, Stacked, Free, Value, MoveValue, Best, With, Play, Threat;
    forall c | c in ms
      ensures Playable(p, c) && Quiet(Play(p, c))
    {
      QuietAfter(p, c);
    }
    forall c | 0 <= c < WIDTH && Playable(p, c) && c !in ms
      ensures MoveValue(p, c) == LOSS
    {
      BuriedThreat(p, c);
    }
  }

  // ----- The order of the moves -----

  /** The sequence with element `l` moved down to place `i`. */
  function Rotated(s: seq<nat>, i: nat, l: nat): (r: seq<nat>)
    requires i <= l < |s|
    ensures |r| == |s| && r[..i] == s[..i] && r[i] == s[l]
  {
    s[..i] + [s[l]] + s[i..l] + s[l + 1..]
  }

  lemma RotatedAt(s: seq<nat>, t: seq<nat>, i: nat, l: nat)
    requires i <= l < |s| == |t| && t[i] == s[l]
    requires forall k :: 0 <= k < i || l < k < |s| ==> t[k] == s[k]
    requires forall k :: i < k <= l ==> t[k] == s[k - 1]
    ensures t == Rotated(s, i, l)
  {
    assert t[..i] == s[..i];
    assert t[i + 1..l + 1] == s[i..l];
    assert t[l + 1..] == s[l + 1..];
    assert t == t[..i] + [t[i]] + t[i + 1..l + 1] + t[l + 1..];
  }

  lemma RotatedElements(s: seq<nat>, i: nat, l: nat)
    requires i <= l < |s|
    ensures multiset(Rotated(s, i, l)) == multiset(s)
  {
    assert s == s[..i] + s[i..l] + [s[l]] + s[l + 1..];
  }

  lemma SameCandidates(p: Position, s: seq<nat>, t: seq<nat>)
    requires Ok(p) && Candidates(p, s) && multiset(t) == multiset(s)
    ensures Candidates(p, t)
  {
    hide Ok, Playable, Quiet, Play, MoveValue;
    forall c
      ensures c in s <==> c in t
    {
      assert c in s <==> c in multiset(s);
      assert c in t <==> c in multiset(t);
    }
  }

  // ----- Trying the moves -----

  /** The first `n` moves are worth no more than the score allows. */
  ghost predicate Tried(p: Position, ms: seq<nat>, n: nat, score: int)
    requires Ok(p) && n <= |ms|
  {
    forall k :: 0 <= k < n ==> Playable(p, ms[k]) && MoveValue(p, ms[k]) <= Upper(score)
  }

  lemma NothingTried(p: Position, ms: seq<nat>)
    requires Ok(p)
    ensures Tried(p, ms, 0, LOSS)
  {}

  lemma CandidateColumns(p: Position, ms: seq<nat>)
    requires Ok(p) && Candidates(p, ms)
    ensures forall k :: 0 <= k < |ms| ==> ms[k] < WIDTH
    ensures forall c :: 0 <= c < WIDTH ==> p.height[c] < SIZE1
  {
    hide Stacked, Free, Quiet, Play, MoveValue;
    forall k | 0 <= k < |ms|
      ensures ms[k] < WIDTH
    {
      assert ms[k] in ms;
    }
  }

  lemma CandidateQuiet(p: Position, ms: seq<nat>, c: nat)
    requires Ok(p) && Candidates(p, ms) && c in ms
    ensures Playable(p, c) && Quiet(Play(p, c))
  {
    hide Stacked, Free, Quiet, Play, MoveValue;
  }

  lemma RotatedTried(p: Position, ms: seq<nat>, i: nat, l: nat, score: int)
    requires Ok(p) && i <= l < |ms| && Candidates(p, ms) && Tried(p, ms, i, score)
    ensures Candidates(p, Rotated(ms, i, l)) && Tried(p, Rotated(ms, i, l), i, score)
  {
    hide Stacked, Free, Quiet, Play, MoveValue, Candidates;
    RotatedElements(ms, i, l);
    SameCandidates(p, ms, Rotated(ms, i, l));
    var r := Rotated(ms, i, l);
    forall k | 0 <= k < i
      ensures Playable(p, r[k]) && MoveValue(p, r[k]) <= Upper(score)
    {
      assert r[k] == r[..i][k] && ms[k] == ms[..i][k];
    }
  }

  /** One more move tried, the score raised to its own if that is better. */
  lemma TriedOne(p: Position, ms: seq<nat>, i: nat, score: int, val: int)
    requires Ok(p) && i < |ms| && Tried(p, ms, i, score) && LOSS <= score <= DRAW
    requires Playable(p, ms[i]) && Bounds(val, MoveValue(p, ms[i]))
    ensures Tried(p, ms, i + 1, if val > score then val else score)
  {
    hide Stacked, Free, MoveValue;
  }

  /** All candidates tried: the score bounds the value from above. */
  lemma Exhausted(p: Position, ms: seq<nat>, score: int)
    requires Quiet(p) && p.nplies < SIZE && Candidates(p, ms) && Tried(p, ms, |ms|, score) && LOSS <= score <= WIN
    ensures Value(p) <= Upper(score)
  {
    hide Stacked, Free, MoveValue, Value, HasWon;
    forall c | 0 <= c < WIDTH && Playable(p, c)
      ensures MoveValue(p, c) <= Upper(score)
    {
      if c in ms {
        var k :| 0 <= k < |ms| && ms[k] == c;
      }
    }
    ValueAtMost(p, Upper(score));
  }

  /** With one candidate its value is the position's. */
  lemma OnlyMove(p: Position, c: nat)
    requires Quiet(p) && p.nplies < SIZE && Candidates(p, [c]) && Playable(p, c)
    ensures Value(p) == MoveValue(p, c)
  {
    hide Stacked, Free, MoveValue, Value, HasWon;
    ValueAtLeast(p, c);
    forall d | 0 <= d < WIDTH && Playable(p, d)
      ensures MoveValue(p, d) <= MoveValue(p, c)
    {
      if d != c {
        assert d !in [c];
      }
    }
    ValueAtMost(p, MoveValue(p, c));
  }

  lemma QuietNotWon(p: Position)
    requires Quiet(p)
    ensures Ok(p) && !HasWon(Mine(p)) && !HasWon(Theirs(p))
  {}

  lemma WonAlready(p: Position)
    requires Ok(p) && (HasWon(Theirs(p)) || p.nplies == SIZE)
    ensures Value(p) == if HasWon(Theirs(p)) then LOSS else DRAW
  {
    hide Stacked, Free, HasWon, HasFour, Best;
    WonIsFour(p);
  }

  lemma WonNow(p: Position, c: nat)
    requires Ok(p) && !HasWon(Theirs(p)) && WinsAt(p, c)
    ensures Value(p) == WIN && p.nplies < SIZE
  {
    hide Stacked, Free, HasWon, HasFour, Best, MoveValue, With;
    WinningMove(p, c);
    ValueAtLeast(p, c);
    RoomLeft(p, c);
  }

  /** With no immediate win nobody can have won who still has a move. */
  lemma NotOver(p: Position)
    requires Ok(p) && p.nplies < SIZE && !HasWon(Theirs(p))
    requires forall c :: 0 <= c < WIDTH ==> !WinsAt(p, c)
    ensures Quiet(p)
  {
    hide Stacked, Free, HasWon, With;
    if HasWon(Mine(p)) {
      var c := SomeRoom(p);
      assert !WinsAt(p, c);
      WithStaysWon(Mine(p), p.height[c]);
    }
  }

  /** How often a count can be halved before it is down to one. */
  function Log2(n: nat): (k: nat) {
    if n < 2 then 0 else 1 + Log2(n / 2)
  }

  // ----- The solver -----

  class Solver {
    const color: array<bv64>
    const height: array<nat>
    const moves: array<nat>
    const ht: array<HashEntry>
    const history: array2<int>
    var nplies: nat
    var htindex: nat
    var lock: nat
    var posed: nat
    var nodes: nat

    ghost function Pos(): (p: Position)
      reads this, color, height
    {
      Position(color[..], height[..], nplies)
    }

    predicate Shape()
      reads this
    {
      && color.Length == 2 && height.Length == WIDTH && moves.Length == SIZE && height != moves
      && ht.Length == TRANSIZE && history.Length0 == 2 && history.Length1 == SIZE1 && nplies <= SIZE
    }

    /** The moves made so far. */
    ghost function Made(): (ms: seq<nat>)
      requires Shape()
      reads this, moves
    {
      moves[..nplies]
    }

    /** The board is the one that the moves made so far lead to. */
    ghost predicate Valid()
      reads this, color, height, moves
    {
      Shape() && Legal(Made()) && Pos() == After(Made())
    }

    ghost predicate TableOk()
      reads this, ht
    {
      TableSound(ht[..])
    }

    /** An empty board, an empty table, and any history scores. */
    constructor (past: (nat, nat) -> int)
      ensures Valid() && TableOk() && Made() == []
      ensures fresh(color) && fresh(height) && fresh(moves) && fresh(ht) && fresh(history)
    {
      color := new bv64[2](i => 0);
      height := new nat[WIDTH](i requires 0 <= i < WIDTH => 7 * i);
      moves := new nat[SIZE](i => 0);
      ht := new HashEntry[TRANSIZE](i => HashEntry(0, 0, 0, UNKNOWN, UNKNOWN));
      history := new int[2, SIZE1](past);
      nplies, htindex, lock, posed, nodes := 0, 0, 0, 0, 0;
      new;
      StartOk();
      hide Stacked, Free, HasWon, Value;
      assert color[..] == [0, 0];
      assert height[..] == [0, 7, 14, 21, 28, 35, 42];
      assert Made() == [];
    }

    /** Takes all moves back at once. */
    method Reset()
      requires Shape()
      modifies this`nplies, color, height
      ensures Valid() && Made() == []
      ensures Pos() == Start()
    {
      nplies := 0;
      color[0], color[1] := 0, 0;
      var i := 0;
      while i < WIDTH
        invariant 0 <= i <= WIDTH && nplies == 0 && color[0] == 0 && color[1] == 0
        invariant forall j :: 0 <= j < i ==> height[j] == 7 * j
      {
        height[i] := 7 * i;
        i := i + 1;
      }
      StartOk();
      assert color[..] == [0, 0];
      assert height[..] == [0, 7, 14, 21, 28, 35, 42];
    }

    /** Drops a stone of the mover in column `n`. */
    method MakeMove(n: nat)
      requires Valid() && n < WIDTH && Playable(Pos(), n)
      modifies this`nplies, color, height, moves
      ensures Valid() && Made() == old(Made()) + [n]
      ensures Pos() == Play(old(Pos()), n)
    {
      hide Stacked, Free, Flip, Play, After, Legal;
      ghost var p, made := Pos(), Made();
      RoomLeft(p, n);
      AfterMove(made, n);
      PlayParts(p, n);
      ghost var next := Play(p, n);
      color[nplies % 2] := Flip(color[nplies % 2], height[n]);
      height[n] := height[n] + 1;
      moves[nplies] := n;
      nplies := nplies + 1;
      assert Made() == made + [n];
      assert color[..] == next.color;
      assert height[..] == next.height;
    }

    /** Takes the last move back: the board is again the one before it. */
    method BackMove()
      requires Valid() && nplies > 0
      modifies this`nplies, color, height
      ensures Valid() && Made() == old(Made()[..nplies - 1])
    {
      hide Stacked, Free, Flip, Play, After, Legal;
      ghost var made := Made();
      AfterLast(made);
      ghost var q := After(made[..|made| - 1]);
      PlayParts(q, made[|made| - 1]);
      nplies := nplies - 1;
      var n := moves[nplies];
      height[n] := height[n] - 1;
      assert height[..] == q.height;
      FlipTwice(q.color[nplies % 2], height[n]);
      color[nplies % 2] := Flip(color[nplies % 2], height[n]);
      assert color[..] == q.color;
      assert Made() == made[..|made| - 1];
    }

    /** Computes the keys of the board, looking at its mirror image early in the game. */
    method Hash()
      requires Valid()
      modifies this`htindex, this`lock
      ensures htindex == Index(NormCode(Pos())) && lock == Lock(NormCode(Pos()))
    {
      hide Stacked, Free, ValidHeights, Mirror, Code, Seventh, Join, Rest, Reversed, Number, InRange, Index, Lock;
      var htemp := Code(color[nplies % 2], color[0], color[1]);
      assert htemp == PositionCode(Pos());
      if nplies < SYMMREC {
        var htmp, htemp2 := htemp, 0;
        ghost var k := 0;
        CodeInRange(Pos());
        NothingReversed(htemp);
        while htmp != 0
          invariant k <= WIDTH && htmp == Rest(htemp, k) && htemp2 == Reversed(htemp, k)
          decreases WIDTH - k
        {
          RestIsZero(htemp, k);
          ReversedStep(htemp, k);
          htemp2 := Join(htemp2, htmp);
          htmp := Seventh(htmp);
          k := k + 1;
        }
        RestIsZero(htemp, k);
        ReversedIsMirror(htemp);
        htemp := Smaller(htemp, htemp2);
      }
      lock := Lock(htemp);
      htindex := Index(htemp);
    }

    /** The stored result for the board, if any. */
    method Transpose() returns (score: int)
      requires Valid() && TableOk() && !HasWon(Mine(Pos()))
      modifies this`htindex, this`lock
      ensures htindex == Index(NormCode(Pos())) && lock == Lock(NormCode(Pos()))
      ensures score == UNKNOWN || Bounds(score, Value(Pos()))
      ensures htindex < ht.Length && score == LookedUp(ht[htindex], lock)
    {
      hide Stacked, Free, ValidHeights, HasWon, NormCode, Index, Lock, Value, Bounds, Legal, After;
      Hash();
      ghost var p := Pos();
      IndexSmall(NormCode(p));
      var he := ht[htindex];
      assert EntrySound(htindex, he);
      assert FoundAt(p, htindex, lock);
      if he.biglock == lock {
        return he.bigscore;
      }
      if he.newlock == lock {
        return he.newscore;
      }
      return UNKNOWN;
    }

    /**
     * Stores a result: in the big slot if it is its position's or took at least as much work, else in the new one. It
     * is what is found there next under the same key.
     */
    method TransStore(x: nat, key: nat, score: int, work: nat)
      requires Shape() && TableOk() && x < TRANSIZE && SlotSound(x, key, score)
      modifies this`posed, ht
      ensures TableOk() && posed == old(posed) + 1
      ensures var e := old(ht[x]);
        ht[..] == old(ht[..])[x := if e.biglock == key || work >= e.bigwork
                                   then e.(biglock := key, bigscore := score, bigwork := work)
                                   else e.(newlock := key, newscore := score)]
      ensures LookedUp(ht[x], key) == score
    {
      hide SlotSound;
      posed := posed + 1;
      var he := ht[x];
      assert EntrySound(x, he);
      if he.biglock == key || work >= he.bigwork {
        he := he.(biglock := key, bigscore := score, bigwork := work);
      } else {
        he := he.(newlock := key, newscore := score);
      }
      ht[x] := he;
      forall y | 0 <= y < TRANSIZE
        ensures EntrySound(y, ht[..][y])
      {
        assert y != x ==> EntrySound(y, old(ht[..])[y]);
      }
    }

    /** The next column, from `first` on, in which the opponent threatens to win. */
    method NextThreat(first: nat) returns (i: nat)
      requires Valid() && first <= WIDTH
      ensures first <= i <= WIDTH && (forall c :: first <= c < i ==> !Threat(Pos(), c))
      ensures i < WIDTH ==> Threat(Pos(), i)
    {
      hide Stacked, Free, HasWon, IsLegal, With, Legal, After;
      var other := color[1 - nplies % 2];
      i := first;
      while i < WIDTH
        invariant first <= i <= WIDTH && forall c :: first <= c < i ==> !Threat(Pos(), c)
      {
        LegalIsPlayable(Pos(), i);
        if IsLegalHasWon(With(other, height[i])) {
          return;
        }
        i := i + 1;
      }
    }

    /** The moves worth searching, or the discovery that none of them helps. */
    method ScanMoves(av: array<nat>) returns (nav: nat, lost: bool)
      requires Valid() && (nplies < SIZE ==> Quiet(Pos())) && av.Length == WIDTH && av != height && av != moves
      modifies av
      ensures nav <= WIDTH
      ensures lost ==> nplies < SIZE && Value(Pos()) == LOSS
      ensures !lost ==> if nplies < SIZE then Candidates(Pos(), av[..nav]) else nav == 0
    {
      hide Stacked, Free, HasWon, IsLegal, With, Value, Legal, After, MoveValue, Candidates, Spared, Quiet;
      ghost var p := Pos();
      EmptySpared(p);
      var other := color[1 - nplies % 2];
      assert other == Theirs(p);
      nav, lost := 0, false;
      assert av[..nav] == [];
      var i := 0;
      while i < WIDTH
        invariant 0 <= i <= WIDTH && nav <= i && Pos() == p
        invariant forall c :: 0 <= c < i ==> !Threat(p, c)
        invariant Spared(p, av[..nav], i) && (nplies == SIZE ==> nav == 0)
      {
        LegalIsPlayable(p, i);
        SparedStep(p, av[..nav], i);
        ghost var before := av[..nav];
        var newbrd := With(other, height[i]);
        if IsLegal(newbrd) {
          RoomLeft(p, i);
          var winontop := IsLegalHasWon(With(other, height[i] + 1));
          assert winontop == WinOnTop(p, i);
          if HasWon(newbrd) {
            assert Threat(p, i);
            if winontop {
              DoubleThreat(p, i, i);
              return nav, true;
            }
            av[0] := i;
            assert av[..1] == [i] && Pos() == p;
            var j := NextThreat(i + 1);
            if j < WIDTH {
              DoubleThreat(p, i, j);
              return 1, true;
            }
            forall c | 0 <= c < WIDTH && c != i
              ensures !Threat(p, c)
            {
              assert c < i || !Threat(Pos(), c);
            }
            ForcedMove(p, i);
            return 1, false;
          }
          if !winontop {
            av[nav] := i;
            nav := nav + 1;
            assert av[..nav] == before + [i];
          }
        }
        i := i + 1;
      }
      if nplies < SIZE {
        FreeMoves(p, av[..nav]);
      }
    }

    /** The place of the move with the best history among those from place `i` on. */
    method BestHistory(av: array<nat>, i: nat, nav: nat, side: nat) returns (l: nat)
      requires Shape() && av.Length == WIDTH && i < nav <= WIDTH && side < 2
      requires forall c :: 0 <= c < WIDTH ==> height[c] < SIZE1
      requires forall k :: 0 <= k < nav ==> av[k] < WIDTH
      ensures i <= l < nav
      ensures forall k :: i <= k < nav ==> history[side, height[av[k]]] <= history[side, height[av[l]]]
      ensures forall k :: i <= k < l ==> history[side, height[av[k]]] < history[side, height[av[l]]]
    {
      l := i;
      var val := history[side, height[av[i]]];
      var j := i + 1;
      while j < nav
        invariant i <= l < j <= nav && val == history[side, height[av[l]]]
        invariant forall k :: i <= k < j ==> history[side, height[av[k]]] <= val
        invariant forall k :: i <= k < l ==> history[side, height[av[k]]] < val
      {
        var v := history[side, height[av[j]]];
        if v > val {
          val, l := v, j;
        }
        j := j + 1;
      }
    }

    /** Moves the element at place `best` down to place `i`; those in between move up. */
    static method MoveDown(av: array<nat>, i: nat, best: nat, nav: nat)
      requires i <= best < nav <= av.Length
      modifies av
      ensures av[..nav] == Rotated(old(av[..nav]), i, best)
    {
      ghost var was := av[..nav];
      var l, j := best, av[best];
      while l > i
        invariant i <= l <= best
        invariant forall k :: 0 <= k <= l || best < k < nav ==> av[k] == was[k]
        invariant forall k :: l < k <= best ==> av[k] == was[k - 1]
      {
        av[l] := av[l - 1];
        l := l - 1;
      }
      av[i] := j;
      RotatedAt(was, av[..nav], i, best);
    }

    /** Lowers the history of the moves that were tried in vain and raises that of the one that paid off. */
    method Reward(av: array<nat>, besti: nat, side: nat)
      requires Shape() && av.Length == WIDTH && besti < WIDTH && side < 2
      requires forall c :: 0 <= c < WIDTH ==> height[c] < SIZE1
      requires forall k :: 0 <= k <= besti ==> av[k] < WIDTH
      modifies history
    {
      var i := 0;
      while i < besti
        invariant 0 <= i <= besti
      {
        history[side, height[av[i]]] := history[side, height[av[i]]] - 1;
        i := i + 1;
      }
      history[side, height[av[besti]]] := history[side, height[av[besti]]] + besti;
    }

    /** The logarithm of the number of positions stored. */
    static method LogPositions(count: nat) returns (work: nat)
      ensures work == Log2(count)
    {
      var poscnt: nat := count / 2;
      work := 0;
      while poscnt != 0
        invariant Log2(count) == if poscnt == 0 then work else work + 1 + Log2(poscnt)
      {
        poscnt := poscnt / 2;
        work := work + 1;
      }
    }

    /** The value of a position for the mover: searched in a window, with the board and the table kept. */
    method Ab(alpha0: int, beta0: int) returns (score: int)
      requires Valid() && TableOk() && Window(alpha0, beta0)
      requires nplies < SIZE ==> Quiet(Pos())
      modifies this, color, height, moves, ht, history
      ensures Valid() && TableOk() && Made() == old(Made())
      ensures old(nplies) < SIZE ==> Answers(score, alpha0, beta0, Value(old(Pos())))
      ensures old(nplies) == SIZE ==> score == LOSS
      ensures posed >= old(posed)
      decreases SIZE - nplies, 2
    {
      hide Stacked, Free, ValidHeights, HasWon, Value, MoveValue, Legal, After, Play;
      hide TableSound, Candidates, Quiet, SlotSound, NormCode, Lock, Index;
      var alpha, beta := alpha0, beta0;
      ghost var p, made := Pos(), Made();
      nodes := nodes + 1;
      if nplies == SIZE - 1 {
        LastMove(p);
        return DRAW;
      }
      var av := new nat[WIDTH](_ => 0);
      assert Valid() && Pos() == p;
      var nav, lost := ScanMoves(av);
      if lost {
        return LOSS;
      }
      if nav == 0 {
        if nplies < SIZE {
          Exhausted(p, av[..nav], LOSS);
        }
        return LOSS;
      }
      CandidateQuiet(p, av[..nav], av[0]);
      if nplies == SIZE - 2 {
        LastTwoMoves(p, av[0]);
        return DRAW;
      }
      if nav == 1 {
        assert av[..nav] == [av[0]];
        OnlyMove(p, av[0]);
        score := TryMove(av[0], alpha, beta);
        return score;
      }
      QuietNotWon(p);
      var ttscore := Transpose();
      if ttscore == DRAWLOSS {
        beta := DRAW;
        if beta <= alpha {
          return ttscore;
        }
      } else if ttscore == DRAWWIN {
        alpha := DRAW;
        if alpha >= beta {
          return ttscore;
        }
      } else if ttscore != UNKNOWN {
        return ttscore;
      }
      var hashindx, hashlock, poscnt := htindex, lock, posed;
      score := SearchMoves(av, nav, alpha, beta);
      if score == LOSSWIN - ttscore {
        score := DRAW;
      }
      var work := LogPositions(posed - poscnt);
      StoreSound(p, score);
      IndexSmall(NormCode(p));
      TransStore(hashindx, hashlock, score, work);
    }

    /** Makes a move, searches the position it leads to, and takes it back. */
    method TryMove(c: nat, alpha: int, beta: int) returns (val: int)
      requires Valid() && TableOk() && Window(alpha, beta) && nplies < SIZE - 2
      requires c < WIDTH && Playable(Pos(), c) && Quiet(Play(Pos(), c))
      modifies this, color, height, moves, ht, history
      ensures Valid() && TableOk() && Made() == old(Made())
      ensures Answers(val, alpha, beta, MoveValue(old(Pos()), c))
      ensures posed >= old(posed)
      decreases SIZE - nplies, 0
    {
      hide Stacked, Free, ValidHeights, HasWon, Value, Legal, After, Play, TableSound, Quiet, Best;
      ghost var p, made := Pos(), Made();
      MakeMove(c);
      assert Pos() == Play(p, c);
      var r := Ab(LOSSWIN - beta, LOSSWIN - alpha);
      BackMove();
      assert Made() == made;
      BoundsFlip(r, Value(Play(p, c)));
      val := LOSSWIN - r;
    }

    /** Tries the moves in the order of their history, narrowing the window and stopping at a cutoff. */
    method SearchMoves(av: array<nat>, nav: nat, alpha0: int, beta: int) returns (score: int)
      requires Valid() && TableOk() && Window(alpha0, beta) && nplies < SIZE - 2 && Quiet(Pos())
      requires av.Length == WIDTH && av != height && av != moves && 1 <= nav <= WIDTH
      requires Candidates(Pos(), av[..nav])
      modifies this, color, height, moves, ht, history, av
      ensures Valid() && TableOk() && Made() == old(Made())
      ensures Answers(score, alpha0, beta, Value(old(Pos())))
      ensures posed >= old(posed)
      decreases SIZE - nplies, 1
    {
      hide Stacked, Free, HasWon, Value, MoveValue, Legal, After, Play, TableSound, Candidates, Quiet, Tried, Rotated,
        Ok;
      ghost var p, made := Pos(), Made();
      var side := nplies % 2;
      var alpha, besti, i := alpha0, 0, 0;
      score := LOSS;
      QuietNotWon(p);
      NothingTried(p, av[..nav]);
      while i < nav
        invariant 0 <= i <= nav && besti < nav
        invariant Valid() && TableOk() && Made() == made && Pos() == p
        invariant Candidates(p, av[..nav]) && Tried(p, av[..nav], i, score) && Value(p) >= Lower(score)
        invariant score == LOSS || score == DRAWLOSS || score == DRAW
        invariant if score == DRAW then alpha == DRAW else alpha == alpha0
        invariant score == DRAWLOSS ==> alpha0 == DRAW
        invariant alpha < beta && posed >= old(posed)
      {
        ghost var ms := av[..nav];
        CandidateColumns(p, ms);
        var l := BestHistory(av, i, nav, side);
        MoveDown(av, i, l, nav);
        RotatedTried(p, ms, i, l, score);
        ms := av[..nav];
        assert Pos() == p && ms[i] == av[i];
        CandidateQuiet(p, ms, av[i]);
        var val := TryMove(av[i], alpha, beta);
        assert Pos() == p && ms == av[..nav];
        ValueAtLeast(p, av[i]);
        TriedOne(p, ms, i, score, val);
        i := i + 1;
        if val > score {
          besti := i - 1;
          score := val;
          if score > alpha {
            alpha := val;
            if alpha >= beta {
              if score == DRAW && i < nav {
                score := DRAWWIN;
              }
              if besti > 0 {
                CandidateColumns(p, ms);
                Reward(av, besti, side);
              }
              break;
            }
          }
        }
      }
      if i == nav {
        Exhausted(p, av[..nav], score);
      }
    }

    /** The game-theoretic value of the board: lost, drawn or won for the mover. */
    method Solve() returns (score: int)
      requires Valid() && TableOk()
      modifies this, color, height, moves, ht, history
      ensures Valid() && TableOk() && Made() == old(Made())
      ensures score == Value(old(Pos())) <==> (old(nplies) < SIZE || HasWon(Theirs(old(Pos()))))
      ensures !(old(nplies) < SIZE || HasWon(Theirs(old(Pos())))) ==> score == LOSS && Value(old(Pos())) == DRAW
    {
      hide Stacked, Free, HasWon, Legal, After, TableSound, Value, Quiet, IsLegal, With;
      ghost var p := Pos();
      nodes := 0;
      var side := nplies % 2;
      if HasWon(Theirs(p)) || nplies == SIZE {
        WonAlready(p);
      }
      if HasWon(color[1 - side]) {
        return LOSS;
      }
      var i := 0;
      while i < WIDTH
        invariant 0 <= i <= WIDTH && Valid() && TableOk() && Made() == old(Made()) && Pos() == p
        invariant forall c :: 0 <= c < i ==> !WinsAt(p, c)
      {
        LegalIsPlayable(p, i);
        if IsLegalHasWon(With(color[side], height[i])) {
          WonNow(p, i);
          return WIN;
        }
        i := i + 1;
      }
      if nplies < SIZE {
        NotOver(p);
      }
      score := Ab(LOSS, WIN);
    }
  }
}
