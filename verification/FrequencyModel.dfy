/** The adaptive source model: symbol frequencies kept sorted, with the symbol numbering that goes with them. */
module FrequencyModel {
  import opened BitStream

  const NO_OF_CHARS := 256
  const EOF_SYMBOL := 257
  const NO_OF_SYMBOLS := 257
  const MAX_FREQUENCY := 16383

  /** `freq` has one entry per symbol 0..257; `toIndex` maps a byte to its symbol, `toChar` back. */
  datatype Model = Model(freq: seq<nat>, toIndex: seq<nat>, toChar: seq<nat>)

  /** Sum of the frequencies of the symbols numbered above `i`. */
  function Above(f: seq<nat>, i: nat): (c: nat)
    requires i < |f|
    decreases |f| - i
  {
    if i == |f| - 1 then 0 else f[i + 1] + Above(f, i + 1)
  }

  /** The cumulative table: entry `i` is the sum of the frequencies above `i`. */
  function Cumulative(f: seq<nat>): (c: seq<nat>)
    ensures |c| == |f| && forall i :: 0 <= i < |f| ==> c[i] == Above(f, i)
  {
    seq(|f|, i requires 0 <= i < |f| => Above(f, i))
  }

  ghost predicate ValidFreq(f: seq<nat>) {
    && |f| == NO_OF_SYMBOLS + 1
    && f[0] == 0
    && (forall i :: 1 <= i <= NO_OF_SYMBOLS ==> f[i] >= 1)
    && (forall i, j :: 1 <= i <= j <= NO_OF_SYMBOLS ==> f[j] <= f[i])
    && Above(f, 0) <= MAX_FREQUENCY
  }

  /** The two tables are inverse bijections between the bytes and the symbols 1..256. */
  ghost predicate Bijection(toIndex: seq<nat>, toChar: seq<nat>) {
    && |toIndex| == NO_OF_CHARS
    && |toChar| == NO_OF_SYMBOLS + 1
    && (forall c :: 0 <= c < NO_OF_CHARS ==> 1 <= toIndex[c] <= NO_OF_CHARS && toChar[toIndex[c]] == c)
    && (forall i :: 1 <= i <= NO_OF_CHARS ==> toChar[i] < NO_OF_CHARS && toIndex[toChar[i]] == i)
  }

  ghost predicate Valid(m: Model) {
    ValidFreq(m.freq) && Bijection(m.toIndex, m.toChar)
  }

  function Start(): (m: Model) {
    Model([0] + seq(NO_OF_SYMBOLS, _ => 1),
          seq(NO_OF_CHARS, i requires 0 <= i => i + 1),
          seq(NO_OF_SYMBOLS + 1, i => if 1 <= i <= NO_OF_CHARS then i - 1 else 0))
  }

  function Halved(f: seq<nat>): (h: seq<nat>)
    ensures |h| == |f| && forall i :: 0 <= i < |f| ==> h[i] == (f[i] + 1) / 2
  {
    seq(|f|, i requires 0 <= i < |f| => (f[i] + 1) / 2)
  }

  /** All counts are halved once their total has reached the maximum. */
  function Scaled(f: seq<nat>): (h: seq<nat>)
    requires |f| > 0
    ensures |h| == |f|
  {
    if Above(f, 0) == MAX_FREQUENCY then Halved(f) else f
  }

  /** First index of the run of equal frequencies that ends at `s`. */
  function Front(f: seq<nat>, s: nat): (i: nat)
    requires 1 <= s < |f| && f[0] != f[1]
    ensures 1 <= i <= s && f[i] == f[s] && f[i] != f[i - 1]
    ensures forall j :: i <= j <= s ==> f[j] == f[s]
  {
    if f[s] == f[s - 1] then Front(f, s - 1) else s
  }

  /** The byte-to-symbol table after symbols `i` and `s` have changed places. */
  function SwappedIndex(toIndex: seq<nat>, toChar: seq<nat>, i: nat, s: nat): (r: seq<nat>)
    requires i < |toChar| && s < |toChar| && toChar[i] < |toIndex| && toChar[s] < |toIndex|
  {
    toIndex[toChar[i] := s][toChar[s] := i]
  }

  function SwappedChar(toChar: seq<nat>, i: nat, s: nat): (r: seq<nat>)
    requires i < |toChar| && s < |toChar|
  {
    toChar[i := toChar[s]][s := toChar[i]]
  }

  function Updated(m: Model, s: nat): (r: Model)
    requires Valid(m) && 1 <= s <= NO_OF_CHARS
  {
    var f := Scaled(m.freq);
    ScaledValid(m.freq);
    var i := Front(f, s);
    Model(f[i := f[i] + 1], SwappedIndex(m.toIndex, m.toChar, i, s), SwappedChar(m.toChar, i, s))
  }

  /** Occurrences of byte `c`, as the model counts them. */
  function Count(m: Model, c: nat): (n: nat)
    requires Valid(m) && c < NO_OF_CHARS
  {
    m.freq[m.toIndex[c]]
  }

  lemma {:induction false} AboveMonotone(f: seq<nat>, i: nat, j: nat)
    requires i <= j < |f|
    ensures Above(f, j) <= Above(f, i)
    decreases j - i
  {
    if i < j {
      AboveMonotone(f, i + 1, j);
    }
  }

  /** Adding one at index `k` raises exactly the cumulative counts below `k`. */
  lemma {:induction false} AboveIncrement(f: seq<nat>, k: nat, i: nat)
    requires k < |f| && i < |f|
    ensures Above(f[k := f[k] + 1], i) == Above(f, i) + if i < k then 1 else 0
    decreases |f| - i
  {
    if i < |f| - 1 {
      AboveIncrement(f, k, i + 1);
    }
  }

  lemma {:induction false} AboveHalved(f: seq<nat>, i: nat)
    requires i < |f|
    ensures 2 * Above(Halved(f), i) <= Above(f, i) + |f| - 1 - i
    decreases |f| - i
  {
    if i < |f| - 1 {
      AboveHalved(f, i + 1);
    }
  }

  lemma ScaledValid(f: seq<nat>)
    requires ValidFreq(f)
    ensures ValidFreq(Scaled(f)) && Above(Scaled(f), 0) < MAX_FREQUENCY
  {
    if Above(f, 0) == MAX_FREQUENCY {
      AboveHalved(f, 0);
    }
  }

  lemma {:induction false} AboveOnes(f: seq<nat>, i: nat)
    requires i < |f| && forall j :: 1 <= j < |f| ==> f[j] == 1
    ensures Above(f, i) == |f| - 1 - i
    decreases |f| - i
  {
    if i < |f| - 1 {
      AboveOnes(f, i + 1);
    }
  }

  lemma StartValid()
    ensures Valid(Start())
  {
    AboveOnes(Start().freq, 0);
  }

  /** Counting one more at the front of its run keeps the counts sorted. */
  lemma FrontIncrementValid(f: seq<nat>, s: nat)
    requires ValidFreq(f) && Above(f, 0) < MAX_FREQUENCY && 1 <= s <= NO_OF_CHARS
    ensures var i := Front(f, s); ValidFreq(f[i := f[i] + 1])
  {
    var i := Front(f, s);
    AboveIncrement(f, i, 0);
    var g := f[i := f[i] + 1];
    forall a, b | 1 <= a <= b <= NO_OF_SYMBOLS
      ensures g[b] <= g[a]
    {
      if b == i && a < i {
        assert f[i] <= f[i - 1] <= f[a];
      }
    }
  }

  /** Exchanging two symbols keeps the tables inverse to each other. */
  lemma SwapBijection(toIndex: seq<nat>, toChar: seq<nat>, i: nat, s: nat)
    requires Bijection(toIndex, toChar) && 1 <= i <= NO_OF_CHARS && 1 <= s <= NO_OF_CHARS
    ensures Bijection(SwappedIndex(toIndex, toChar, i, s), SwappedChar(toChar, i, s))
  {
    var x, y := SwappedIndex(toIndex, toChar, i, s), SwappedChar(toChar, i, s);
    forall c | 0 <= c < NO_OF_CHARS
      ensures 1 <= x[c] <= NO_OF_CHARS && y[x[c]] == c
    {
      assert toChar[toIndex[c]] == c;
    }
    forall j | 1 <= j <= NO_OF_CHARS
      ensures y[j] < NO_OF_CHARS && x[y[j]] == j
    {
      assert toIndex[toChar[j]] == j;
    }
  }

  /** Every update keeps the model invariant: sorted positive counts within the maximum, inverse tables. */
  lemma UpdateValid(m: Model, s: nat)
    requires Valid(m) && 1 <= s <= NO_OF_CHARS
    ensures Valid(Updated(m, s))
    ensures Updated(m, s).freq[EOF_SYMBOL] == Scaled(m.freq)[EOF_SYMBOL]
  {
    ScaledValid(m.freq);
    FrontIncrementValid(Scaled(m.freq), s);
    SwapBijection(m.toIndex, m.toChar, Front(Scaled(m.freq), s), s);
  }

  /** Where byte `c` is numbered after symbols `i` and `s` have changed places. */
  lemma SwapIndex(m: Model, i: nat, s: nat, c: nat)
    requires Valid(m) && 1 <= i <= NO_OF_CHARS && 1 <= s <= NO_OF_CHARS && c < NO_OF_CHARS
    ensures SwappedIndex(m.toIndex, m.toChar, i, s)[c]
         == if m.toIndex[c] == s then i else if m.toIndex[c] == i then s else m.toIndex[c]
  {
    assert m.toChar[m.toIndex[c]] == c;
    assert m.toIndex[m.toChar[i]] == i && m.toIndex[m.toChar[s]] == s;
  }

  /** Raising the front of a run counts the symbol that has been moved there. */
  lemma CountMoved(m: Model, s: nat, c: nat)
    requires Valid(m) && 1 <= s <= NO_OF_CHARS && c < NO_OF_CHARS && Valid(Updated(m, s))
    ensures Count(Updated(m, s), c) == Scaled(m.freq)[m.toIndex[c]] + if m.toIndex[c] == s then 1 else 0
  {
    ScaledValid(m.freq);
    var f := Scaled(m.freq);
    var i := Front(f, s);
    SwapIndex(m, i, s, c);
    hide Scaled, Front, SwappedIndex, SwappedChar;
    assert Updated(m, s).freq == f[i := f[i] + 1];
    assert f[i] == f[s];
  }

  /** Renumbering is invisible in the counts: coding byte `ch` adds one to its count and to no other. */
  lemma UpdateCounts(m: Model, ch: nat, c: nat)
    requires Valid(m) && ch < NO_OF_CHARS && c < NO_OF_CHARS
    ensures Valid(Updated(m, m.toIndex[ch]))
    ensures Count(Updated(m, m.toIndex[ch]), c)
         == (if Above(m.freq, 0) == MAX_FREQUENCY then (Count(m, c) + 1) / 2 else Count(m, c))
            + if c == ch then 1 else 0
  {
    hide Updated, Halved, Above;
    UpdateValid(m, m.toIndex[ch]);
    CountMoved(m, m.toIndex[ch], c);
    assert m.toChar[m.toIndex[c]] == c && m.toChar[m.toIndex[ch]] == ch;
  }

  /** The model after a message. */
  function After(m: Model, msg: seq<Byte>): (r: Model)
    requires Valid(m)
    ensures Valid(r)
    decreases |msg|
  {
    if msg == [] then m else
    UpdateValid(m, m.toIndex[msg[0]]);
    After(Updated(m, m.toIndex[msg[0]]), msg[1..])
  }

  // ----- What the model counts -----

  /** At the start the bytes are numbered in their order, each one above the number of bytes below it. */
  lemma StartOrder(a: nat, b: nat)
    requires a < b < NO_OF_CHARS
    ensures Valid(Start()) && Start().toIndex[a] < Start().toIndex[b] < EOF_SYMBOL
    ensures Start().toIndex[b] == b + 1
  {
    StartValid();
  }

  /** Where a byte is numbered after an update: the coded one at the front of its run, whose byte takes its place. */
  lemma UpdateNumbers(m: Model, ch: nat, c: nat)
    requires Valid(m) && ch < NO_OF_CHARS && c < NO_OF_CHARS
    ensures Valid(Updated(m, m.toIndex[ch]))
    ensures var f, s, front := Scaled(m.freq), m.toIndex[ch], Updated(m, m.toIndex[ch]).toIndex[ch];
      && 1 <= front <= s && f[front] == f[s] && (front > 1 ==> f[front - 1] > f[s])
      && Updated(m, s).toIndex[c] ==
           if c == ch then front else if m.toIndex[c] == front then s else m.toIndex[c]
  {
    var s := m.toIndex[ch];
    UpdateValid(m, s);
    ScaledValid(m.freq);
    var i := Front(Scaled(m.freq), s);
    SwapIndex(m, i, s, c);
    SwapIndex(m, i, s, ch);
    assert m.toChar[m.toIndex[c]] == c && m.toChar[s] == ch;
    hide Scaled, SwappedIndex, SwappedChar, Above;
    assert i > 1 ==> Scaled(m.freq)[i - 1] >= Scaled(m.freq)[s];
  }

  /** Without halving, an update makes the total one more. */
  lemma UpdateTotal(m: Model, s: nat)
    requires Valid(m) && 1 <= s <= NO_OF_CHARS && Above(m.freq, 0) < MAX_FREQUENCY
    ensures Valid(Updated(m, s)) && Above(Updated(m, s).freq, 0) == Above(m.freq, 0) + 1
  {
    UpdateValid(m, s);
    AboveIncrement(m.freq, Front(m.freq, s), 0);
  }

  lemma CountOne(msg: seq<Byte>, c: nat)
    requires msg != []
    ensures multiset(msg)[c] == multiset(msg[1..])[c] + if msg[0] == c then 1 else 0
  {
    assert msg == [msg[0]] + msg[1..];
  }

  /** Until the total would pass the maximum every count is what it was plus the occurrences of its byte. */
  lemma {:induction false} CountsBelowMaximum(m: Model, msg: seq<Byte>, c: nat)
    requires Valid(m) && c < NO_OF_CHARS && Above(m.freq, 0) + |msg| <= MAX_FREQUENCY
    ensures Count(After(m, msg), c) == Count(m, c) + multiset(msg)[c]
    ensures Above(After(m, msg).freq, 0) == Above(m.freq, 0) + |msg|
    decreases |msg|
  {
    if msg != [] {
      var s := m.toIndex[msg[0]];
      UpdateTotal(m, s);
      UpdateCounts(m, msg[0], c);
      CountOne(msg, c);
      hide Updated, Above;
      CountsBelowMaximum(Updated(m, s), msg[1..], c);
    }
  }

  /** The end-of-file symbol is counted once, always. */
  lemma {:induction false} EofCount(m: Model, msg: seq<Byte>)
    requires Valid(m) && m.freq[EOF_SYMBOL] == 1
    ensures After(m, msg).freq[EOF_SYMBOL] == 1
    decreases |msg|
  {
    if msg != [] {
      UpdateValid(m, m.toIndex[msg[0]]);
      EofCount(Updated(m, m.toIndex[msg[0]]), msg[1..]);
    }
  }

  lemma StartTotal(c: nat)
    requires c < NO_OF_CHARS
    ensures Valid(Start()) && Above(Start().freq, 0) == 257 && Count(Start(), c) == 1 && Start().freq[EOF_SYMBOL] == 1
  {
    StartValid();
    AboveOnes(Start().freq, 0);
  }

  /** For the first 16126 bytes every byte has been counted once more than it has occurred. */
  lemma CountsOccurrences(msg: seq<Byte>, c: nat)
    requires |msg| <= 16126 && c < NO_OF_CHARS
    ensures Valid(Start()) && Count(After(Start(), msg), c) == 1 + multiset(msg)[c]
    ensures Above(After(Start(), msg).freq, 0) == 257 + |msg| && After(Start(), msg).freq[EOF_SYMBOL] == 1
  {
    StartTotal(c);
    CountsBelowMaximum(Start(), msg, c);
    EofCount(Start(), msg);
  }

  lemma {:induction false} AfterLast(m: Model, msg: seq<Byte>, b: Byte)
    requires Valid(m)
    ensures After(m, msg + [b]) == Updated(After(m, msg), After(m, msg).toIndex[b])
    decreases |msg|
  {
    if msg == [] {
      assert msg + [b] == [b] && [b][1..] == [];
      UpdateValid(m, m.toIndex[b]);
    } else {
      assert (msg + [b])[1..] == msg[1..] + [b];
      UpdateValid(m, m.toIndex[msg[0]]);
      AfterLast(Updated(m, m.toIndex[msg[0]]), msg[1..], b);
    }
  }

  /** The byte after those halves every count, rounding up, before it is counted itself. */
  lemma FirstHalving(msg: seq<Byte>, b: Byte, c: nat)
    requires |msg| == 16126 && c < NO_OF_CHARS
    ensures Valid(Start())
    ensures Count(After(Start(), msg + [b]), c) == (2 + multiset(msg)[c]) / 2 + if c == b then 1 else 0
  {
    CountsOccurrences(msg, c);
    AfterLast(Start(), msg, b);
    UpdateCounts(After(Start(), msg), b, c);
  }

  /** The tables of the coder program, updated in place. */
  class AdaptiveModel {
    const freq: array<nat>
    const cumFreq: array<nat>
    const charToIndex: array<nat>
    const indexToChar: array<nat>
    ghost var state: Model  // what the four tables hold

    ghost predicate Ok()
      reads this, freq, cumFreq, charToIndex, indexToChar
    {
      && freq != cumFreq && freq != charToIndex && freq != indexToChar
      && cumFreq != charToIndex && cumFreq != indexToChar && charToIndex != indexToChar
      && Valid(state) && state == Model(freq[..], charToIndex[..], indexToChar[..])
      && cumFreq[..] == Cumulative(state.freq)
    }

    constructor ()
      ensures Ok() && state == Start()
      ensures fresh(freq) && fresh(cumFreq) && fresh(charToIndex) && fresh(indexToChar)
    {
      freq := new nat[NO_OF_SYMBOLS + 1](_ => 0);
      cumFreq := new nat[NO_OF_SYMBOLS + 1](_ => 0);
      charToIndex := new nat[NO_OF_CHARS](_ => 0);
      indexToChar := new nat[NO_OF_SYMBOLS + 1](_ => 0);
      new;
      StartNumbering();
      StartCounting();
      StartValid();
      state := Start();
    }

    /** The initial numbering: every byte has the symbol one above it. */
    method StartNumbering()
      requires charToIndex != indexToChar
      requires charToIndex.Length == NO_OF_CHARS && indexToChar.Length == NO_OF_SYMBOLS + 1
      requires forall j :: 0 <= j <= NO_OF_SYMBOLS ==> indexToChar[j] == 0
      modifies charToIndex, indexToChar
      ensures charToIndex[..] == Start().toIndex && indexToChar[..] == Start().toChar
      ensures forall a, b :: 0 <= a < b < NO_OF_CHARS ==> charToIndex[a] < charToIndex[b]
    {
      for i := 0 to NO_OF_CHARS
        invariant forall j :: 0 <= j < i ==> charToIndex[j] == j + 1
        invariant forall j :: 1 <= j <= i ==> indexToChar[j] == j - 1
        invariant forall j :: i < j <= NO_OF_SYMBOLS ==> indexToChar[j] == 0
        invariant indexToChar[0] == 0
      {
        charToIndex[i] := i + 1;
        indexToChar[i + 1] := i;
      }
    }

    /** The initial counts: one for every symbol. */
    method StartCounting()
      requires freq != cumFreq && freq.Length == cumFreq.Length == NO_OF_SYMBOLS + 1
      modifies freq, cumFreq
      ensures freq[..] == Start().freq && cumFreq[..] == Cumulative(freq[..])
    {
      for i := 0 to NO_OF_SYMBOLS + 1
        invariant forall j :: 0 <= j < i ==> freq[j] == 1 && cumFreq[j] == NO_OF_SYMBOLS - j
      {
        freq[i] := 1;
        cumFreq[i] := NO_OF_SYMBOLS - i;
      }
      freq[0] := 0;
      forall i | 0 <= i <= NO_OF_SYMBOLS
        ensures cumFreq[..][i] == Above(freq[..], i)
      {
        AboveOnes(freq[..], i);
      }
    }

    /** Halves every count and recomputes the cumulative table from the top down. */
    method Halve()
      requires freq != cumFreq && freq.Length == cumFreq.Length == NO_OF_SYMBOLS + 1
      modifies freq, cumFreq
      ensures freq[..] == Halved(old(freq[..]))
      ensures cumFreq[..] == Cumulative(freq[..])
    {
      ghost var h := Halved(freq[..]);
      var cum := 0;
      for i := NO_OF_SYMBOLS + 1 downto 0
        invariant forall j :: i <= j <= NO_OF_SYMBOLS ==> freq[j] == h[j] && cumFreq[j] == Above(h, j)
        invariant forall j :: 0 <= j < i ==> freq[j] == old(freq[j])
        invariant cum == if i <= NO_OF_SYMBOLS then h[i] + Above(h, i) else 0
      {
        freq[i] := (freq[i] + 1) / 2;
        cumFreq[i] := cum;
        cum := cum + freq[i];
      }
      assert freq[..] == h;
    }

    /** Finds the front of the symbol's run of equal counts and exchanges the two symbols. */
    method MoveToFront(symbol: nat) returns (i: nat)
      requires ValidFreq(freq[..]) && Bijection(charToIndex[..], indexToChar[..])
      requires charToIndex != indexToChar && freq != charToIndex && freq != indexToChar
      requires 1 <= symbol <= NO_OF_CHARS
      modifies charToIndex, indexToChar
      ensures i == Front(freq[..], symbol)
      ensures charToIndex[..] == SwappedIndex(old(charToIndex[..]), old(indexToChar[..]), i, symbol)
      ensures indexToChar[..] == SwappedChar(old(indexToChar[..]), i, symbol)
    {
      i := symbol;
      while freq[i] == freq[i - 1]
        invariant 1 <= i <= symbol
        invariant Front(freq[..], i) == Front(freq[..], symbol)
        decreases i
      {
        i := i - 1;
      }
      if i < symbol {
        var chI, chSymbol := indexToChar[i], indexToChar[symbol];
        indexToChar[i] := chSymbol;
        indexToChar[symbol] := chI;
        charToIndex[chI] := symbol;
        charToIndex[chSymbol] := i;
      }
    }

    /** Adds one to the count at `k` and to every cumulative count below it. */
    method Increment(k: nat)
      requires 0 < k < freq.Length && freq != cumFreq && cumFreq[..] == Cumulative(freq[..])
      modifies freq, cumFreq
      ensures freq[..] == old(freq[..][k := freq[k] + 1])
      ensures cumFreq[..] == Cumulative(freq[..])
    {
      ghost var f := freq[..];
      assert forall j :: 0 <= j < freq.Length ==> cumFreq[..][j] == Above(f, j);
      freq[k] := freq[k] + 1;
      var i := k;
      while i > 0
        invariant 0 <= i <= k
        invariant freq[..] == f[k := f[k] + 1]
        invariant forall j :: 0 <= j < freq.Length ==> cumFreq[j] == Above(f, j) + if i <= j < k then 1 else 0
      {
        i := i - 1;
        cumFreq[i] := cumFreq[i] + 1;
      }
      forall j | 0 <= j < freq.Length
        ensures cumFreq[..][j] == Above(freq[..], j)
      {
        AboveIncrement(f, k, j);
      }
    }

    method Update(symbol: nat)
      requires Ok() && 1 <= symbol <= NO_OF_CHARS
      modifies this`state, freq, cumFreq, charToIndex, indexToChar
      ensures Ok() && state == Updated(old(state), symbol)
    {
      hide Above, Halved;
      ghost var f := Scaled(state.freq);
      ScaledValid(state.freq);
      UpdateValid(state, symbol);
      if cumFreq[0] == MAX_FREQUENCY {
        Halve();
      }
      assert freq[..] == f;
      var i := MoveToFront(symbol);
      Increment(i);
      state := Updated(state, symbol);
      assert state == Model(freq[..], charToIndex[..], indexToChar[..]);
    }
  }
}
