/**
 * The intervals of code values that messages own. What was written and the region mean an interval on a scale that
 * every expansion doubles; rescaling does not move it, coding on only ever cuts parts out of it, and different
 * messages end in disjoint ones.
 */
module NestedIntervals {
  import opened BitStream
  import opened FrequencyModel
  import opened CodeInterval
  import opened ArithmeticEncoder
  import opened ArithmeticDecoder
  import opened ArithmeticRoundTrip
  import opened DeferredBits

  /** The lower end of the encoder's interval, by what was written, and the end it stays below. */
  function Low(p: Progress): (n: int) { Base(p.ops) + p.region.low }

  function End(p: Progress): (n: int) { Base(p.ops) + p.region.high + 1 }

  /** The interval of `p` lies in that of `q`, both on the finer scale of `p`. */
  predicate Inside(p: Progress, q: Progress) {
    && |q.ops| <= |p.ops|
    && var k := Pow2(|p.ops| - |q.ops|);
    && k * Low(q) <= Low(p) <= End(p) <= k * End(q)
  }

  /** The interval of `p` lies before that of `q`, both on a scale fine enough for the two. */
  predicate Before(p: Progress, q: Progress) {
    End(p) * Pow2(|q.ops|) <= Low(q) * Pow2(|p.ops|)
  }

  // ----- Rescaling -----

  /** An expansion doubles the scale and leaves the interval where it is. */
  lemma ExpandKeepsPlace(p: Progress)
    requires ValidWindow(p.region)
    ensures var q := Progress(p.ops + [OpOf(p.region)], Expand(p.region));
      Low(q) == 2 * Low(p) && End(q) == 2 * End(p)
  {
    BaseStep(p.ops, OpOf(p.region));
  }

  lemma Doubled(k: nat, x: int)
    requires k > 0
    ensures Pow2(k) * x == Pow2(k - 1) * (2 * x)
  {}

  /** So do any number of them. */
  lemma {:induction false} ExpandedKeepsPlace(p: Progress, k: nat)
    requires ValidWindow(p.region) && k <= |Ops(p.region)|
    ensures var q := Expanded(p, k); |q.ops| == |p.ops| + k && Low(q) == Pow2(k) * Low(p) && End(q) == Pow2(k) * End(p)
    decreases k
  {
    hide Low, End;
    if k > 0 {
      ExpandValid(p.region);
      ExpandKeepsPlace(p);
      ExpandedKeepsPlace(Progress(p.ops + [OpOf(p.region)], Expand(p.region)), k - 1);
      Doubled(k, Low(p));
      Doubled(k, End(p));
    }
  }

  lemma {:induction false} ExpandedAll(p: Progress)
    requires ValidWindow(p.region)
    ensures Expanded(p, |Ops(p.region)|) == Rescaled(p)
  {
    var k := |Ops(p.region)|;
    ExpandedIs(p, k);
    StableSettled(Expanded(p, k).region);
    assert Ops(p.region)[..k] == Ops(p.region);
  }

  lemma StableSettled(w: Window)
    requires ValidWindow(w) && Ops(w) == []
    ensures Settled(w) == w
  {}

  lemma RescaledInside(p: Progress)
    requires ValidWindow(p.region)
    ensures Inside(Rescaled(p), p)
  {
    hide Low, End;
    ExpandedKeepsPlace(p, |Ops(p.region)|);
    ExpandedAll(p);
    IntervalFilled(p);
    MulMonotone(Low(p), End(p), Pow2(|Ops(p.region)|));
  }

  lemma IntervalFilled(p: Progress)
    requires ValidWindow(p.region)
    ensures Low(p) < End(p)
  {}

  // ----- Shares -----

  /** The shares of the symbols tile the region: each ends where the one before it begins. */
  lemma SharesTile(w: Window, f: seq<nat>, s: nat)
    requires Stable(w) && ValidFreq(f) && 1 <= s <= NO_OF_SYMBOLS
    ensures Above(f, 0) > 0
    ensures Narrow(w, f, 1).high == w.high && Narrow(w, f, NO_OF_SYMBOLS).low == w.low
    ensures s > 1 ==> Narrow(w, f, s).high + 1 == Narrow(w, f, s - 1).low
  {
    TotalPositive(f);
    WholeOfRange(Range(w), Above(f, 0));
  }

  lemma WholeOfRange(r: int, t: int)
    requires t > 0
    ensures r * t / t == r && r * 0 / t == 0
  {
    DivLowerBound(r * t, t, r);
    DivLowerBound(r * t, t, r + 1);
  }

  /** The share of a symbol with a greater number lies wholly below. */
  lemma {:induction false} SharesApart(w: Window, f: seq<nat>, r: nat, s: nat)
    requires Stable(w) && ValidFreq(f) && 1 <= r < s <= NO_OF_SYMBOLS
    ensures Above(f, 0) > 0 && Narrow(w, f, s).high < Narrow(w, f, r).low
    decreases s
  {
    SharesTile(w, f, s);
    if r < s - 1 {
      SharesApart(w, f, r, s - 1);
      NarrowValid(w, f, s - 1);
    }
  }

  // ----- Nesting -----

  lemma ShareInside(m: Model, p: Progress, s: nat)
    requires Valid(m) && Stable(p.region) && 1 <= s <= NO_OF_SYMBOLS
    ensures Inside(Share(m, p, s), p)
  {}

  lemma {:induction false} Pow2Sum(i: nat, j: nat)
    ensures Pow2(i + j) == Pow2(i) * Pow2(j)
  {
    if i > 0 {
      Pow2Sum(i - 1, j);
      assert Pow2(i + j) == 2 * Pow2(i - 1 + j);
      Regroup(2, Pow2(i - 1), Pow2(j));
    }
  }

  lemma Regroup(a: int, b: int, c: int)
    ensures a * (b * c) == (a * b) * c
  {}

  lemma InsideArithmetic(i: int, j: int, x: int, y: int, z: int)
    requires i > 0 && j * x <= y && i * y <= z
    ensures (i * j) * x <= z
  {
    MulMonotone(j * x, y, i);
    Regroup(i, j, x);
  }

  lemma InsideArithmeticUp(i: int, j: int, x: int, y: int, z: int)
    requires i > 0 && y <= j * x && z <= i * y
    ensures z <= (i * j) * x
  {
    MulMonotone(y, j * x, i);
    Regroup(i, j, x);
  }

  lemma InsideTransitive(p: Progress, q: Progress, r: Progress)
    requires Inside(p, q) && Inside(q, r)
    ensures Inside(p, r)
  {
    hide Low, End, Pow2;
    var i, j := |p.ops| - |q.ops|, |q.ops| - |r.ops|;
    Pow2Sum(i, j);
    InsideArithmetic(Pow2(i), Pow2(j), Low(r), Low(q), Low(p));
    InsideArithmeticUp(Pow2(i), Pow2(j), End(r), End(q), End(p));
  }

  /** Whatever is coded next, the encoder stays in its interval. */
  lemma {:induction false} RunInside(m: Model, p: Progress, msg: seq<Byte>)
    requires Valid(m) && Stable(p.region)
    ensures Inside(Run(m, p, msg), p)
    decreases |msg|
  {
    if msg == [] {
      IntervalFilled(p);
      assert Pow2(0) == 1;
    } else {
      var s := m.toIndex[msg[0]];
      var n := Share(m, p, s);
      UpdateValid(m, s);
      ShareInside(m, p, s);
      RescaledInside(n);
      InsideTransitive(Rescaled(n), n, p);
      RunInside(Updated(m, s), Rescaled(n), msg[1..]);
      InsideTransitive(Run(m, p, msg), Rescaled(n), p);
    }
  }

  lemma {:induction false} RunSplits(m: Model, p: Progress, a: seq<Byte>, b: seq<Byte>)
    requires Valid(m) && Stable(p.region)
    ensures Run(m, p, a + b) == Run(After(m, a), Run(m, p, a), b) && After(m, a + b) == After(After(m, a), b)
    decreases |a|
  {
    if a == [] {
      assert a + b == b;
    } else {
      assert (a + b)[0] == a[0] && (a + b)[1..] == a[1..] + b;
      UpdateValid(m, m.toIndex[a[0]]);
      RunSplits(Updated(m, m.toIndex[a[0]]), Rescaled(Share(m, p, m.toIndex[a[0]])), a[1..], b);
    }
  }

  /** A longer text lies inside each of its beginnings, in the share that its next byte has there. */
  lemma Nested(a: seq<Byte>, b: seq<Byte>)
    ensures Inside(Reached(a + b), Reached(a))
    ensures b != [] ==> Inside(Reached(a + b), NextShare(a, b))
  {
    StartValid();
    RunSplits(Start(), BEGIN, a, b);
    RunInside(Learnt(a), Reached(a), b);
    if b != [] {
      RunInShare(Learnt(a), Reached(a), b);
    }
  }

  lemma RunInShare(m: Model, p: Progress, msg: seq<Byte>)
    requires Valid(m) && Stable(p.region) && msg != []
    ensures Inside(Run(m, p, msg), Share(m, p, NextSymbol(m, msg)))
  {
    var s := m.toIndex[msg[0]];
    var n := Share(m, p, s);
    UpdateValid(m, s);
    RescaledInside(n);
    RunInside(Updated(m, s), Rescaled(n), msg[1..]);
    InsideTransitive(Run(m, p, msg), Rescaled(n), n);
  }

  // ----- Whole messages -----

  /** The interval of a whole message: the share of the end-of-file symbol behind its last byte. */
  function Whole(m: Model, p: Progress, msg: seq<Byte>): (q: Progress)
    requires Valid(m) && Stable(p.region)
  {
    Share(After(m, msg), Run(m, p, msg), EOF_SYMBOL)
  }

  lemma WholeInShare(m: Model, p: Progress, msg: seq<Byte>)
    requires Valid(m) && Stable(p.region)
    ensures Inside(Whole(m, p, msg), Share(m, p, NextSymbol(m, msg)))
  {
    var n := Share(m, p, NextSymbol(m, msg));
    if msg == [] {
      IntervalFilled(n);
      assert Pow2(0) == 1;
    } else {
      RunInShare(m, p, msg);
      ShareInside(After(m, msg), Run(m, p, msg), EOF_SYMBOL);
      InsideTransitive(Whole(m, p, msg), Run(m, p, msg), n);
    }
  }

  /** What lies inside two intervals one before the other does so too. */
  lemma BeforeInside(p: Progress, q: Progress, p': Progress, q': Progress)
    requires Before(p, q) && Inside(p', p) && Inside(q', q)
    ensures Before(p', q')
  {
    hide Low, End, Pow2;
    var i, j := |p'.ops| - |p.ops|, |q'.ops| - |q.ops|;
    Pow2Sum(i, |p.ops|);
    Pow2Sum(j, |q.ops|);
    BeforeArithmetic(End(p), Low(q), End(p'), Low(q'), Pow2(i), Pow2(j), Pow2(|p.ops|), Pow2(|q.ops|));
  }

  lemma BeforeArithmetic(e: int, l: int, e': int, l': int, i: int, j: int, a: int, b: int)
    requires i > 0 && j > 0 && a > 0 && b > 0
    requires e * b <= l * a && e' <= i * e && j * l <= l'
    ensures e' * (j * b) <= l' * (i * a)
  {
    MulMonotone(e', i * e, j * b);
    MulMonotone(e * b, l * a, i * j);
    MulMonotone(j * l, l', i * a);
    FourFactors(i, e, j, b);
    FourFactors(j, l, i, a);
    assert j * i == i * j;
  }

  lemma FourFactors(i: int, e: int, j: int, b: int)
    ensures (i * e) * (j * b) == (e * b) * (i * j)
  {
    calc {
      (i * e) * (j * b);
      i * (e * (j * b));
      { assert e * (j * b) == (e * b) * j; }
      i * ((e * b) * j);
      (e * b) * (i * j);
    }
  }

  /** Shares of different symbols lie one before the other, and so does all that is coded from them. */
  lemma SharesBefore(m: Model, p: Progress, r: nat, s: nat)
    requires Valid(m) && Stable(p.region) && 1 <= r < s <= NO_OF_SYMBOLS
    ensures Before(Share(m, p, s), Share(m, p, r))
  {
    SharesApart(p.region, m.freq, r, s);
    MulMonotone(End(Share(m, p, s)), Low(Share(m, p, r)), Pow2(|p.ops|));
  }

  /** Of two messages the one whose next symbol has the greater number lies before the other. */
  lemma SymbolOrder(m: Model, p: Progress, u: seq<Byte>, v: seq<Byte>)
    requires Valid(m) && Stable(p.region) && NextSymbol(m, u) < NextSymbol(m, v)
    ensures Before(Whole(m, p, v), Whole(m, p, u))
  {
    hide Before, Inside, Share, Whole, NextSymbol, Valid, Stable;
    var r, s := NextSymbol(m, u), NextSymbol(m, v);
    SharesBefore(m, p, r, s);
    WholeInShare(m, p, u);
    WholeInShare(m, p, v);
    BeforeInside(Share(m, p, s), Share(m, p, r), Whole(m, p, v), Whole(m, p, u));
  }

  lemma {:induction false} DifferentFrom(m: Model, p: Progress, u: seq<Byte>, v: seq<Byte>)
    requires Valid(m) && Stable(p.region) && u != v
    ensures Before(Whole(m, p, u), Whole(m, p, v)) || Before(Whole(m, p, v), Whole(m, p, u))
    decreases |u|
  {
    hide Before, Inside;
    var r, s := NextSymbol(m, u), NextSymbol(m, v);
    if r == s {
      SameFirst(m, u, v);
      UpdateValid(m, r);
      DifferentFrom(Updated(m, r), Rescaled(Share(m, p, r)), u[1..], v[1..]);
    } else if r < s {
      SymbolOrder(m, p, u, v);
    } else {
      SymbolOrder(m, p, v, u);
    }
  }

  lemma SameFirst(m: Model, u: seq<Byte>, v: seq<Byte>)
    requires Valid(m) && u != v && NextSymbol(m, u) == NextSymbol(m, v)
    ensures u != [] && v != [] && u[0] == v[0] && u[1..] != v[1..] && NextSymbol(m, u) <= NO_OF_CHARS
  {
    if u != [] && v != [] {
      assert m.toChar[m.toIndex[u[0]]] == u[0] && m.toChar[m.toIndex[v[0]]] == v[0];
      assert u == [u[0]] + u[1..] && v == [v[0]] + v[1..];
    }
  }

  /** The interval a message owns. */
  function Owned(msg: seq<Byte>): (p: Progress) {
    StartValid();
    Whole(Start(), BEGIN, msg)
  }

  /** Different messages own disjoint intervals: one lies wholly before the other. */
  lemma MessagesDisjoint(u: seq<Byte>, v: seq<Byte>)
    requires u != v
    ensures Before(Owned(u), Owned(v)) || Before(Owned(v), Owned(u))
  {
    StartValid();
    DifferentFrom(Start(), BEGIN, u, v);
  }

  /** The code of a message, whatever is put behind it, is a number in the interval the message owns. */
  lemma CodeOwned(msg: seq<Byte>, pad: seq<Bit>)
    requires |pad| >= CODE_VALUE_BITS - 2
    ensures var p, s := Owned(msg), CodeBits(msg) + pad;
      CODE_VALUE_BITS + |p.ops| <= |s| && Low(p) <= Val(s[..CODE_VALUE_BITS + |p.ops|]) < End(p)
  {
    hide Share, Run, After, Start, Val, Base, CodeBits;
    CodeInNestedInterval(msg, [], 0, pad);
    assert msg + [] == msg;
  }

  // ----- The order of the intervals -----

  lemma FirstSymbol(ch: Byte, rest: seq<Byte>)
    ensures Valid(Start()) && NextSymbol(Start(), [ch] + rest) == Start().toIndex[ch]
  {
    StartValid();
  }

  lemma OwnedIs(msg: seq<Byte>)
    ensures Valid(Start()) && Owned(msg) == Whole(Start(), BEGIN, msg)
  {
    StartValid();
  }

  /** The intervals of messages lie in the descending order of their first bytes. */
  lemma FirstByteOrder(a: Byte, b: Byte, u: seq<Byte>, v: seq<Byte>)
    requires a < b
    ensures Before(Owned([b] + v), Owned([a] + u))
  {
    hide Before, Start, Whole, Owned, Valid, NextSymbol;
    StartOrder(a, b);
    FirstSymbol(a, u);
    FirstSymbol(b, v);
    SymbolOrder(Start(), BEGIN, [a] + u, [b] + v);
    OwnedIs([a] + u);
    OwnedIs([b] + v);
  }

  /** The end of a message comes before everything that goes on from there. */
  lemma EndFirst(a: seq<Byte>, b: seq<Byte>)
    requires b != []
    ensures Before(Owned(a), Owned(a + b))
  {
    WholeSplits(a, b);
    hide Before, Whole, Owned;
    SymbolOrder(Learnt(a), Reached(a), b, []);
  }

  lemma WholeSplits(a: seq<Byte>, b: seq<Byte>)
    ensures Owned(a + b) == Whole(Learnt(a), Reached(a), b) && Owned(a) == Whole(Learnt(a), Reached(a), [])
  {
    StartValid();
    RunSplits(Start(), BEGIN, a, b);
  }

  /** Each share is the symbol's part of the window, rounded down at both ends. */
  lemma ShareProportional(w: Window, f: seq<nat>, s: nat)
    requires Stable(w) && ValidFreq(f) && 1 <= s <= NO_OF_SYMBOLS
    ensures Above(f, 0) > 0
    ensures var n, total := Narrow(w, f, s), Above(f, 0);
      && 0 <= Range(w) * Above(f, s) - (n.low - w.low) * total < total
      && 0 <= Range(w) * Above(f, s - 1) - (n.high + 1 - w.low) * total < total
      && Above(f, s - 1) == Above(f, s) + f[s]
  {
    TotalPositive(f);
    QuotientRest(Range(w) * Above(f, s), Above(f, 0));
    QuotientRest(Range(w) * Above(f, s - 1), Above(f, 0));
  }

  lemma QuotientRest(x: int, t: int)
    requires t > 0
    ensures 0 <= x - x / t * t < t
  {}

  /** The two closing bits name the second quarter exactly when the window starts below it, else the third. */
  lemma ClosingQuarter(w: Window, pad: seq<Bit>)
    requires Stable(w) && |pad| >= CODE_VALUE_BITS - 2
    ensures |View(FinishOps(w), pad)| == 2 + |pad|
    ensures var v := Front16(View(FinishOps(w), pad));
      if w.low < 0x4000 then 0x4000 <= v < 0x8000 else 0x8000 <= v < 0xC000
  {
    hide Val, Emitted;
    FinishBits(w, 0);
    var b: Bit := if w.low < FIRST_QTR then 0 else 1;
    ClosingFront(b, pad);
    ValLeading(b, 1 - b, pad[..14]);
    ValBound(pad[..14]);
    PowValues();
  }

  lemma ClosingFront(b: Bit, pad: seq<Bit>)
    requires |pad| >= CODE_VALUE_BITS - 2
    ensures (([b] + Repeat(1 - b, 1)) + pad)[..CODE_VALUE_BITS] == [b, 1 - b] + pad[..14]
  {}

  lemma {:induction false} StartAbove(i: nat)
    requires i <= NO_OF_SYMBOLS
    ensures Above(Start().freq, i) == 257 - i
  {
    AboveOnes(Start().freq, i);
  }

  /** The window after the first byte of a message: one of 257 equal parts, counted from above. */
  lemma FirstWindow(ch: Byte)
    ensures Valid(Start())
    ensures Share(Start(), BEGIN, Start().toIndex[ch]).region
      == Window(0x1_0000 * (256 - ch) / 257, 0x1_0000 * (257 - ch) / 257 - 1)
  {
    StartValid();
    StartAbove(0);
    StartAbove(ch);
    StartAbove(ch + 1);
    hide Above;
  }
}
