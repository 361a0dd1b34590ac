/**
 * What the bits written so far, the number of pending bits and the region mean together: an interval of
 * code values on the scale of everything read up to now. Every prefix of a message owns one, and the whole
 * code lies in all of them, whatever is put behind it.
 */
module DeferredBits {
  import opened Sequences
  import opened BitStream
  import opened FrequencyModel
  import opened CodeInterval
  import opened ArithmeticDecoder
  import opened ArithmeticRoundTrip

  /** Where the region's zero lies after a run of expansions, with no regard to what was written. */
  function Offset(ops: seq<Op>): (n: nat) {
    if ops == [] then 0 else 2 * (Offset(ops[..|ops| - 1]) + Shift(ops[|ops| - 1]))
  }

  lemma OffsetSnoc(ops: seq<Op>, op: Op)
    ensures Offset(ops + [op]) == 2 * (Offset(ops) + Shift(op))
  {
    assert (ops + [op])[..|ops|] == ops;
  }

  /**
   * Where the region's zero lies according to what was written: with B the number written and f bits pending,
   * at B * 2^(16 + f) + (2^f - 1) * HALF.
   */
  function Base(ops: seq<Op>): (n: int) {
    BaseOf(Val(Emitted(ops, 0)), Pending(ops, 0))
  }

  /** The value of the bits written once a settled bit takes `f` opposite bits with it. */
  lemma ValSettled(s: seq<Bit>, b: Bit, f: nat)
    ensures Val(s + ([b] + Repeat(1 - b, f)))
         == 2 * (Val(s) * Pow2(f)) + if b == 0 then Pow2(f) - 1 else Pow2(f)
  {
    var r := Repeat(1 - b, f);
    hide *;
    ValRepeat(1 - b, f);
    calc {
      Val(s + ([b] + r));
      { Associative(s, [b], r); }
      Val((s + [b]) + r);
      { ValAppend(s + [b], r); }
      Val(s + [b]) * Pow2(f) + Val(r);
      { ValPush(s, b); }
      (2 * Val(s) + b) * Pow2(f) + Val(r);
      { SettledArithmetic(Val(s), b, Pow2(f)); }
      2 * (Val(s) * Pow2(f)) + b * Pow2(f) + Val(r);
    }
    SettledCases(b, Pow2(f));
  }

  lemma SettledCases(b: Bit, p: int)
    ensures b * p + (1 - b) * (p - 1) == if b == 0 then p - 1 else p
  {
    if b == 0 {} else {}
  }

  lemma SettledArithmetic(v: int, b: Bit, p: int)
    ensures (2 * v + b) * p == 2 * (v * p) + b * p
  {}

  /** `Base` from the number written and the pending count. */
  function BaseOf(v: nat, f: nat): (n: int) {
    0x1_0000 * (v * Pow2(f)) + 0x8000 * (Pow2(f) - 1)
  }

  lemma BaseOfSettled(v: nat, f: nat, v': nat, b: Bit)
    requires v' == 2 * (v * Pow2(f)) + if b == 0 then Pow2(f) - 1 else Pow2(f)
    ensures BaseOf(v', 0) == 2 * (BaseOf(v, f) + b * HALF)
  {
    assert v' * Pow2(0) == v';
  }

  lemma BaseOfPending(v: nat, f: nat)
    ensures BaseOf(v, f + 1) == 2 * (BaseOf(v, f) + FIRST_QTR)
  {
    Scale(v, Pow2(f), 2);
  }

  lemma BaseStep(ops: seq<Op>, op: Op)
    ensures Base(ops + [op]) == 2 * (Base(ops) + Shift(op))
  {
    hide Emitted, Pending, Val, BaseOf, OpBits;
    EmittedAppend(ops, [op], 0);
    var f, s := Pending(ops, 0), Emitted(ops, 0);
    EmittedOne(s, op, f);
    if op == Mid {
      BaseOfPending(Val(s), f);
    } else {
      var b: Bit := if op == Zero then 0 else 1;
      OpBitsSettled(op, f);
      ValSettled(s, b, f);
      BaseOfSettled(Val(s), f, Val(s + OpBits(op, f)), b);
    }
  }

  lemma OpBitsSettled(op: Op, f: nat)
    requires op != Mid
    ensures var b: Bit := if op == Zero then 0 else 1; OpBits(op, f) == [b] + Repeat(1 - b, f)
  {}

  lemma Scale(v: int, p: int, k: int)
    ensures v * (k * p) == k * (v * p)
  {}

  lemma EmittedOne(s: seq<Bit>, op: Op, f: nat)
    ensures s + Emitted([op], f) == s + OpBits(op, f) && Pending([op], f) == OpPending(op, f)
    ensures op == Mid ==> s + OpBits(op, f) == s
  {
    EmittedStep(op, [], f);
  }

  /** The bits written and the pending bits account exactly for where the expansions put the region. */
  lemma {:induction false} DeferredBitInvariant(ops: seq<Op>)
    ensures Offset(ops) == Base(ops)
    decreases |ops|
  {
    if ops != [] {
      var init, op := ops[..|ops| - 1], ops[|ops| - 1];
      assert ops == init + [op];
      DeferredBitInvariant(init);
      OffsetSnoc(init, op);
      BaseStep(init, op);
    }
  }

  /** Reading on past a run of expansions: subtracting the offset leaves the register's own view. */
  lemma {:induction false} OffsetFollows(ops: seq<Op>, later: seq<Op>, pad: seq<Bit>)
    requires Closed(later) && |later| + |pad| >= CODE_VALUE_BITS
    ensures Closed(ops + later) && |View(ops + later, pad)| == |ops| + |later| + |pad|
    ensures |View(later, pad)| == |later| + |pad|
    ensures var s, n := View(ops + later, pad), CODE_VALUE_BITS + |ops|;
      && Val(s[..n]) - Offset(ops) == Front16(View(later, pad))
      && s[n..] == View(later, pad)[CODE_VALUE_BITS..]
    decreases |ops|
  {
    if ops == [] {
      assert ops + later == later;
      EmittedInsert(later, 0);
    } else {
      var init, op := ops[..|ops| - 1], ops[|ops| - 1];
      assert ops == init + [op] && ops + later == init + ([op] + later);
      OffsetFollows(init, [op] + later, pad);
      ViewStep(op, later, pad);
      var s, n := View(ops + later, pad), CODE_VALUE_BITS + |init|;
      NextBit(s, View([op] + later, pad), n);
    }
  }

  lemma NextBit(s: seq<Bit>, v: seq<Bit>, n: nat)
    requires n < |s| && |v| > CODE_VALUE_BITS && s[n..] == v[CODE_VALUE_BITS..]
    ensures Val(s[..n + 1]) == 2 * Val(s[..n]) + v[CODE_VALUE_BITS]
    ensures s[n + 1..] == v[CODE_VALUE_BITS + 1..]
  {
    assert s[..n + 1] == s[..n] + [s[n]];
    ValPush(s[..n], s[n]);
    assert s[n] == s[n..][0] == v[CODE_VALUE_BITS..][0];
    assert s[n + 1..] == s[n..][1..] && v[CODE_VALUE_BITS + 1..] == v[CODE_VALUE_BITS..][1..];
  }

  /** Where the encoder stands: the expansions made and the region reached. */
  datatype Progress = Progress(ops: seq<Op>, region: Window)

  /** The symbol that codes the next byte of a text, or its end. */
  function NextSymbol(m: Model, text: seq<Byte>): (s: nat)
    requires Valid(m)
    ensures 1 <= s <= NO_OF_SYMBOLS
  {
    if text == [] then EOF_SYMBOL else m.toIndex[text[0]]
  }

  /** The part of the region that belongs to a symbol, before it is rescaled. */
  function Share(m: Model, p: Progress, s: nat): (q: Progress)
    requires Valid(m) && Stable(p.region) && 1 <= s <= NO_OF_SYMBOLS
    ensures ValidWindow(q.region) && p.region.low <= q.region.low && q.region.high <= p.region.high
    ensures q.ops == p.ops
  {
    NarrowValid(p.region, m.freq, s);
    p.(region := Narrow(p.region, m.freq, s))
  }

  /** After `k` of the expansions of a region. */
  function Expanded(p: Progress, k: nat): (q: Progress)
    requires ValidWindow(p.region) && k <= |Ops(p.region)|
    decreases k
  {
    if k == 0 then p else
    ExpandValid(p.region);
    Expanded(Progress(p.ops + [OpOf(p.region)], Expand(p.region)), k - 1)
  }

  /** After all of them. */
  function Rescaled(p: Progress): (q: Progress)
    requires ValidWindow(p.region)
    ensures Stable(q.region)
  {
    Progress(p.ops + Ops(p.region), Settled(p.region))
  }

  /** Coding some bytes. */
  function Run(m: Model, p: Progress, msg: seq<Byte>): (q: Progress)
    requires Valid(m) && Stable(p.region)
    ensures Stable(q.region)
    decreases |msg|
  {
    if msg == [] then p else
    UpdateValid(m, m.toIndex[msg[0]]);
    Run(Updated(m, m.toIndex[msg[0]]), Rescaled(Share(m, p, m.toIndex[msg[0]])), msg[1..])
  }

  const BEGIN := Progress([], FULL)

  lemma {:induction false} ExpandedIs(p: Progress, k: nat)
    requires ValidWindow(p.region) && k <= |Ops(p.region)|
    ensures var q := Expanded(p, k);
      && q.ops == p.ops + Ops(p.region)[..k] && ValidWindow(q.region)
      && Ops(q.region) == Ops(p.region)[k..] && Settled(q.region) == Settled(p.region)
    decreases k
  {
    if k > 0 {
      ExpandValid(p.region);
      var ops := Ops(p.region);
      ExpandedIs(Progress(p.ops + [OpOf(p.region)], Expand(p.region)), k - 1);
      ConsTake(p.ops, ops, k);
    }
  }

  lemma ConsTake<T>(a: seq<T>, b: seq<T>, k: nat)
    requires 0 < k <= |b|
    ensures (a + [b[0]]) + b[1..][..k - 1] == a + b[..k] && b[1..][k - 1..] == b[k..]
  {}

  /** The expansions of a whole message start with those of each of its beginnings. */
  lemma {:induction false} TraceSplits(m: Model, p: Progress, a: seq<Byte>, b: seq<Byte>)
    requires Valid(m) && Stable(p.region)
    ensures var q := Run(m, p, a); p.ops + Trace(m, p.region, a + b) == q.ops + Trace(After(m, a), q.region, b)
    decreases |a|
  {
    if a == [] {
      assert a + b == b;
    } else {
      assert (a + b)[0] == a[0] && (a + b)[1..] == a[1..] + b;
      TraceUnfold(m, p.region, a + b);
      var s := m.toIndex[a[0]];
      var n := Share(m, p, s);
      TraceSplits(Updated(m, s), Rescaled(n), a[1..], b);
      Associative(p.ops, Ops(n.region), Trace(Updated(m, s), Settled(n.region), a[1..] + b));
    }
  }

  /** What is still to be expanded after a symbol's own expansions, and the register's view of it. */
  lemma AfterSymbol(m: Model, w: Window, msg: seq<Byte>, pad: seq<Bit>) returns (later: seq<Op>)
    requires Valid(m) && Stable(w) && |pad| >= CODE_VALUE_BITS - 2
    ensures var n := Share(m, Progress([], w), NextSymbol(m, msg)).region;
      && Trace(m, w, msg) == Ops(n) + later && Closed(later) && |later| >= 2
      && |View(later, pad)| == |later| + |pad| && Within(Front16(View(later, pad)), Settled(n))
  {
    TraceUnfold(m, w, msg);
    var s := NextSymbol(m, msg);
    var n := Narrow(w, m.freq, s);
    if msg == [] {
      later := FinishOps(Settled(n));
      FinishInside(Settled(n), pad);
    } else {
      later := Trace(Updated(m, s), Settled(n), msg[1..]);
      CodeInside(Updated(m, s), Settled(n), msg[1..], pad);
    }
  }

  /** The model after some bytes of a message. */
  function Learnt(a: seq<Byte>): (m: Model)
    ensures Valid(m)
  {
    StartValid();
    After(Start(), a)
  }

  /** Where the encoder stands after them. */
  function Reached(a: seq<Byte>): (p: Progress)
    ensures Stable(p.region)
  {
    StartValid();
    Run(Start(), BEGIN, a)
  }

  /** The share of the next byte of `b`, or of the end of the message, after the bytes `a`. */
  function NextShare(a: seq<Byte>, b: seq<Byte>): (p: Progress)
    ensures ValidWindow(p.region)
  {
    Share(Learnt(a), Reached(a), NextSymbol(Learnt(a), b))
  }

  /**
   * The code of a whole message, read as a number as long as the scale reached, lies in the interval in which the
   * encoder stands after some bytes `a` of it, the next symbol and `k` of the expansions that this symbol brings.
   */
  lemma CodeInNestedInterval(a: seq<Byte>, b: seq<Byte>, k: nat, pad: seq<Bit>)
    requires |pad| >= CODE_VALUE_BITS - 2 && k <= |Ops(NextShare(a, b).region)|
    ensures var q, s := Expanded(NextShare(a, b), k), CodeBits(a + b) + pad;
      && CODE_VALUE_BITS + |q.ops| <= |s|
      && Base(q.ops) + q.region.low <= Val(s[..CODE_VALUE_BITS + |q.ops|]) <= Base(q.ops) + q.region.high
  {
    hide Run, Share, After, Start, Ops, Settled, Expanded, Trace, Emitted, Val;
    var q := Expanded(NextShare(a, b), k);
    var rest := SymbolCode(a, b, k, pad);
    InsideBefore(q.region, rest, pad);
    OffsetFollows(q.ops, Ops(q.region) + rest, pad);
    DeferredBitInvariant(q.ops);
  }

  /** The expansions of a message from the middle of those of a symbol on. */
  lemma SymbolCode(a: seq<Byte>, b: seq<Byte>, k: nat, pad: seq<Bit>) returns (rest: seq<Op>)
    requires |pad| >= CODE_VALUE_BITS - 2 && k <= |Ops(NextShare(a, b).region)|
    ensures Closed(rest) && |rest| >= 2 && |View(rest, pad)| == |rest| + |pad|
    ensures var q := Expanded(NextShare(a, b), k);
      && ValidWindow(q.region) && Within(Front16(View(rest, pad)), Settled(q.region))
      && CodeBits(a + b) + pad == View(q.ops + (Ops(q.region) + rest), pad)
  {
    hide Run, Share, After, Start, Ops, Settled, Expanded, Trace, Emitted, Val;
    var p, n := Reached(a), NextShare(a, b);
    StartValid();
    rest := AfterSymbol(Learnt(a), p.region, b, pad);
    ShareMoved(Learnt(a), p, NextSymbol(Learnt(a), b));
    ExpandedIs(n, k);
    TraceSplits(Start(), BEGIN, a, b);
    SplitMiddle(p.ops, Ops(n.region), k, rest);
    assert [] + Trace(Start(), FULL, a + b) == Trace(Start(), FULL, a + b);
  }

  lemma ShareMoved(m: Model, p: Progress, s: nat)
    requires Valid(m) && Stable(p.region) && 1 <= s <= NO_OF_SYMBOLS
    ensures Share(m, p, s) == Progress(p.ops, Share(m, Progress([], p.region), s).region)
  {}

  lemma SplitMiddle<T>(a: seq<T>, b: seq<T>, k: nat, c: seq<T>)
    requires k <= |b|
    ensures a + (b + c) == (a + b[..k]) + (b[k..] + c)
  {}
}
