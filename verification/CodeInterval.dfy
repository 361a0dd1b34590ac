/** The 16-bit integer code interval: narrowing to a symbol, expansion, and the bits an expansion settles. */
module CodeInterval {
  import opened BitStream
  import opened FrequencyModel

  const CODE_VALUE_BITS := 16
  const TOP_VALUE := 65535
  const FIRST_QTR := TOP_VALUE / 4 + 1
  const HALF := 2 * FIRST_QTR
  const THIRD_QTR := 3 * FIRST_QTR

  /** The current code region, both ends included. */
  datatype Window = Window(low: int, high: int)

  /** One expansion: into the low half, the high half, or the middle half (whose bit is still open). */
  datatype Op = Zero | One | Mid

  predicate ValidWindow(w: Window) {
    0 <= w.low <= w.high <= TOP_VALUE
  }

  /** No expansion applies: the region straddles the midpoint and leaves the middle half. */
  predicate Stable(w: Window) {
    && ValidWindow(w)
    && w.low < HALF <= w.high
    && (w.low < FIRST_QTR || THIRD_QTR <= w.high)
  }

  function OpOf(w: Window): (op: Op) {
    if w.high < HALF then Zero else if w.low >= HALF then One else Mid
  }

  /** What an expansion subtracts before doubling. */
  function Shift(op: Op): (d: nat) {
    match op
    case Zero => 0
    case One => HALF
    case Mid => FIRST_QTR
  }

  function Expand(w: Window): (e: Window) {
    var d := Shift(OpOf(w));
    Window(2 * (w.low - d), 2 * (w.high - d) + 1)
  }

  lemma ExpandValid(w: Window)
    requires ValidWindow(w) && !Stable(w)
    ensures ValidWindow(Expand(w)) && Range(Expand(w)) == 2 * Range(w)
    ensures Expand(w).high - Expand(w).low > w.high - w.low
  {}

  /** The expansions made until the region is stable again. */
  function Ops(w: Window): (ops: seq<Op>)
    requires ValidWindow(w)
    decreases TOP_VALUE - (w.high - w.low)
  {
    if Stable(w) then [] else
    ExpandValid(w);
    [OpOf(w)] + Ops(Expand(w))
  }

  function Settled(w: Window): (e: Window)
    requires ValidWindow(w)
    ensures Stable(e)
    decreases TOP_VALUE - (w.high - w.low)
  {
    if Stable(w) then w else
    ExpandValid(w);
    Settled(Expand(w))
  }

  function Range(w: Window): (r: int) { w.high - w.low + 1 }

  /** The share of symbol `s` in the region. */
  function Narrow(w: Window, f: seq<nat>, s: nat): (n: Window)
    requires 1 <= s < |f| && Above(f, 0) > 0
  {
    Window(w.low + Range(w) * Above(f, s) / Above(f, 0),
           w.low + Range(w) * Above(f, s - 1) / Above(f, 0) - 1)
  }

  /** The cumulative count a code value falls on. */
  function Target(w: Window, total: nat, value: int): (cum: int)
    requires w.low <= w.high && total > 0
  {
    ((value - w.low + 1) * total - 1) / Range(w)
  }

  lemma DivLowerBound(a: int, d: int, q: int)
    requires d > 0
    ensures q <= a / d <==> q * d <= a
  {
    var k := a / d;
    assert k * d <= a < (k + 1) * d;
    if q <= k {
      assert q * d <= k * d;
    } else {
      assert (k + 1) * d <= q * d;
    }
  }

  lemma MulMonotone(a: int, b: int, c: int)
    requires a <= b && 0 <= c
    ensures a * c <= b * c
  {}

  lemma TotalPositive(f: seq<nat>)
    requires ValidFreq(f)
    ensures Above(f, 0) > 0
  {
    assert f[1] >= 1;
  }

  /** Between symbols the region is wider than the total count can ever be. */
  lemma StableRange(w: Window)
    requires Stable(w)
    ensures Range(w) >= FIRST_QTR + 2 > MAX_FREQUENCY
  {}

  lemma DivGap(x: int, y: int, t: int)
    requires 0 < t && 0 <= x && x + t <= y
    ensures 0 <= x / t < y / t
  {
    var q := x / t;
    DivLowerBound(x, t, 0);
    DivLowerBound(x, t, q);
    assert (q + 1) * t == q * t + t;
    DivLowerBound(y, t, q + 1);
  }

  lemma DivUpper(y: int, t: int, r: int)
    requires 0 < t && y <= r * t
    ensures y / t <= r
  {
    assert (r + 1) * t == r * t + t;
    DivLowerBound(y, t, r + 1);
  }

  /** A share of `a..b` out of `t`, scaled to a range of at least `t`, is not empty. */
  lemma ShareArithmetic(r: int, t: int, a: int, b: int)
    requires 0 <= a < b <= t <= r && 0 < t
    ensures 0 <= r * a / t < r * b / t <= r
  {
    var x, y := r * a, r * b;
    MulMonotone(0, a, r);
    MulMonotone(a + 1, b, r);
    MulMonotone(b, t, r);
    assert 0 <= x && x + t <= y && y <= r * t;
    DivGap(x, y, t);
    DivUpper(y, t, r);
  }

  lemma ProductBounds(r: int, t: int, a: int, b: int)
    requires 0 <= a <= b <= t <= MAX_FREQUENCY && 0 <= r <= TOP_VALUE + 1
    ensures 0 <= r * a <= r * b <= r * t < 0x8000_0000
  {
    MulMonotone(0, a, r);
    MulMonotone(a, b, r);
    MulMonotone(b, t, r);
    MulMonotone(t, MAX_FREQUENCY, r);
    MulMonotone(r, TOP_VALUE + 1, MAX_FREQUENCY);
  }

  /** Every symbol gets a non-empty part of the region, and no product leaves 31 bits. */
  lemma NarrowValid(w: Window, f: seq<nat>, s: nat)
    requires Stable(w) && ValidFreq(f) && 1 <= s <= NO_OF_SYMBOLS
    ensures Above(f, 0) > 0
    ensures w.low <= Narrow(w, f, s).low <= Narrow(w, f, s).high <= w.high
    ensures 0 <= Range(w) * Above(f, s) <= Range(w) * Above(f, s - 1) <= Range(w) * Above(f, 0) < 0x8000_0000
  {
    TotalPositive(f);
    StableRange(w);
    assert Above(f, s - 1) == f[s] + Above(f, s);
    AboveMonotone(f, 0, s - 1);
    ShareArithmetic(Range(w), Above(f, 0), Above(f, s), Above(f, s - 1));
    ProductBounds(Range(w), Above(f, 0), Above(f, s), Above(f, s - 1));
  }

  /** The decoder's division finds exactly which side of a boundary a value lies on. */
  lemma TargetExact(w: Window, total: nat, value: int, c: nat)
    requires w.low <= value <= w.high && total > 0
    ensures c <= Target(w, total, value) <==> w.low + Range(w) * c / total <= value
  {
    var r, v := Range(w), value - w.low;
    DivLowerBound((v + 1) * total - 1, r, c);
    DivLowerBound(r * c, total, v + 1);
    assert c * r == r * c;
  }

  /** A value lies in the part of symbol `s` exactly when its cumulative count falls on `s`. */
  lemma TargetFindsSymbol(w: Window, f: seq<nat>, s: nat, value: int)
    requires Stable(w) && ValidFreq(f) && 1 <= s <= NO_OF_SYMBOLS && w.low <= value <= w.high
    ensures Above(f, 0) > 0
    ensures Above(f, s) <= Target(w, Above(f, 0), value) < Above(f, s - 1)
       <==> Narrow(w, f, s).low <= value <= Narrow(w, f, s).high
  {
    TotalPositive(f);
    TargetExact(w, Above(f, 0), value, Above(f, s));
    TargetExact(w, Above(f, 0), value, Above(f, s - 1));
  }

  lemma TargetBounds(w: Window, total: nat, value: int)
    requires w.low <= value <= w.high && total > 0
    ensures 0 <= Target(w, total, value) < total
  {
    var r := Range(w);
    DivLowerBound((value - w.low + 1) * total - 1, r, 0);
    DivLowerBound((value - w.low + 1) * total - 1, r, total);
    MulMonotone(value - w.low + 1, r, total);
    MulMonotone(1, value - w.low + 1, total);
    assert r * total == total * r;
  }

  /** Narrowing always shrinks the region: no symbol has all of the counts. */
  lemma NarrowShrinks(w: Window, f: seq<nat>, s: nat)
    requires Stable(w) && ValidFreq(f) && 1 <= s <= NO_OF_SYMBOLS
    ensures Above(f, 0) > 0 && Range(Narrow(w, f, s)) < Range(w)
  {
    NarrowValid(w, f, s);
    StableRange(w);
    if s == 1 {
      assert Above(f, 1) == f[2] + Above(f, 2) >= 1;
      ShareArithmetic(Range(w), Above(f, 0), 0, Above(f, 1));
    } else {
      AboveMonotone(f, 1, s - 1);
      assert Above(f, 0) == f[1] + Above(f, 1);
      ShareArithmetic(Range(w), Above(f, 0), Above(f, s - 1), Above(f, 0));
    }
  }

  /** The bits one expansion writes when `f` bits are pending: its own, then the opposite of it `f` times. */
  function OpBits(op: Op, f: nat): (bits: seq<Bit>) {
    match op
    case Zero => [0] + Repeat(1, f)
    case One => [1] + Repeat(0, f)
    case Mid => []
  }

  function OpPending(op: Op, f: nat): (g: nat) {
    if op == Mid then f + 1 else 0
  }

  /** The bits written for a run of expansions that starts with `f` bits pending. */
  function Emitted(ops: seq<Op>, f: nat): (bits: seq<Bit>) {
    if ops == [] then [] else OpBits(ops[0], f) + Emitted(ops[1..], OpPending(ops[0], f))
  }

  /** The bits left pending after a run of expansions. */
  function Pending(ops: seq<Op>, f: nat): (g: nat) {
    if ops == [] then f else Pending(ops[1..], OpPending(ops[0], f))
  }

  lemma EmittedStep(op: Op, rest: seq<Op>, f: nat)
    ensures Emitted([op] + rest, f) == OpBits(op, f) + Emitted(rest, OpPending(op, f))
    ensures Pending([op] + rest, f) == Pending(rest, OpPending(op, f))
  {
    assert ([op] + rest)[1..] == rest;
  }

  lemma {:induction false} EmittedAppend(a: seq<Op>, b: seq<Op>, f: nat)
    ensures Emitted(a + b, f) == Emitted(a, f) + Emitted(b, Pending(a, f))
    ensures Pending(a + b, f) == Pending(b, Pending(a, f))
  {
    if a == [] {
      assert a + b == b;
    } else {
      assert (a + b)[1..] == a[1..] + b;
      EmittedAppend(a[1..], b, OpPending(a[0], f));
    }
  }

  /** The two expansions that `done_encoding` amounts to: one more pending bit, then a settled one. */
  function FinishOps(w: Window): (ops: seq<Op>) {
    [Mid, if w.low < FIRST_QTR then Zero else One]
  }

  /** All expansions from a stable region to the end of the code, end-of-file symbol included. */
  function Trace(m: Model, w: Window, msg: seq<Byte>): (ops: seq<Op>)
    requires Valid(m) && Stable(w)
    decreases |msg|
  {
    if msg == [] then
      NarrowValid(w, m.freq, EOF_SYMBOL);
      var n := Narrow(w, m.freq, EOF_SYMBOL);
      Ops(n) + FinishOps(Settled(n))
    else
      var s := m.toIndex[msg[0]];
      NarrowValid(w, m.freq, s);
      UpdateValid(m, s);
      var n := Narrow(w, m.freq, s);
      Ops(n) + Trace(Updated(m, s), Settled(n), msg[1..])
  }

  const FULL := Window(0, TOP_VALUE)

  /** The code bits of a message. */
  function CodeBits(msg: seq<Byte>): (bits: seq<Bit>) {
    StartValid();
    Emitted(Trace(Start(), FULL, msg), 0)
  }
}
