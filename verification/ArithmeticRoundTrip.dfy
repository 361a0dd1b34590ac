/**
 * Decoding what was encoded. A pending bit never has to be counted here: seen from the decoder's register,
 * an expansion of the middle half drops the second of two opposite bits, so the register always shows the
 * bits an encoder with nothing pending would write from the same region on.
 */
module ArithmeticRoundTrip {
  import opened Sequences
  import opened BitStream
  import opened FrequencyModel
  import opened CodeInterval
  import opened ArithmeticEncoder
  import opened ArithmeticDecoder

  /** The first sixteen bits as a number. */
  function Front16(s: seq<Bit>): (v: nat)
    requires |s| >= CODE_VALUE_BITS
  {
    Val(s[..CODE_VALUE_BITS])
  }

  /** A run of expansions after which nothing is pending. */
  predicate Closed(ops: seq<Op>) {
    ops != [] && ops[|ops| - 1] != Mid
  }

  /** `f` opposite bits put behind the first bit. */
  function Insert(s: seq<Bit>, f: nat): (r: seq<Bit>)
    requires s != []
  {
    [s[0]] + Repeat(1 - s[0], f) + s[1..]
  }

  lemma InsertMore(s: seq<Bit>, f: nat)
    requires s != []
    ensures Insert(Insert(s, 1), f) == Insert(s, f + 1)
  {
    assert Insert(s, 1)[1..] == [1 - s[0]] + s[1..];
    assert Repeat(1 - s[0], f + 1) == Repeat(1 - s[0], f) + [1 - s[0]];
  }

  lemma InsertShape(b: Bit, tail: seq<Bit>, f: nat)
    ensures Insert([b] + tail, f) == [b] + Repeat(1 - b, f) + tail
  {}

  /** Pending bits only ever end up behind the next bit written. */
  lemma {:induction false} EmittedInsert(ops: seq<Op>, f: nat)
    requires Closed(ops)
    ensures |Emitted(ops, 0)| == |ops|
    ensures Emitted(ops, f) == Insert(Emitted(ops, 0), f)
    decreases |ops|
  {
    var op, rest := ops[0], ops[1..];
    if op == Mid {
      EmittedInsert(rest, 1);
      EmittedInsert(rest, f + 1);
      InsertMore(Emitted(rest, 0), f);
      NothingWritten(Emitted(rest, 1));
      NothingWritten(Emitted(rest, f + 1));
    } else {
      if rest != [] {
        EmittedInsert(rest, 0);
      }
      var tail := Emitted(rest, 0);
      OpBitsShape(op, tail, 0);
      OpBitsShape(op, tail, f);
      InsertShape(if op == Zero then 0 else 1, tail, f);
    }
  }

  lemma NothingWritten(s: seq<Bit>)
    ensures [] + s == s
  {}

  lemma OpBitsShape(op: Op, tail: seq<Bit>, f: nat)
    requires op != Mid
    ensures var b := if op == Zero then 0 else 1;
      && OpBits(op, f) + tail == [b] + Repeat(1 - b, f) + tail
      && OpBits(op, 0) + tail == [b] + tail
  {}

  lemma PowValues()
    ensures Pow2(14) == 16384 && Pow2(15) == 32768
  {
    PowTable();
    assert Pow2(11) == 8 * Pow2(8);
    assert Pow2(14) == 8 * Pow2(11);
  }

  lemma ValSmall(x: Bit, y: Bit)
    ensures Val([x]) == x && Val([x, y]) == 2 * x + y
  {
    assert [x, y][..1] == [x] && [x][..0] == [];
  }

  /** The weight of the two leading bits of a register. */
  lemma ValLeading(x: Bit, y: Bit, m: seq<Bit>)
    requires |m| == 14
    ensures Val([x, y] + m) == x * HALF + y * FIRST_QTR + Val(m)
  {
    ValAppend([x, y], m);
    ValSmall(x, y);
    PowValues();
  }

  lemma ShiftOutBit(x: Bit, y: Bit, m: seq<Bit>, n: Bit)
    requires |m| == 14
    ensures Val([y] + m + [n]) == 2 * (Val([x, y] + m) - x * HALF) + n
  {
    hide Val;
    ValLeading(x, y, m);
    ValLeadingOne(y, m);
    ValPush([y] + m, n);
  }

  lemma LeadingZero(m: seq<Bit>)
    ensures Val([0] + m) == Val(m)
  {
    ValAppend([0], m);
    ValSmall(0, 0);
  }

  lemma ShiftOutMiddle(x: Bit, m: seq<Bit>, n: Bit)
    requires |m| == 14
    ensures Val([x] + m + [n]) == 2 * (Val([x, 1 - x] + m) - FIRST_QTR) + n
  {
    hide Val;
    ValLeading(x, 1 - x, m);
    ValLeadingOne(x, m);
    ValPush([x] + m, n);
  }

  lemma ValLeadingOne(x: Bit, m: seq<Bit>)
    requires |m| == 14
    ensures Val([x] + m) == x * FIRST_QTR + Val(m)
  {
    hide Val;
    ValLeading(0, x, m);
    LeadingZero([x] + m);
    assert [0, x] + m == [0] + ([x] + m);
  }

  /** The bits from here on, as the decoder sees them: those of the expansions to come, then the padding. */
  function View(ops: seq<Op>, pad: seq<Bit>): (s: seq<Bit>) {
    Emitted(ops, 0) + pad
  }

  /** Dropping the leading bit shifts the register by one. */
  lemma RegisterShift(x: Bit, r: seq<Bit>)
    requires |r| >= CODE_VALUE_BITS
    ensures Front16(r) == 2 * (Front16([x] + r) - x * HALF) + ([x] + r)[CODE_VALUE_BITS]
    ensures r[CODE_VALUE_BITS..] == ([x] + r)[CODE_VALUE_BITS + 1..]
  {
    var y, m, n := r[0], r[1..15], r[15];
    ShiftOutBit(x, y, m, n);
    assert ([x] + r)[..16] == [x, y] + m && r[..16] == [y] + m + [n];
  }

  /** So does dropping the second of two opposite leading bits, about the first quarter point. */
  lemma RegisterMiddle(x: Bit, tail: seq<Bit>)
    requires |tail| >= CODE_VALUE_BITS - 1
    ensures var r, r' := [x, 1 - x] + tail, [x] + tail;
      && Front16(r') == 2 * (Front16(r) - FIRST_QTR) + r[CODE_VALUE_BITS]
      && r'[CODE_VALUE_BITS..] == r[CODE_VALUE_BITS + 1..]
  {
    var m, n := tail[..14], tail[14];
    ShiftOutMiddle(x, m, n);
    assert ([x, 1 - x] + tail)[..16] == [x, 1 - x] + m && ([x] + tail)[..16] == [x] + m + [n];
  }

  /** How one more expansion in front changes the view. */
  lemma ViewShape(op: Op, ops: seq<Op>, pad: seq<Bit>)
    requires Closed(ops)
    ensures |View(ops, pad)| == |ops| + |pad| > 0
    ensures op == Zero ==> View([op] + ops, pad) == [0] + View(ops, pad)
    ensures op == One ==> View([op] + ops, pad) == [1] + View(ops, pad)
    ensures op == Mid ==> var x := View(ops, pad)[0]; View([op] + ops, pad) == [x, 1 - x] + View(ops, pad)[1..]
  {
    hide Emitted, Insert, Repeat;
    EmittedInsert(ops, 1);
    if op == Mid {
      ViewMid(ops, pad);
    } else {
      ViewBit(op, ops, pad);
    }
  }

  lemma ViewBit(op: Op, ops: seq<Op>, pad: seq<Bit>)
    requires op != Mid
    ensures View([op] + ops, pad) == [if op == Zero then 0 else 1] + View(ops, pad)
  {
    hide Emitted, Repeat;
    EmittedStep(op, ops, 0);
    OpBitsShape(op, Emitted(ops, 0), 0);
    JoinHead(if op == Zero then 0 else 1, Emitted(ops, 0), pad);
  }

  lemma ViewMid(ops: seq<Op>, pad: seq<Bit>)
    requires Closed(ops)
    ensures var s := View(ops, pad); s != [] && View([Mid] + ops, pad) == [s[0], 1 - s[0]] + s[1..]
  {
    hide Emitted, Insert, Repeat;
    EmittedInsert(ops, 1);
    EmittedStep(Mid, ops, 0);
    JoinInsert(Emitted(ops, 0), pad);
  }

  lemma JoinHead(b: Bit, e: seq<Bit>, pad: seq<Bit>)
    ensures ([b] + e) + pad == [b] + (e + pad)
  {}

  lemma JoinInsert(e: seq<Bit>, pad: seq<Bit>)
    requires e != []
    ensures Insert(e, 1) + pad == [e[0], 1 - e[0]] + (e + pad)[1..] && (e + pad)[0] == e[0]
    ensures [] + Insert(e, 1) == Insert(e, 1)
  {}

  /** One expansion on the decoder's side turns the view before it into the view after it. */
  lemma ViewStep(op: Op, ops: seq<Op>, pad: seq<Bit>)
    requires Closed(ops) && |ops| + |pad| >= CODE_VALUE_BITS
    ensures |View(ops, pad)| == |ops| + |pad| && |View([op] + ops, pad)| == |ops| + |pad| + 1
    ensures Front16(View(ops, pad))
         == 2 * (Front16(View([op] + ops, pad)) - Shift(op)) + View([op] + ops, pad)[CODE_VALUE_BITS]
    ensures View(ops, pad)[CODE_VALUE_BITS..] == View([op] + ops, pad)[CODE_VALUE_BITS + 1..]
  {
    ViewShape(op, ops, pad);
    var r := View(ops, pad);
    match op
    case Zero => RegisterShift(0, r);
    case One => RegisterShift(1, r);
    case Mid =>
      assert r == [r[0]] + r[1..];
      RegisterMiddle(r[0], r[1..]);
  }

  /** A code value inside the region after the expansions was inside the region before them. */
  lemma {:induction false} InsideBefore(w: Window, ops: seq<Op>, pad: seq<Bit>)
    requires ValidWindow(w) && Closed(ops) && |ops| + |pad| >= CODE_VALUE_BITS
    requires |View(ops, pad)| >= CODE_VALUE_BITS && Within(Front16(View(ops, pad)), Settled(w))
    ensures Closed(Ops(w) + ops)
    ensures |View(Ops(w) + ops, pad)| >= CODE_VALUE_BITS && Within(Front16(View(Ops(w) + ops, pad)), w)
    decreases TOP_VALUE - (w.high - w.low)
  {
    hide View, Val, Front16, Shift;
    if Stable(w) {
      assert Ops(w) + ops == ops;
    } else {
      ExpandValid(w);
      InsideBefore(Expand(w), ops, pad);
      assert Ops(w) + ops == [OpOf(w)] + (Ops(Expand(w)) + ops);
      ViewStep(OpOf(w), Ops(Expand(w)) + ops, pad);
    }
  }

  lemma TakeBit(s: seq<Bit>)
    requires |s| > CODE_VALUE_BITS
    ensures s[CODE_VALUE_BITS..] != [] && s[CODE_VALUE_BITS..][0] == s[CODE_VALUE_BITS]
    ensures s[CODE_VALUE_BITS..][1..] == s[CODE_VALUE_BITS + 1..]
  {}

  lemma ViewLength(ops: seq<Op>, pad: seq<Bit>)
    requires Closed(ops)
    ensures |View(ops, pad)| == |ops| + |pad|
  {
    EmittedInsert(ops, 0);
  }

  /** The decoder's register follows the encoder's expansions. */
  lemma {:induction false} RefillFollows(w: Window, ops: seq<Op>, pad: seq<Bit>)
    requires ValidWindow(w) && Closed(ops) && |ops| + |pad| >= CODE_VALUE_BITS
    ensures Closed(Ops(w) + ops) && |View(ops, pad)| == |ops| + |pad|
    ensures |View(Ops(w) + ops, pad)| == |Ops(w)| + |ops| + |pad|
    ensures var s, s' := View(Ops(w) + ops, pad), View(ops, pad);
      Refilled(w, Front16(s), s[CODE_VALUE_BITS..]) == Register(Front16(s'), s'[CODE_VALUE_BITS..])
    decreases TOP_VALUE - (w.high - w.low)
  {
    hide View, Front16, Shift;
    if Stable(w) {
      assert Ops(w) + ops == ops;
      ViewLength(ops, pad);
    } else {
      ExpandValid(w);
      var later := Ops(Expand(w)) + ops;
      RefillFollows(Expand(w), ops, pad);
      assert Ops(w) + ops == [OpOf(w)] + later;
      ViewStep(OpOf(w), later, pad);
      TakeBit(View(Ops(w) + ops, pad));
    }
  }

  /** The last two bits select a quarter inside the final region, whatever fourteen or more bits follow. */
  lemma FinishInside(w: Window, pad: seq<Bit>)
    requires Stable(w) && |pad| >= CODE_VALUE_BITS - 2
    ensures Closed(FinishOps(w)) && |View(FinishOps(w), pad)| == 2 + |pad|
    ensures Within(Front16(View(FinishOps(w), pad)), w)
  {
    FinishBits(w, 0);
    var b: Bit := if w.low < FIRST_QTR then 0 else 1;
    var s, m := View(FinishOps(w), pad), pad[..14];
    assert s[..16] == [b, 1 - b] + m;
    ValAppend([b, 1 - b], m);
    ValSmall(b, 1 - b);
    ValBound(m);
    PowValues();
  }

  /** The expansions of one coding step, and the region it starts them from. */
  lemma TraceUnfold(m: Model, w: Window, msg: seq<Byte>)
    requires Valid(m) && Stable(w)
    ensures var s := if msg == [] then EOF_SYMBOL else m.toIndex[msg[0]];
      && 1 <= s <= NO_OF_SYMBOLS && Above(m.freq, 0) > 0
      && var n := Narrow(w, m.freq, s);
      && ValidWindow(n) && w.low <= n.low && n.high <= w.high
      && (msg == [] ==> Trace(m, w, msg) == Ops(n) + FinishOps(Settled(n)))
      && (msg != [] ==>
            && Valid(Updated(m, s)) && s <= NO_OF_CHARS && m.toChar[s] == msg[0]
            && Trace(m, w, msg) == Ops(n) + Trace(Updated(m, s), Settled(n), msg[1..]))
  {
    var s := if msg == [] then EOF_SYMBOL else m.toIndex[msg[0]];
    NarrowValid(w, m.freq, s);
    if msg != [] {
      UpdateValid(m, s);
    }
  }

  /** Whatever is coded from a region on, the code value stays inside that region. */
  lemma {:induction false} CodeInside(m: Model, w: Window, msg: seq<Byte>, pad: seq<Bit>)
    requires Valid(m) && Stable(w) && |pad| >= CODE_VALUE_BITS - 2
    ensures var ops := Trace(m, w, msg);
      && Closed(ops) && |ops| >= 2 && |View(ops, pad)| == |ops| + |pad|
      && Within(Front16(View(ops, pad)), w)
    decreases |msg|
  {
    TraceUnfold(m, w, msg);
    var s := if msg == [] then EOF_SYMBOL else m.toIndex[msg[0]];
    var n := Narrow(w, m.freq, s);
    var later := if msg == [] then FinishOps(Settled(n)) else Trace(Updated(m, s), Settled(n), msg[1..]);
    if msg == [] {
      FinishInside(Settled(n), pad);
    } else {
      CodeInside(Updated(m, s), Settled(n), msg[1..], pad);
    }
    InsideBefore(n, later, pad);
    EmittedInsert(Ops(n) + later, 0);
  }

  /** A value inside the part of a symbol is decoded as that symbol. */
  lemma SymbolUnique(w: Window, f: seq<nat>, value: int, s: nat)
    requires Stable(w) && ValidFreq(f) && Within(value, w) && 1 <= s <= NO_OF_SYMBOLS
    requires Above(f, 0) > 0 && Within(value, Narrow(w, f, s))
    ensures SymbolAt(w, f, value) == s
  {
    var r := SymbolAt(w, f, value);
    TargetFindsSymbol(w, f, s, value);
    TargetFindsSymbol(w, f, r, value);
    if r < s {
      AboveMonotone(f, r, s - 1);
    } else if s < r {
      AboveMonotone(f, s, r - 1);
    }
  }

  /** Decoding from any region returns the message coded from it on, and leaves the rest of the stream. */
  lemma {:induction false} DecodeFollows(m: Model, w: Window, msg: seq<Byte>, pad: seq<Bit>)
    requires Valid(m) && Stable(w) && |pad| >= CODE_VALUE_BITS - 2
    ensures var s := View(Trace(m, w, msg), pad);
      && |s| == |Trace(m, w, msg)| + |pad| && |s| >= CODE_VALUE_BITS && Within(Front16(s), w)
      && var o := DecodeFrom(m, w, Front16(s), s[CODE_VALUE_BITS..]);
      && o.Decoded? && o.text == msg && |o.unread| == |pad| - (CODE_VALUE_BITS - 2)
    decreases |msg|
  {
    hide Narrow, Settled, Updated, Val, Above, Emitted, Trace;
    CodeInside(m, w, msg, pad);
    TraceUnfold(m, w, msg);
    var sym := if msg == [] then EOF_SYMBOL else m.toIndex[msg[0]];
    var n := Narrow(w, m.freq, sym);
    var s := View(Trace(m, w, msg), pad);
    if msg == [] {
      FinishInside(Settled(n), pad);
      InsideBefore(n, FinishOps(Settled(n)), pad);
      RefillFollows(n, FinishOps(Settled(n)), pad);
    } else {
      var m' := Updated(m, sym);
      CodeInside(m', Settled(n), msg[1..], pad);
      InsideBefore(n, Trace(m', Settled(n), msg[1..]), pad);
      RefillFollows(n, Trace(m', Settled(n), msg[1..]), pad);
      DecodeFollows(m', Settled(n), msg[1..], pad);
      assert msg == [msg[0]] + msg[1..];
    }
    SymbolUnique(w, m.freq, Front16(s), sym);
  }

  /** Number of expansions the encoder makes for a message. */
  function Expansions(msg: seq<Byte>): (n: int) {
    StartValid();
    |Trace(Start(), FULL, msg)| - 2
  }

  /** The stream the decoder sees: the code bits, zeros up to a whole byte, then made-up ones. */
  function Padding(bits: seq<Bit>): (pad: seq<Bit>)
    ensures |pad| == Missing(bits) + 8 * GARBAGE_LIMIT
  {
    Repeat(0, Missing(bits)) + Repeat(1, 8 * GARBAGE_LIMIT)
  }

  lemma StreamOfPack(bits: seq<Bit>)
    ensures Stream(Pack(bits)) == bits + Padding(bits)
  {
    UnpackPack(bits);
    Associative(bits, Repeat(0, Missing(bits)), Repeat(1, 8 * GARBAGE_LIMIT));
  }

  /**
   * The round trip: every message is decoded from its own code. With N expansions the encoder writes N + 2 bits, the
   * decoder takes N + 16, and at most two bytes are made up past the end of the file.
   */
  lemma RoundTrip(msg: seq<Byte>)
    ensures var code := Pack(CodeBits(msg));
      && var o := DecodeFile(code);
      && o.Decoded? && o.text == msg
      && |CodeBits(msg)| == Expansions(msg) + 2
      && |Stream(code)| - |o.unread| == Expansions(msg) + CODE_VALUE_BITS
      && |Stream(code)| - |o.unread| <= 8 * |code| + 2 * 8
  {
    hide Start, Emitted, Pack, Repeat, Trace, Stream, Val;
    StartValid();
    var bits := CodeBits(msg);
    StreamOfPack(bits);
    CodeInside(Start(), FULL, msg, Padding(bits));
    DecodeFollows(Start(), FULL, msg, Padding(bits));
  }

  /** The two programs one after the other. */
  method EncodeThenDecode(msg: seq<Byte>) returns (text: seq<Byte>, ok: bool)
    ensures ok && text == msg
  {
    var code := Encode(msg);
    RoundTrip(msg);
    text, ok := Decode(code);
  }
}
