/** The encoder: interval narrowing, deferred bits, and the bit buffer that fills bytes from the bottom. */
module ArithmeticEncoder {
  import opened Sequences
  import opened BitStream
  import opened FrequencyModel
  import opened CodeInterval

  lemma PackCons(head: seq<Bit>, rest: seq<Bit>)
    requires |head| == 8
    ensures Pack(head + rest) == [PackedByte(head)] + Pack(rest)
  {
    assert (head + rest)[..8] == head && (head + rest)[8..] == rest;
  }

  /** Packing splits at any byte boundary. */
  lemma {:induction false} PackSplit(a: seq<Bit>, b: seq<Bit>)
    requires |a| % 8 == 0
    ensures Pack(a + b) == Pack(a)[..|a| / 8] + Pack(b)
    decreases |a|
  {
    if a == [] {
      assert a + b == b;
    } else {
      var head, rest := a[..8], a[8..];
      assert a == head + rest && a + b == head + (rest + b);
      PackCons(head, rest);
      PackCons(head, rest + b);
      PackSplit(rest, b);
    }
  }

  lemma PowTable()
    ensures Pow2(0) == 1 && Pow2(1) == 2 && Pow2(2) == 4 && Pow2(3) == 8
    ensures Pow2(4) == 16 && Pow2(5) == 32 && Pow2(6) == 64 && Pow2(7) == 128 && Pow2(8) == 256
  {
    assert Pow2(4) == 2 * Pow2(3);
  }

  lemma ShiftIn(buffer: nat, bit: Bit)
    ensures (buffer / 2 + 128 * bit) / 1 == buffer / 2 + bit * 128
    ensures (buffer / 2 + 128 * bit) / 2 == buffer / 4 + bit * 64
    ensures (buffer / 2 + 128 * bit) / 4 == buffer / 8 + bit * 32
    ensures (buffer / 2 + 128 * bit) / 8 == buffer / 16 + bit * 16
    ensures (buffer / 2 + 128 * bit) / 16 == buffer / 32 + bit * 8
    ensures (buffer / 2 + 128 * bit) / 32 == buffer / 64 + bit * 4
    ensures (buffer / 2 + 128 * bit) / 64 == buffer / 128 + bit * 2
    ensures (buffer / 2 + 128 * bit) / 128 == buffer / 256 + bit
  {}

  /** `bits[..8 * |out|]` are in `out`; the rest sit at the top of the buffer, above `bitsToGo` stale bits. */
  ghost predicate Buffers(bits: seq<Bit>, out: seq<Byte>, buffer: nat, bitsToGo: nat) {
    && 1 <= bitsToGo <= 8 && buffer < 256
    && |bits| == 8 * |out| + 8 - bitsToGo
    && |out| <= |Pack(bits[..8 * |out|])| && out == Pack(bits[..8 * |out|])[..|out|]
    && TopBits(buffer, bitsToGo) == ByteOf(bits[8 * |out|..])
  }

  /** The buffer without its `n` lowest bits. */
  function TopBits(buffer: nat, n: nat): (v: nat)
  {
    DivLowerBound(buffer, Pow2(n), 0);
    buffer / Pow2(n)
  }

  /** Shifting a bit in at the top of the buffer appends it to the buffered bits. */
  lemma BufferShift(buffer: nat, bitsToGo: nat, pending: seq<Bit>, bit: Bit)
    requires buffer < 256 && 1 <= bitsToGo <= 8 && |pending| == 8 - bitsToGo
    requires TopBits(buffer, bitsToGo) == ByteOf(pending)
    ensures TopBits(buffer / 2 + 128 * bit, bitsToGo - 1) == ByteOf(pending + [bit])
  {
    ByteOfAppend(pending, bit);
    PowTable();
    ShiftIn(buffer, bit);
    assert bitsToGo == 1 || bitsToGo == 2 || bitsToGo == 3 || bitsToGo == 4 || bitsToGo == 5
        || bitsToGo == 6 || bitsToGo == 7 || bitsToGo == 8;
  }

  lemma BuffersShift(bits: seq<Bit>, out: seq<Byte>, buffer: nat, bitsToGo: nat, bit: Bit)
    requires Buffers(bits, out, buffer, bitsToGo)
    ensures var b := buffer / 2 + 128 * bit;
      && b < 256
      && if bitsToGo == 1 then Buffers(bits + [bit], out + [b], b, 8)
         else Buffers(bits + [bit], out, b, bitsToGo - 1)
  {
    var full, pending := bits[..8 * |out|], bits[8 * |out|..];
    BufferShift(buffer, bitsToGo, pending, bit);
    assert bits + [bit] == full + (pending + [bit]);
    assert (bits + [bit])[..8 * |out|] == full && (bits + [bit])[8 * |out|..] == pending + [bit];
    if bitsToGo == 1 {
      PowTable();
      var b := buffer / 2 + 128 * bit;
      ByteComplete(full, pending + [bit], out, b);
      assert (bits + [bit])[..8 * |out + [b]|] == bits + [bit];
      assert (bits + [bit])[8 * |out + [b]|..] == [];
    }
  }

  lemma ByteComplete(full: seq<Bit>, last: seq<Bit>, out: seq<Byte>, b: Byte)
    requires |full| == 8 * |out| && |last| == 8 && |out| <= |Pack(full)| && out == Pack(full)[..|out|]
    requires b == ByteOf(last)
    ensures |out| + 1 <= |Pack(full + last)| && out + [b] == Pack(full + last)[..|out| + 1]
  {
    PackSplit(full, last);
    assert last[..8] == last;
    assert Pack(last)[0] == ByteOf(last);
  }

  /** One expansion leaves what is written and what is still to be written unchanged in total. */
  lemma ExpandStep(w: Window, f: nat, written: seq<Bit>)
    requires ValidWindow(w) && !Stable(w)
    ensures ValidWindow(Expand(w)) && Settled(Expand(w)) == Settled(w)
    ensures Expand(w).high - Expand(w).low > w.high - w.low
    ensures var op := OpOf(w);
      && written + OpBits(op, f) + Emitted(Ops(Expand(w)), OpPending(op, f)) == written + Emitted(Ops(w), f)
      && Pending(Ops(Expand(w)), OpPending(op, f)) == Pending(Ops(w), f)
  {
    ExpandValid(w);
    EmittedStep(OpOf(w), Ops(Expand(w)), f);
  }

  lemma FinishBits(w: Window, f: nat)
    ensures var b := if w.low < FIRST_QTR then 0 else 1;
      Emitted(FinishOps(w), f) == [b] + Repeat(1 - b, f + 1)
  {
    var op := if w.low < FIRST_QTR then Zero else One;
    EmittedStep(Mid, [op], f);
    EmittedStep(op, [], f + 1);
  }

  lemma OpenRun(s: seq<Bit>, b: Bit, n: nat)
    ensures s + Repeat(b, 0) == s && (s + Repeat(b, n)) + [b] == s + Repeat(b, n + 1)
  {}

  lemma SettledShape(s: seq<Bit>, b: Bit, n: nat)
    ensures (s + [b]) + Repeat(1 - b, 0) == s + [b]
    ensures (s + [b]) + Repeat(1 - b, n) == s + OpBits(if b == 1 then One else Zero, n)
  {
    Associative(s, [b], Repeat(1 - b, n));
  }

  class Encoder {
    var low: int
    var high: int
    var bitsToFollow: nat
    var buffer: nat
    var bitsToGo: nat
    var out: seq<Byte>
    ghost var bits: seq<Bit>  // every code bit written so far

    ghost predicate Ok()
      reads this`bits, this`out, this`buffer, this`bitsToGo
    {
      Buffers(bits, out, buffer, bitsToGo)
    }

    ghost function Region(): (w: Window)
      reads this`low, this`high
    {
      Window(low, high)
    }

    constructor ()
      ensures Ok() && bits == [] && bitsToFollow == 0 && Region() == FULL
    {
      buffer, bitsToGo, out, bits := 0, 8, [], [];
      low, high, bitsToFollow := 0, TOP_VALUE, 0;
      new;
      PowTable();
      assert bits[..0] == [];
    }

    method OutputBit(bit: Bit)
      requires Ok()
      modifies this`buffer, this`bitsToGo, this`out, this`bits
      ensures Ok() && bits == old(bits) + [bit]
    {
      BuffersShift(bits, out, buffer, bitsToGo, bit);
      buffer := buffer / 2 + if bit == 1 then 128 else 0;
      bitsToGo := bitsToGo - 1;
      if bitsToGo == 0 {
        out := out + [buffer];
        bitsToGo := 8;
      }
      bits := bits + [bit];
    }

    /** Writes a bit and then the opposite bits that were waiting for it. */
    method BitPlusFollow(bit: Bit)
      requires Ok()
      modifies this`buffer, this`bitsToGo, this`out, this`bits, this`bitsToFollow
      ensures Ok() && bitsToFollow == 0
      ensures bits == old(bits) + OpBits(if bit == 1 then One else Zero, old(bitsToFollow))
    {
      hide Repeat, Buffers;
      ghost var before, n := bits, bitsToFollow;
      OutputBit(bit);
      ghost var start := bits;
      SettledShape(before, bit, n);
      while bitsToFollow > 0
        invariant Ok() && bitsToFollow <= n
        invariant bits == start + Repeat(1 - bit, n - bitsToFollow)
      {
        OpenRun(start, 1 - bit, n - bitsToFollow);
        OutputBit(1 - bit);
        bitsToFollow := bitsToFollow - 1;
      }
    }

    /** One turn of the expansion loop; `more` is false when no expansion applies. */
    method ExpandOnce() returns (more: bool)
      requires Ok() && ValidWindow(Region())
      modifies this
      ensures Ok() && more == !Stable(old(Region()))
      ensures !more ==> Region() == old(Region()) && bits == old(bits) && bitsToFollow == old(bitsToFollow)
      ensures more ==>
        && Region() == Expand(old(Region()))
        && bits == old(bits) + OpBits(OpOf(old(Region())), old(bitsToFollow))
        && bitsToFollow == OpPending(OpOf(old(Region())), old(bitsToFollow))
    {
      if high < HALF {
        BitPlusFollow(0);
      } else if low >= HALF {
        BitPlusFollow(1);
        low := low - HALF;
        high := high - HALF;
      } else if low >= FIRST_QTR && high < THIRD_QTR {
        bitsToFollow := bitsToFollow + 1;
        low := low - FIRST_QTR;
        high := high - FIRST_QTR;
      } else {
        return false;
      }
      low := 2 * low;
      high := 2 * high + 1;
      return true;
    }

    /** Expands the region until it is stable, writing every bit that this settles. */
    method ExpandRegion()
      requires Ok() && ValidWindow(Region())
      modifies this
      ensures Ok() && Region() == Settled(old(Region()))
      ensures bits == old(bits) + Emitted(Ops(old(Region())), old(bitsToFollow))
      ensures bitsToFollow == Pending(Ops(old(Region())), old(bitsToFollow))
    {
      ghost var end, total, left := Settled(Region()), bits + Emitted(Ops(Region()), bitsToFollow),
        Pending(Ops(Region()), bitsToFollow);
      while true
        invariant Ok() && ValidWindow(Region()) && Settled(Region()) == end
        invariant bits + Emitted(Ops(Region()), bitsToFollow) == total
        invariant Pending(Ops(Region()), bitsToFollow) == left
        decreases TOP_VALUE - (high - low)
      {
        if !Stable(Region()) {
          ExpandStep(Region(), bitsToFollow, bits);
        }
        var more := ExpandOnce();
        if !more {
          break;
        }
      }
    }

    method NarrowRegion(symbol: nat, cumFreq: array<nat>, ghost f: seq<nat>)
      requires 1 <= symbol < |f| && Above(f, 0) > 0 && cumFreq[..] == Cumulative(f)
      modifies this`low, this`high
      ensures Region() == Narrow(old(Region()), f, symbol)
    {
      var range := high - low + 1;
      high := low + (range * cumFreq[symbol - 1]) / cumFreq[0] - 1;
      low := low + (range * cumFreq[symbol]) / cumFreq[0];
    }

    /** Narrows the region to the symbol and writes every bit that this settles. */
    method EncodeSymbol(symbol: nat, cumFreq: array<nat>, ghost f: seq<nat>)
      requires Ok() && Stable(Region()) && ValidFreq(f) && 1 <= symbol <= NO_OF_SYMBOLS
      requires cumFreq[..] == Cumulative(f)
      modifies this
      ensures Ok() && Above(f, 0) > 0 && ValidWindow(Narrow(old(Region()), f, symbol))
      ensures var n := Narrow(old(Region()), f, symbol);
        && Region() == Settled(n)
        && bits == old(bits) + Emitted(Ops(n), old(bitsToFollow))
        && bitsToFollow == Pending(Ops(n), old(bitsToFollow))
    {
      NarrowValid(Region(), f, symbol);
      NarrowRegion(symbol, cumFreq, f);
      ExpandRegion();
    }

    /** Writes two more bits, which pick a quarter inside the final region. */
    method DoneEncoding()
      requires Ok()
      modifies this
      ensures Ok() && bits == old(bits) + Emitted(FinishOps(old(Region())), old(bitsToFollow))
    {
      FinishBits(Region(), bitsToFollow);
      bitsToFollow := bitsToFollow + 1;
      if low < FIRST_QTR {
        BitPlusFollow(0);
      } else {
        BitPlusFollow(1);
      }
    }

    /** Flushes the last, partly filled byte. */
    method DoneOutputingBits()
      requires Ok()
      modifies this`out
      ensures out == Pack(bits)
    {
      ghost var full, pending := bits[..8 * |out|], bits[8 * |out|..];
      PackSplit(full, pending);
      assert bits == full + pending;
      out := out + [TopBits(buffer, bitsToGo)];
    }
  }

  lemma TraceStep(m: Model, w: Window, ch: Byte, rest: seq<Byte>, f: nat, written: seq<Bit>)
    requires Valid(m) && Stable(w)
    ensures var s := m.toIndex[ch];
      && 1 <= s <= NO_OF_CHARS && Valid(Updated(m, s)) && Above(m.freq, 0) > 0
      && var n := Narrow(w, m.freq, s);
      && ValidWindow(n)
      && written + Emitted(Trace(m, w, [ch] + rest), f)
         == written + Emitted(Ops(n), f) + Emitted(Trace(Updated(m, s), Settled(n), rest), Pending(Ops(n), f))
  {
    var s := m.toIndex[ch];
    UpdateValid(m, s);
    NarrowValid(w, m.freq, s);
    var n := Narrow(w, m.freq, s);
    assert ([ch] + rest)[1..] == rest;
    EmittedAppend(Ops(n), Trace(Updated(m, s), Settled(n), rest), f);
  }

  lemma TraceEnd(m: Model, w: Window, f: nat, written: seq<Bit>)
    requires Valid(m) && Stable(w)
    ensures Above(m.freq, 0) > 0
    ensures var n := Narrow(w, m.freq, EOF_SYMBOL);
      && ValidWindow(n)
      && written + Emitted(Trace(m, w, []), f)
         == written + Emitted(Ops(n), f) + Emitted(FinishOps(Settled(n)), Pending(Ops(n), f))
  {
    NarrowValid(w, m.freq, EOF_SYMBOL);
    var n := Narrow(w, m.freq, EOF_SYMBOL);
    EmittedAppend(Ops(n), FinishOps(Settled(n)), f);
  }

  /** Codes one byte and lets the model learn it. */
  method EncodeByte(encoder: Encoder, model: AdaptiveModel, ch: Byte, ghost rest: seq<Byte>)
    requires encoder.Ok() && Stable(encoder.Region()) && model.Ok()
    modifies encoder, model`state, model.freq, model.cumFreq, model.charToIndex, model.indexToChar
    ensures encoder.Ok() && Stable(encoder.Region()) && model.Ok()
    ensures encoder.bits + Emitted(Trace(model.state, encoder.Region(), rest), encoder.bitsToFollow)
      == old(encoder.bits
             + Emitted(Trace(model.state, encoder.Region(), [ch] + rest), encoder.bitsToFollow))
  {
    TraceStep(model.state, encoder.Region(), ch, rest, encoder.bitsToFollow, encoder.bits);
    var symbol := model.charToIndex[ch];
    encoder.EncodeSymbol(symbol, model.cumFreq, model.state.freq);
    model.Update(symbol);
  }

  /** Codes the end-of-file symbol and flushes everything that is still pending. */
  method Finish(encoder: Encoder, model: AdaptiveModel)
    requires encoder.Ok() && Stable(encoder.Region()) && model.Ok()
    modifies encoder
    ensures encoder.out
      == Pack(old(encoder.bits + Emitted(Trace(model.state, encoder.Region(), []), encoder.bitsToFollow)))
  {
    TraceEnd(model.state, encoder.Region(), encoder.bitsToFollow, encoder.bits);
    encoder.EncodeSymbol(EOF_SYMBOL, model.cumFreq, model.state.freq);
    encoder.DoneEncoding();
    encoder.DoneOutputingBits();
  }

  lemma SplitFirst(s: seq<Byte>, i: nat)
    requires i < |s|
    ensures s[i..] == [s[i]] + s[i + 1..]
  {}

  /** The encoding program: every byte, then the end-of-file symbol. */
  method Encode(input: seq<Byte>) returns (code: seq<Byte>)
    ensures code == Pack(CodeBits(input))
  {
    hide Cumulative, ValidFreq, Bijection, Start, Emitted, Trace;
    var model := new AdaptiveModel();
    var encoder := new Encoder();
    StartValid();
    var i := 0;
    while i < |input|
      invariant 0 <= i <= |input|
      invariant model.Ok() && encoder.Ok() && Stable(encoder.Region())
      invariant fresh(encoder) && fresh(model) && fresh(model.freq) && fresh(model.cumFreq)
        && fresh(model.charToIndex) && fresh(model.indexToChar)
      invariant CodeBits(input) == encoder.bits
        + Emitted(Trace(model.state, encoder.Region(), input[i..]), encoder.bitsToFollow)
    {
      SplitFirst(input, i);
      EncodeByte(encoder, model, input[i], input[i + 1..]);
      i := i + 1;
    }
    assert input[i..] == [];
    Finish(encoder, model);
    code := encoder.out;
  }
}
