/** The decoder: the bit reader, the 16-bit code register, symbol search and the decoding program. */
module ArithmeticDecoder {
  import opened Sequences
  import opened BitStream
  import opened FrequencyModel
  import opened CodeInterval

  /** How many bytes past the end of the file are made up (all ones) before the input is called bad. */
  const GARBAGE_LIMIT := CODE_VALUE_BITS - 2

  /** Every bit the decoder can be given for a file. */
  function Stream(code: seq<Byte>): (bits: seq<Bit>)
    ensures |bits| == 8 * |code| + 8 * GARBAGE_LIMIT
  {
    Unpack(code) + Repeat(1, 8 * GARBAGE_LIMIT)
  }

  datatype Register = Register(value: int, rest: seq<Bit>) | Exhausted

  /** What decoding ends in: the text and the bits not asked for, or the text written before the input ran out. */
  datatype Outcome = Decoded(text: seq<Byte>, unread: seq<Bit>) | BadInput(text: seq<Byte>)

  predicate Within(value: int, w: Window) {
    w.low <= value <= w.high
  }

  /** The code register after the expansions of a region, one new bit each. */
  function Refilled(w: Window, value: int, rest: seq<Bit>): (r: Register)
    requires ValidWindow(w)
    ensures r.Register? ==> |r.rest| <= |rest| && (!Stable(w) ==> |r.rest| < |rest|)
    ensures r.Register? && Within(value, w) ==> Within(r.value, Settled(w))
    decreases |rest|
  {
    if Stable(w) then Register(value, rest)
    else if rest == [] then Exhausted
    else
      ExpandValid(w);
      Refilled(Expand(w), 2 * (value - Shift(OpOf(w))) + rest[0], rest[1..])
  }

  /** First symbol from `s` on whose cumulative count is not above `cum`. */
  function SymbolFrom(f: seq<nat>, cum: int, s: nat): (r: nat)
    requires 1 <= s < |f| && 0 <= cum < Above(f, s - 1)
    ensures s <= r < |f| && Above(f, r) <= cum < Above(f, r - 1)
    decreases |f| - s
  {
    if Above(f, s) > cum then SymbolFrom(f, cum, s + 1) else s
  }

  /** The symbol a code value stands for. */
  function SymbolAt(w: Window, f: seq<nat>, value: int): (s: nat)
    requires Stable(w) && ValidFreq(f) && Within(value, w)
    ensures 1 <= s <= NO_OF_SYMBOLS && Above(f, 0) > 0 && Within(value, Narrow(w, f, s))
  {
    TotalPositive(f);
    TargetBounds(w, Above(f, 0), value);
    var s := SymbolFrom(f, Target(w, Above(f, 0), value), 1);
    TargetFindsSymbol(w, f, s, value);
    s
  }

  function Prepend(ch: Byte, o: Outcome): (r: Outcome) {
    match o
    case Decoded(text, unread) => Decoded([ch] + text, unread)
    case BadInput(text) => BadInput([ch] + text)
  }

  /** Decoding from a stable region; it ends on every input, since each symbol takes a bit or narrows the region. */
  function DecodeFrom(m: Model, w: Window, value: int, rest: seq<Bit>): (o: Outcome)
    requires Valid(m) && Stable(w) && Within(value, w)
    decreases |rest|, Range(w)
  {
    var s := SymbolAt(w, m.freq, value);
    NarrowValid(w, m.freq, s);
    NarrowShrinks(w, m.freq, s);
    var n := Narrow(w, m.freq, s);
    match Refilled(n, value, rest)
    case Exhausted => BadInput([])
    case Register(v, r) =>
      if s == EOF_SYMBOL then Decoded([], r)
      else
        UpdateValid(m, s);
        Prepend(m.toChar[s], DecodeFrom(Updated(m, s), Settled(n), v, r))
  }

  /** What the decoding program does with a file. */
  function DecodeFile(code: seq<Byte>): (o: Outcome) {
    StartValid();
    RegisterBound(Stream(code)[..CODE_VALUE_BITS]);
    DecodeFrom(Start(), FULL, Val(Stream(code)[..CODE_VALUE_BITS]), Stream(code)[CODE_VALUE_BITS..])
  }

  lemma RegisterBound(s: seq<Bit>)
    requires |s| == CODE_VALUE_BITS
    ensures Within(Val(s), FULL)
  {
    ValBound(s);
    assert Pow2(8) == 256;
    assert Pow2(16) == 65536;
  }

  /** Bits 0..7 of the end-of-file mark are ones, just like the bits made up after it. */
  lemma {:induction false} GarbageBits(n: nat)
    ensures LowBits(-1, n) == Repeat(1, n)
  {
    if n > 0 {
      GarbageBits(n - 1);
      assert (-1) % 2 == 1 && (-1) / 2 == -1;
    }
  }

  lemma ValSnoc(s: seq<Bit>, i: nat)
    requires i < |s|
    ensures Val(s[..i + 1]) == 2 * Val(s[..i]) + s[i]
  {
    assert s[..i + 1][..i] == s[..i];
  }

  lemma DropOne(s: seq<Bit>, i: nat)
    requires i < |s|
    ensures s[i..] != [] && s[i..][0] == s[i] && s[i..][1..] == s[i + 1..]
  {}

  lemma TakeLowBit(buffer: int, n: nat, later: seq<Bit>)
    requires n > 0
    ensures LowBits(buffer, n) + later == [buffer % 2] + (LowBits(buffer / 2, n - 1) + later)
    ensures (LowBits(buffer, n) + later)[1..] == LowBits(buffer / 2, n - 1) + later
  {}

  class Decoder {
    var low: int
    var high: int
    var value: int
    var buffer: int
    var bitsToGo: nat
    var garbageBits: nat
    const input: seq<Byte>
    var pos: nat

    ghost predicate Ok()
      reads this`pos, this`garbageBits
    {
      pos <= |input| && garbageBits <= GARBAGE_LIMIT
    }

    /** The bits still to come. */
    ghost function Rest(): (s: seq<Bit>)
      reads this`buffer, this`bitsToGo, this`pos, this`garbageBits
      requires Ok()
    {
      LowBits(buffer, bitsToGo) + (Unpack(input[pos..]) + Repeat(1, 8 * (GARBAGE_LIMIT - garbageBits)))
    }

    ghost function Region(): (w: Window)
      reads this`low, this`high
    {
      Window(low, high)
    }

    constructor (input: seq<Byte>)
      ensures Ok() && Rest() == Stream(input)
    {
      this.input := input;
      pos, buffer, bitsToGo, garbageBits := 0, 0, 0, 0;
      low, high, value := 0, 0, 0;
    }

    /** Loads the next byte, or the end-of-file mark; false when too many of those were asked for. */
    method LoadByte() returns (ok: bool)
      requires Ok() && bitsToGo == 0
      modifies this`buffer, this`bitsToGo, this`garbageBits, this`pos
      ensures ok <==> old(Rest()) != []
      ensures ok ==> Ok() && bitsToGo == 8 && Rest() == old(Rest())
    {
      if pos < |input| {
        assert input[pos..][1..] == input[pos + 1..];
        buffer := input[pos];
        pos := pos + 1;
      } else {
        GarbageBits(8);
        buffer := -1;
        garbageBits := garbageBits + 1;
        if garbageBits > GARBAGE_LIMIT {
          return false;
        }
      }
      bitsToGo := 8;
      return true;
    }

    method InputBit() returns (ok: bool, t: Bit)
      requires Ok()
      modifies this`buffer, this`bitsToGo, this`garbageBits, this`pos
      ensures ok <==> old(Rest()) != []
      ensures ok ==> Ok() && t == old(Rest())[0] && Rest() == old(Rest())[1..]
    {
      hide Unpack, Repeat;
      if bitsToGo == 0 {
        ok := LoadByte();
        if !ok {
          return false, 0;
        }
      }
      TakeLowBit(buffer, bitsToGo, Unpack(input[pos..]) + Repeat(1, 8 * (GARBAGE_LIMIT - garbageBits)));
      t := buffer % 2;
      buffer := buffer / 2;
      bitsToGo := bitsToGo - 1;
      ok := true;
    }

    /** Moves the next bit, if there is one, into the code register. */
    method MoveBitIn() returns (ok: bool)
      requires Ok()
      modifies this`value, this`buffer, this`bitsToGo, this`garbageBits, this`pos
      ensures ok <==> old(Rest()) != []
      ensures ok ==> Ok() && value == old(2 * value + Rest()[0]) && Rest() == old(Rest())[1..]
    {
      hide Rest;
      var t;
      ok, t := InputBit();
      value := 2 * value + t;
    }

    /** Fills the code register with the first sixteen bits. */
    method StartDecoding()
      requires Ok() && |Rest()| >= CODE_VALUE_BITS
      modifies this
      ensures Ok() && Region() == FULL
      ensures value == Val(old(Rest())[..CODE_VALUE_BITS]) && Rest() == old(Rest())[CODE_VALUE_BITS..]
    {
      assert Val([]) == 0;
      hide Rest, Val;
      ghost var s := Rest();
      assert s[..0] == [];
      value := 0;
      for i := 0 to CODE_VALUE_BITS
        invariant Ok() && Rest() == s[i..] && value == Val(s[..i])
      {
        DropOne(s, i);
        ValSnoc(s, i);
        var _ := MoveBitIn();
      }
      low := 0;
      high := TOP_VALUE;
    }

    /** One turn of the expansion loop; `more` is false when no expansion applies, `ok` when no bit is left. */
    method ExpandOnce() returns (ok: bool, more: bool)
      requires Ok() && ValidWindow(Region())
      modifies this
      ensures more == !Stable(old(Region()))
      ensures !more ==> ok && Ok() && Region() == old(Region()) && value == old(value) && Rest() == old(Rest())
      ensures more ==> (ok <==> old(Rest()) != [])
      ensures more && ok ==>
        && Ok() && Region() == Expand(old(Region()))
        && value == old(2 * (value - Shift(OpOf(Region()))) + Rest()[0])
        && Rest() == old(Rest())[1..]
    {
      hide LowBits, Unpack, Repeat, Rest;
      if high < HALF {
      } else if low >= HALF {
        value := value - HALF;
        low := low - HALF;
        high := high - HALF;
      } else if low >= FIRST_QTR && high < THIRD_QTR {
        value := value - FIRST_QTR;
        low := low - FIRST_QTR;
        high := high - FIRST_QTR;
      } else {
        return true, false;
      }
      low := 2 * low;
      high := 2 * high + 1;
      ok := MoveBitIn();
      more := true;
    }

    /** Expands until the region is stable, moving in one bit each time. */
    method ExpandRegion() returns (ok: bool)
      requires Ok() && ValidWindow(Region())
      modifies this
      ensures ok <==> old(Refilled(Region(), value, Rest())).Register?
      ensures ok ==>
        && Ok() && Region() == Settled(old(Region()))
        && Register(value, Rest()) == old(Refilled(Region(), value, Rest()))
    {
      hide LowBits, Unpack, Repeat;
      ghost var end, result := Settled(Region()), Refilled(Region(), value, Rest());
      var more := true;
      while more
        invariant Ok() && ValidWindow(Region()) && Settled(Region()) == end
        invariant Refilled(Region(), value, Rest()) == result
        invariant !more ==> Stable(Region())
        decreases more, |Rest()|
      {
        if !Stable(Region()) {
          ExpandValid(Region());
        }
        ok, more := ExpandOnce();
        if !ok {
          return;
        }
      }
      ok := true;
    }

    /** Finds the symbol the code value falls on. */
    method FindSymbol(cumFreq: array<nat>, ghost f: seq<nat>) returns (symbol: nat)
      requires Stable(Region()) && Within(value, Region()) && ValidFreq(f) && cumFreq[..] == Cumulative(f)
      ensures symbol == SymbolAt(Region(), f, value)
    {
      var range := high - low + 1;
      TotalPositive(f);
      TargetBounds(Region(), Above(f, 0), value);
      assert cumFreq[0] == cumFreq[..][0];
      var cum := ((value - low + 1) * cumFreq[0] - 1) / range;
      symbol := 1;
      while cumFreq[symbol] > cum
        invariant 1 <= symbol <= NO_OF_SYMBOLS && cum < Above(f, symbol - 1)
        invariant SymbolFrom(f, cum, symbol) == SymbolFrom(f, cum, 1)
      {
        symbol := symbol + 1;
      }
    }

    method NarrowRegion(symbol: nat, cumFreq: array<nat>, ghost f: seq<nat>)
      requires 1 <= symbol < |f| && Above(f, 0) > 0 && cumFreq[..] == Cumulative(f)
      modifies this`low, this`high
      ensures Region() == Narrow(old(Region()), f, symbol)
    {
      var range := high - low + 1;
      high := low + (range * cumFreq[symbol - 1]) / cumFreq[0] - 1;
      low := low + (range * cumFreq[symbol]) / cumFreq[0];
    }

    method DecodeSymbol(cumFreq: array<nat>, ghost f: seq<nat>) returns (ok: bool, symbol: nat)
      requires Ok() && Stable(Region()) && Within(value, Region())
      requires ValidFreq(f) && cumFreq[..] == Cumulative(f)
      modifies this
      ensures symbol == old(SymbolAt(Region(), f, value))
      ensures ValidWindow(Narrow(old(Region()), f, symbol))
      ensures var n, reg := Narrow(old(Region()), f, symbol),
                            Refilled(Narrow(old(Region()), f, symbol), old(value), old(Rest()));
        && (ok <==> reg.Register?)
        && (ok ==> Ok() && Region() == Settled(n) && Register(value, Rest()) == reg)
    {
      symbol := FindSymbol(cumFreq, f);
      NarrowValid(Region(), f, symbol);
      NarrowRegion(symbol, cumFreq, f);
      ok := ExpandRegion();
    }
  }

  /** One symbol of `DecodeFrom`, with the text written before it in front. */
  lemma DecodeStep(m: Model, w: Window, value: int, rest: seq<Bit>, text: seq<Byte>)
    requires Valid(m) && Stable(w) && Within(value, w)
    ensures var o, s := DecodeFrom(m, w, value, rest), SymbolAt(w, m.freq, value);
      && var n := Narrow(w, m.freq, s);
      && ValidWindow(n) && Range(Settled(n)) >= Range(n) && Range(n) < Range(w)
      && match Refilled(n, value, rest)
         case Exhausted => o == BadInput([])
         case Register(v, r) =>
           if s == EOF_SYMBOL then o == Decoded([], r)
           else
             && Valid(Updated(m, s)) && Within(v, Settled(n)) && m.toChar[s] < NO_OF_CHARS
             && var next := DecodeFrom(Updated(m, s), Settled(n), v, r);
             && (o.Decoded? <==> next.Decoded?)
             && text + o.text == text + [m.toChar[s]] + next.text
             && (|r| < |rest| || (|r| == |rest| && Range(Settled(n)) < Range(w)))
  {
    var s := SymbolAt(w, m.freq, value);
    NarrowValid(w, m.freq, s);
    NarrowShrinks(w, m.freq, s);
    SettledRange(Narrow(w, m.freq, s));
    var n := Narrow(w, m.freq, s);
    var reg := Refilled(n, value, rest);
    if s != EOF_SYMBOL && reg.Register? {
      UpdateValid(m, s);
      PrependText(text, m.toChar[s], DecodeFrom(Updated(m, s), Settled(n), reg.value, reg.rest));
    }
  }

  lemma PrependText(text: seq<Byte>, ch: Byte, o: Outcome)
    ensures text + Prepend(ch, o).text == text + [ch] + o.text
    ensures Prepend(ch, o).Decoded? <==> o.Decoded?
  {}

  lemma {:induction false} SettledRange(w: Window)
    requires ValidWindow(w)
    ensures Range(Settled(w)) >= Range(w)
    decreases TOP_VALUE - (w.high - w.low)
  {
    if !Stable(w) {
      ExpandValid(w);
      SettledRange(Expand(w));
    }
  }

  /** Decodes one symbol and, unless it ends the file, writes its byte and lets the model learn it. */
  method DecodeByte(decoder: Decoder, model: AdaptiveModel, text: seq<Byte>)
    returns (ok: bool, done: bool, text': seq<Byte>)
    requires model.Ok() && decoder.Ok() && Stable(decoder.Region()) && Within(decoder.value, decoder.Region())
    modifies decoder, model`state, model.freq, model.cumFreq, model.charToIndex, model.indexToChar
    ensures var o := old(DecodeFrom(model.state, decoder.Region(), decoder.value, decoder.Rest()));
      && (!ok ==> o.BadInput? && text' == text + o.text)
      && (ok && done ==> o.Decoded? && text' == text + o.text)
      && (ok && !done ==>
            && model.Ok() && decoder.Ok() && Stable(decoder.Region()) && Within(decoder.value, decoder.Region())
            && var next := DecodeFrom(model.state, decoder.Region(), decoder.value, decoder.Rest());
            && (o.Decoded? <==> next.Decoded?)
            && text' + next.text == text + o.text)
    ensures ok && !done ==>
      || |decoder.Rest()| < old(|decoder.Rest()|)
      || (|decoder.Rest()| == old(|decoder.Rest()|) && Range(decoder.Region()) < old(Range(decoder.Region())))
  {
    hide LowBits, Unpack, Repeat, Cumulative, ValidFreq;
    DecodeStep(model.state, decoder.Region(), decoder.value, decoder.Rest(), text);
    ghost var m := model.state;
    var symbol;
    ok, symbol := decoder.DecodeSymbol(model.cumFreq, model.state.freq);
    if !ok {
      return false, false, text;
    }
    if symbol == EOF_SYMBOL {
      return true, true, text;
    }
    var ch := model.indexToChar[symbol];
    assert ch == m.toChar[symbol];
    text' := text + [ch];
    model.Update(symbol);
    done := false;
  }

  // ----- Bits past the end of the file -----

  /** The stream if `n` bytes of ones were made up past the end of a file. */
  function StreamWith(code: seq<Byte>, n: nat): (bits: seq<Bit>)
    ensures |bits| == 8 * |code| + 8 * n
  {
    Unpack(code) + Repeat(1, 8 * n)
  }

  function DecodeWith(code: seq<Byte>, n: nat): (o: Outcome)
    requires n >= 2
  {
    StartValid();
    RegisterBound(StreamWith(code, n)[..CODE_VALUE_BITS]);
    DecodeFrom(Start(), FULL, Val(StreamWith(code, n)[..CODE_VALUE_BITS]), StreamWith(code, n)[CODE_VALUE_BITS..])
  }

  lemma {:induction false} RefilledMore(w: Window, value: int, rest: seq<Bit>, more: seq<Bit>)
    requires ValidWindow(w) && Refilled(w, value, rest).Register?
    ensures Refilled(w, value, rest + more)
      == Register(Refilled(w, value, rest).value, Refilled(w, value, rest).rest + more)
    decreases |rest|
  {
    if !Stable(w) {
      ExpandValid(w);
      RefilledMore(Expand(w), 2 * (value - Shift(OpOf(w))) + rest[0], rest[1..], more);
      assert (rest + more)[1..] == rest[1..] + more;
    }
  }

  /** A text that was decoded is decoded from the same bits whatever follows them, and what follows is left. */
  lemma {:induction false} DecodedMore(m: Model, w: Window, value: int, rest: seq<Bit>, more: seq<Bit>)
    requires Valid(m) && Stable(w) && Within(value, w) && DecodeFrom(m, w, value, rest).Decoded?
    ensures var o := DecodeFrom(m, w, value, rest);
      DecodeFrom(m, w, value, rest + more) == Decoded(o.text, o.unread + more)
    decreases |rest|, Range(w)
  {
    var s := SymbolAt(w, m.freq, value);
    NarrowValid(w, m.freq, s);
    NarrowShrinks(w, m.freq, s);
    var n := Narrow(w, m.freq, s);
    SettledRange(n);
    RefilledMore(n, value, rest, more);
    if s != EOF_SYMBOL {
      UpdateValid(m, s);
      var r := Refilled(n, value, rest);
      hide SymbolAt, Narrow, Updated, Settled, Refilled;
      DecodedMore(Updated(m, s), Settled(n), r.value, r.rest, more);
    }
  }

  lemma StreamMore(code: seq<Byte>, n: nat, k: nat)
    requires 2 <= n <= k
    ensures StreamWith(code, k) == StreamWith(code, n) + Repeat(1, 8 * (k - n))
    ensures StreamWith(code, k)[..CODE_VALUE_BITS] == StreamWith(code, n)[..CODE_VALUE_BITS]
    ensures StreamWith(code, k)[CODE_VALUE_BITS..]
      == StreamWith(code, n)[CODE_VALUE_BITS..] + Repeat(1, 8 * (k - n))
  {
    assert Repeat(1, 8 * k) == Repeat(1, 8 * n) + Repeat(1, 8 * (k - n));
    Associative(Unpack(code), Repeat(1, 8 * n), Repeat(1, 8 * (k - n)));
    hide StreamWith;
    DropOfConcat(StreamWith(code, n), Repeat(1, 8 * (k - n)), CODE_VALUE_BITS);
  }

  /**
   * Fourteen bytes of ones are served past the end of a file and no more: the program decodes a file if and only if
   * some number of them up to fourteen is enough, and then to the text that this number gives.
   */
  lemma FourteenBytes(code: seq<Byte>)
    ensures Stream(code) == Unpack(code) + Repeat(1, 112)
    ensures DecodeFile(code).Decoded? <==> exists n :: 2 <= n <= 14 && DecodeWith(code, n).Decoded?
    ensures forall n :: 2 <= n <= 14 && DecodeWith(code, n).Decoded? ==>
      DecodeFile(code).text == DecodeWith(code, n).text
  {
    assert StreamWith(code, 14) == Stream(code);
    assert DecodeWith(code, 14) == DecodeFile(code);
    forall n | 2 <= n <= 14 && DecodeWith(code, n).Decoded?
      ensures DecodeFile(code).Decoded? && DecodeFile(code).text == DecodeWith(code, n).text
    {
      MoreServed(code, n, 14);
    }
  }

  lemma MoreServed(code: seq<Byte>, n: nat, k: nat)
    requires 2 <= n <= k && DecodeWith(code, n).Decoded?
    ensures DecodeWith(code, k).Decoded? && DecodeWith(code, k).text == DecodeWith(code, n).text
  {
    StartValid();
    StreamMore(code, n, k);
    var s := StreamWith(code, n);
    RegisterBound(s[..CODE_VALUE_BITS]);
    hide StreamWith, DecodeFrom, Start, Val;
    DecodedMore(Start(), FULL, Val(s[..CODE_VALUE_BITS]), s[CODE_VALUE_BITS..], Repeat(1, 8 * (k - n)));
  }

  /** The decoding program, on any file at all. */
  method Decode(code: seq<Byte>) returns (text: seq<Byte>, ok: bool)
    ensures ok <==> DecodeFile(code).Decoded?
    ensures text == DecodeFile(code).text
  {
    hide LowBits, Unpack, Repeat, DecodeFrom, Val, Stream, Decoder.Rest, Start, Cumulative, ValidFreq, Bijection;
    var model := new AdaptiveModel();
    var decoder := new Decoder(code);
    StartValid();
    RegisterBound(Stream(code)[..CODE_VALUE_BITS]);
    decoder.StartDecoding();
    text, ok := [], true;
    ghost var o := DecodeFile(code);
    while true
      invariant ok && model.Ok() && decoder.Ok()
      invariant Stable(decoder.Region()) && Within(decoder.value, decoder.Region())
      invariant fresh(decoder) && fresh(model) && fresh(model.freq) && fresh(model.cumFreq)
        && fresh(model.charToIndex) && fresh(model.indexToChar)
      invariant
        && var todo := DecodeFrom(model.state, decoder.Region(), decoder.value, decoder.Rest());
        && (o.Decoded? <==> todo.Decoded?) && o.text == text + todo.text
      decreases |decoder.Rest()|, Range(decoder.Region())
    {
      var done;
      ok, done, text := DecodeByte(decoder, model, text);
      if !ok || done {
        return;
      }
    }
  }
}
