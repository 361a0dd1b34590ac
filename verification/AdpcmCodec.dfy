/** The coder and decoder loops, and that the decoder retraces the coder. */
module AdpcmCodec {
  import opened Sequences
  import opened Adpcm

  /** What coder and decoder carry from one call to the next. */
  class CodecState {
    var valprev: int
    var index: int

    constructor (v: int, i: int)
      ensures valprev == v && index == i
    {
      valprev, index := v, i;
    }

    function Now(): (p: Predictor)
      reads this
    {
      Predictor(valprev, index)
    }
  }

  function Count(len: int): (n: nat) { if len > 0 then len else 0 }

  lemma CodedMore(p: Predictor, samples: seq<int>, n: nat)
    requires Ok(p) && n < |samples|
    ensures var codes := Coded(p, samples[..n]); var code := Quantize(Run(p, codes), samples[n]);
      && Coded(p, samples[..n + 1]) == codes + [code]
      && Run(p, codes + [code]) == Next(Run(p, codes), code)
      && Signal(p, codes + [code]) == Signal(p, codes) + [Next(Run(p, codes), code).value]
  {
    hide Step, Quantize, Next;
    assert samples[..n + 1][..n] == samples[..n];
    var codes := Coded(p, samples[..n]);
    RunMore(p, codes, Quantize(Run(p, codes), samples[n]));
  }

  lemma RunMore(p: Predictor, codes: seq<int>, code: int)
    requires Ok(p) && Codes(codes) && 0 <= code < 16
    ensures Codes(codes + [code]) && Run(p, codes + [code]) == Next(Run(p, codes), code)
    ensures Signal(p, codes + [code]) == Signal(p, codes) + [Next(Run(p, codes), code).value]
  {
    hide Step, Next;
    var more := codes + [code];
    assert more[..|more| - 1] == codes;
  }

  lemma PackOne(high: int)
    ensures Pack([high]) == [SignedChar(16 * high)]
  {
    hide SignedChar;
  }

  lemma PackTwo(high: int, low: int)
    ensures Pack([high, low]) == [SignedChar(16 * high + low)]
  {
    hide SignedChar;
    assert [high, low][2..] == [];
    assert Pack([]) == [];
  }

  /** A trailing code takes a byte of its own. */
  lemma PackOdd(codes: seq<int>, last: int)
    requires |codes| % 2 == 0
    ensures Pack(codes + [last]) == Pack(codes) + [SignedChar(16 * last)]
  {
    hide SignedChar, Pack;
    PackConcat(codes, [last]);
    PackOne(last);
  }

  lemma PackEven(codes: seq<int>, high: int, low: int)
    requires |codes| % 2 == 0
    ensures Pack(codes + [high, low]) == Pack(codes) + [SignedChar(16 * high + low)]
  {
    hide SignedChar, Pack;
    PackConcat(codes, [high, low]);
    PackTwo(high, low);
  }

  /** Steps 1 and 2 of the coder: sign and magnitude of the difference, and the change they stand for. */
  method Divide(val: int, valpred: int, step0: int) returns (sign: int, delta: int, vpdiff: int)
    requires step0 >= 7
    ensures sign == if val < valpred then 8 else 0
    ensures delta == Magnitude(if val < valpred then valpred - val else val - valpred, step0)
    ensures vpdiff == Change(delta, step0)
  {
    var step := step0;
    var diff := val - valpred;
    sign := if diff < 0 then 8 else 0;
    if sign != 0 {
      diff := -diff;
    }
    delta := 0;
    vpdiff := step / 8;
    if diff >= step {
      delta := 4;
      diff := diff - step;
      vpdiff := vpdiff + step;
    }
    step := step / 2;
    if diff >= step {
      delta := delta + 2;
      diff := diff - step;
      vpdiff := vpdiff + step;
    }
    step := step / 2;
    if diff >= step {
      delta := delta + 1;
      vpdiff := vpdiff + step;
    }
  }

  /** Steps 3 and 4 of both loops: the new prediction, limited to 16 bits. */
  method Predict(valpred0: int, sign: int, vpdiff: int) returns (valpred: int)
    ensures valpred == Clamp(if sign != 0 then valpred0 - vpdiff else valpred0 + vpdiff, -32768, 32767)
  {
    valpred := valpred0;
    if sign != 0 {
      valpred := valpred - vpdiff;
    } else {
      valpred := valpred + vpdiff;
    }
    if valpred > 32767 {
      valpred := 32767;
    } else if valpred < -32768 {
      valpred := -32768;
    }
  }

  method NewIndex(index0: int, delta: int) returns (index: int)
    requires 0 <= index0 <= 88 && 0 <= delta < 16
    ensures index == Clamp(index0 + IndexChange(delta), 0, 88)
  {
    index := index0 + IndexChange(delta);
    if index < 0 {
      index := 0;
    }
    if index > 88 {
      index := 88;
    }
  }

  /** One turn of the coder's loop: it picks the code and does what the decoder will do with it. */
  method CodeSample(val: int, valpred0: int, index0: int, step: int) returns (delta: int, valpred: int, index: int)
    requires 0 <= index0 <= 88 && step == Step(index0)
    ensures delta == Quantize(Predictor(valpred0, index0), val)
    ensures Predictor(valpred, index) == Next(Predictor(valpred0, index0), delta)
  {
    hide Step, Change, Magnitude, IndexChange, Clamp;
    var sign, vpdiff;
    sign, delta, vpdiff := Divide(val, valpred0, step);
    SignBit(delta, step);
    valpred := Predict(valpred0, sign, vpdiff);
    delta := delta + sign;
    index := NewIndex(index0, delta);
  }

  /** One turn of the decoder's loop. */
  method DecodeCode(code: int, valpred0: int, index0: int, step: int) returns (valpred: int, index: int)
    requires 0 <= index0 <= 88 && step == Step(index0) && 0 <= code < 16
    ensures Predictor(valpred, index) == Next(Predictor(valpred0, index0), code)
  {
    hide Step, IndexChange, Clamp;
    index := NewIndex(index0, code);
    var sign, delta := if code >= 8 then 8 else 0, code % 8;
    var vpdiff := step / 8;
    if delta / 4 % 2 == 1 {
      vpdiff := vpdiff + step;
    }
    if delta / 2 % 2 == 1 {
      vpdiff := vpdiff + step / 2;
    }
    if delta % 2 == 1 {
      vpdiff := vpdiff + step / 4;
    }
    MagnitudeBits(code, step);
    valpred := Predict(valpred0, sign, vpdiff);
  }

  lemma MagnitudeBits(code: int, step: int)
    requires 0 <= code < 16
    ensures Change(code % 8, step) == Change(code, step)
  {
    hide Change;
    if code >= 8 {
      assert code % 8 == code - 8;
      SignBit(code - 8, step);
    }
  }

  /**
   * The coder: the bytes are the packed codes of the samples, and its own predictions, returned as `predicted`,
   * are the values that these codes decode to.
   */
  method Code(indata: array<int>, outdata: array<int>, len: int, state: CodecState) returns (ghost predicted: seq<int>)
    requires Ok(state.Now()) && Count(len) <= indata.Length && (Count(len) + 1) / 2 <= outdata.Length
      && indata != outdata
    modifies outdata, state
    ensures var codes := Coded(old(state.Now()), indata[..Count(len)]);
      && outdata[..(Count(len) + 1) / 2] == Pack(codes)
      && predicted == Signal(old(state.Now()), codes)
      && state.Now() == Run(old(state.Now()), codes)
    ensures outdata[(Count(len) + 1) / 2..] == old(outdata[(Count(len) + 1) / 2..])
  {
    hide Step, SignedChar, Quantize, Next, Pack, Signal, Run, Coded;
    ghost var p, n, tail := state.Now(), Count(len), outdata[(Count(len) + 1) / 2..];
    ghost var samples, codes: seq<int> := indata[..n], [];
    predicted := [];
    NothingCoded(p);
    var valpred, index := state.valprev, state.index;
    var step := Step(index);
    var bufferstep, outputbuffer := true, 0;
    var inp, outp, left := 0, 0, len;
    assert samples[..0] == [] && codes[..0] == [] && outdata[..0] == [];
    while left > 0
      invariant 0 <= inp <= n && left == len - inp && outp == inp / 2 && bufferstep == (inp % 2 == 0)
      invariant Ok(p) && |codes| == inp && codes == Coded(p, samples[..inp]) && predicted == Signal(p, codes)
      invariant Run(p, codes) == Predictor(valpred, index) && step == Step(index)
      invariant outdata[..outp] == Pack(codes[..2 * outp])
      invariant !bufferstep ==> outputbuffer == 16 * codes[inp - 1]
      invariant outdata[(n + 1) / 2..] == tail && state.Now() == p && indata[..n] == samples
    {
      CodedMore(p, samples, inp);
      var val := indata[inp];
      assert val == samples[inp];
      inp := inp + 1;
      var delta;
      delta, valpred, index := CodeSample(val, valpred, index, step);
      step := Step(index);
      ghost var before := codes;
      codes := codes + [delta];
      predicted := predicted + [valpred];
      if bufferstep {
        TakeOfConcat(before, [delta]);
        TakeAll(before);
        outputbuffer := 16 * delta;
      } else {
        PairCoded(before, outp, delta);
        outdata[outp] := SignedChar(delta + outputbuffer);
        outp := outp + 1;
      }
      bufferstep := !bufferstep;
      left := left - 1;
    }
    assert samples[..inp] == samples;
    if !bufferstep {
      PackOdd(codes[..2 * outp], codes[2 * outp]);
      assert codes == codes[..2 * outp] + [codes[2 * outp]];
      outdata[outp] := SignedChar(outputbuffer);
      outp := outp + 1;
    } else {
      assert codes[..2 * outp] == codes;
    }
    state.valprev, state.index := valpred, index;
  }

  /** The second code of a byte. */
  lemma PairCoded(before: seq<int>, outp: nat, delta: int)
    requires |before| == 2 * outp + 1
    ensures var codes := before + [delta];
      && codes[..2 * (outp + 1)] == codes
      && Pack(codes) == Pack(before[..2 * outp]) + [SignedChar(delta + 16 * before[2 * outp])]
  {
    hide Pack, SignedChar;
    var front, high := before[..2 * outp], before[2 * outp];
    PackEven(front, high, delta);
    assert before + [delta] == front + [high, delta];
  }

  lemma NothingCoded(p: Predictor)
    requires Ok(p)
    ensures Coded(p, []) == [] && Signal(p, []) == [] && Run(p, []) == p && Pack([]) == []
  {
    hide Step;
  }

  /** The decoder: the samples are the signal of the codes in the bytes. */
  method Decode(indata: array<int>, outdata: array<int>, len: int, state: CodecState)
    requires Ok(state.Now()) && (Count(len) + 1) / 2 <= indata.Length && Count(len) <= outdata.Length
      && indata != outdata
    modifies outdata, state
    ensures var codes := Unpack(indata[..], Count(len));
      && outdata[..Count(len)] == Signal(old(state.Now()), codes)
      && state.Now() == Run(old(state.Now()), codes)
    ensures outdata[Count(len)..] == old(outdata[Count(len)..])
  {
    hide Step, Next, Signal, Run;
    ghost var p, n, tail, bytes := state.Now(), Count(len), outdata[Count(len)..], indata[..];
    ghost var codes := Unpack(bytes, n);
    NothingCoded(p);
    var valpred, index := state.valprev, state.index;
    var step := Step(index);
    var bufferstep, inputbuffer := false, 0;
    var inp, outp, left := 0, 0, len;
    assert codes[..0] == [] && outdata[..0] == [];
    while left > 0
      invariant 0 <= outp <= n && left == len - outp && inp == (outp + 1) / 2 && bufferstep == (outp % 2 == 1)
      invariant bufferstep ==> inputbuffer == bytes[outp / 2]
      invariant Ok(p) && Run(p, codes[..outp]) == Predictor(valpred, index) && step == Step(index)
      invariant outdata[..outp] == Signal(p, codes[..outp])
      invariant outdata[n..] == tail && state.Now() == p && indata[..] == bytes
    {
      var delta;
      if bufferstep {
        delta := inputbuffer % 16;
      } else {
        inputbuffer := indata[inp];
        inp := inp + 1;
        delta := inputbuffer / 16 % 16;
      }
      bufferstep := !bufferstep;
      assert delta == codes[outp];
      RunMore(p, codes[..outp], delta);
      assert codes[..outp] + [delta] == codes[..outp + 1];
      valpred, index := DecodeCode(delta, valpred, index, step);
      step := Step(index);
      outdata[outp] := valpred;
      outp := outp + 1;
      left := left - 1;
    }
    assert codes[..outp] == codes;
    state.valprev, state.index := valpred, index;
  }

  /**
   * Lockstep: decoding the coder's bytes from the coder's start state yields exactly the coder's own predictions,
   * and both end in the same state, for any number of samples.
   */
  method CodeThenDecode(samples: array<int>, len: int, start: Predictor)
    returns (decoded: array<int>, coder: CodecState, decoder: CodecState, ghost predicted: seq<int>)
    requires Ok(start) && 0 <= len <= samples.Length
    ensures decoded[..] == predicted && decoder.Now() == coder.Now()
    ensures predicted == Signal(start, Coded(start, samples[..len]))
  {
    hide Step, Signal, Run, Coded, Pack, Unpack, Ok;
    var bytes := new int[(len + 1) / 2];
    decoded := new int[len];
    coder := new CodecState(start.value, start.index);
    predicted := Code(samples, bytes, len, coder);
    decoder := new CodecState(start.value, start.index);
    ghost var codes := Coded(start, samples[..len]);
    assert bytes[..] == bytes[..(len + 1) / 2];
    UnpackPack(codes);
    Decode(bytes, decoded, len, decoder);
    assert decoded[..] == decoded[..len];
  }
}
