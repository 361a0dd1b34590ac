/** The IMA ADPCM coder and decoder: a coder that runs its decoder, and how close the two stay to the signal. */
module Adpcm {

  import opened Sequences

  // ----- Tables and one step -----

  /** The step size table. */
  function Step(index: int): (s: int)
    requires 0 <= index <= 88
    ensures 7 <= s <= 32767
  {
    if index == 0 then 7 else if index == 1 then 8 else if index == 2 then 9 else if index == 3 then 10 else
    if index == 4 then 11 else if index == 5 then 12 else if index == 6 then 13 else if index == 7 then 14 else
    if index == 8 then 16 else if index == 9 then 17 else if index == 10 then 19 else if index == 11 then 21 else
    if index == 12 then 23 else if index == 13 then 25 else if index == 14 then 28 else if index == 15 then 31 else
    if index == 16 then 34 else if index == 17 then 37 else if index == 18 then 41 else if index == 19 then 45 else
    if index == 20 then 50 else if index == 21 then 55 else if index == 22 then 60 else if index == 23 then 66 else
    if index == 24 then 73 else if index == 25 then 80 else if index == 26 then 88 else if index == 27 then 97 else
    if index == 28 then 107 else if index == 29 then 118 else if index == 30 then 130 else if index == 31 then 143 else
    if index == 32 then 157 else if index == 33 then 173 else if index == 34 then 190 else if index == 35 then 209 else
    if index == 36 then 230 else if index == 37 then 253 else if index == 38 then 279 else if index == 39 then 307 else
    if index == 40 then 337 else if index == 41 then 371 else if index == 42 then 408 else if index == 43 then 449 else
    if index == 44 then 494 else if index == 45 then 544 else if index == 46 then 598 else if index == 47 then 658 else
    if index == 48 then 724 else if index == 49 then 796 else if index == 50 then 876 else if index == 51 then 963 else
    if index == 52 then 1060 else if index == 53 then 1166 else if index == 54 then 1282 else
    if index == 55 then 1411 else if index == 56 then 1552 else if index == 57 then 1707 else
    if index == 58 then 1878 else if index == 59 then 2066 else if index == 60 then 2272 else
    if index == 61 then 2499 else if index == 62 then 2749 else if index == 63 then 3024 else
    if index == 64 then 3327 else if index == 65 then 3660 else if index == 66 then 4026 else
    if index == 67 then 4428 else if index == 68 then 4871 else if index == 69 then 5358 else
    if index == 70 then 5894 else if index == 71 then 6484 else if index == 72 then 7132 else
    if index == 73 then 7845 else if index == 74 then 8630 else if index == 75 then 9493 else
    if index == 76 then 10442 else if index == 77 then 11487 else if index == 78 then 12635 else
    if index == 79 then 13899 else if index == 80 then 15289 else if index == 81 then 16818 else
    if index == 82 then 18500 else if index == 83 then 20350 else if index == 84 then 22385 else
    if index == 85 then 24623 else if index == 86 then 27086 else if index == 87 then 29794 else
    32767
  }

  /** The step variation of a code. */
  function IndexChange(code: int): (d: int)
    requires 0 <= code < 16
  {
    var m := code % 8;
    if m < 4 then -1 else if m == 4 then 2 else if m == 5 then 4 else if m == 6 then 6 else 8
  }

  /** The predicted value and the place in the step size table. */
  datatype Predictor = Predictor(value: int, index: int)

  predicate Ok(p: Predictor) {
    -32768 <= p.value <= 32767 && 0 <= p.index <= 88
  }

  function Clamp(x: int, low: int, high: int): (c: int)
    requires low <= high
    ensures low <= c <= high && (low <= x <= high ==> c == x)
  {
    if x > high then high else if x < low then low else x
  }

  function IfBit(code: int, bit: int, x: int): (r: int)
    requires bit > 0
  {
    if code / bit % 2 == 1 then x else 0
  }

  /**
   * The change that the magnitude bits of a code stand for: an eighth of the step, and the step, its half and
   * quarter.
   */
  function Change(code: int, step: int): (d: int) {
    step / 8 + IfBit(code, 4, step) + IfBit(code, 2, step / 2) + IfBit(code, 1, step / 4)
  }

  /** The value a code leads to before it is limited to 16 bits. */
  function Target(p: Predictor, code: int): (v: int)
    requires 0 <= p.index <= 88 && 0 <= code < 16
  {
    if code >= 8 then p.value - Change(code, Step(p.index)) else p.value + Change(code, Step(p.index))
  }

  /** The predictor after a code: what the decoder does with it. */
  function Next(p: Predictor, code: int): (q: Predictor)
    requires 0 <= p.index <= 88 && 0 <= code < 16
    ensures Ok(q)
  {
    Predictor(Clamp(Target(p, code), -32768, 32767), Clamp(p.index + IndexChange(code), 0, 88))
  }

  /** The magnitude bits for a difference: how many of the step, its half and its quarter fit, the largest first. */
  function Magnitude(diff: int, step: int): (code: int)
    requires diff >= 0 && step >= 7
    ensures 0 <= code < 8
  {
    var d4 := if diff >= step then 4 else 0;
    var r4 := if diff >= step then diff - step else diff;
    var d2 := if r4 >= step / 2 then 2 else 0;
    var r2 := if r4 >= step / 2 then r4 - step / 2 else r4;
    d4 + d2 + (if r2 >= step / 4 then 1 else 0)
  }

  /** The code the coder picks for a sample. */
  function Quantize(p: Predictor, sample: int): (code: int)
    requires 0 <= p.index <= 88
    ensures 0 <= code < 16
  {
    if sample < p.value then 8 + Magnitude(p.value - sample, Step(p.index))
    else Magnitude(sample - p.value, Step(p.index))
  }

  // ----- Runs -----

  predicate Codes(codes: seq<int>) {
    forall i :: 0 <= i < |codes| ==> 0 <= codes[i] < 16
  }

  function Run(p: Predictor, codes: seq<int>): (q: Predictor)
    requires Ok(p) && Codes(codes)
    ensures Ok(q)
  {
    if codes == [] then p else Next(Run(p, codes[..|codes| - 1]), codes[|codes| - 1])
  }

  /** The samples that a run of codes decodes to. */
  function Signal(p: Predictor, codes: seq<int>): (samples: seq<int>)
    requires Ok(p) && Codes(codes)
    ensures |samples| == |codes|
  {
    if codes == [] then [] else Signal(p, codes[..|codes| - 1]) + [Run(p, codes).value]
  }

  /** The codes of a run of samples, each picked from where the codes before it lead the predictor. */
  function Coded(p: Predictor, samples: seq<int>): (codes: seq<int>)
    requires Ok(p)
    ensures |codes| == |samples| && Codes(codes)
  {
    if samples == [] then [] else
      var before := Coded(p, samples[..|samples| - 1]);
      before + [Quantize(Run(p, before), samples[|samples| - 1])]
  }

  // ----- The tables -----

  /** The step sizes grow by a tenth, up to rounding, from 7 to the greatest 16-bit sample. */
  lemma StepLaw(i: int)
    requires 0 <= i < 87
    ensures -8 <= 10 * Step(i + 1) - 11 * Step(i) <= 8
  {
    if i < 11 {} else if i < 22 {} else if i < 33 {} else if i < 44 {} else if i < 55 {} else if i < 66 {}
    else if i < 77 {} else {}
  }

  lemma StepEnds()
    ensures Step(0) == 7 && Step(87) < Step(88) == 32767
  {}

  lemma StepGrows(i: int)
    requires 0 <= i < 87
    ensures Step(i) < Step(i + 1)
  {
    if i < 11 {} else if i < 22 {} else if i < 33 {} else if i < 44 {} else if i < 55 {} else if i < 66 {}
    else if i < 77 {} else {}
  }

  /** They are strictly increasing. */
  lemma {:induction false} StepIncreasing(i: int, j: int)
    requires 0 <= i < j <= 88
    ensures Step(i) < Step(j)
    decreases j
  {
    hide Step;
    if i < j - 1 {
      StepIncreasing(i, j - 1);
    }
    if j == 88 {
      StepEnds();
    } else {
      StepGrows(j - 1);
    }
  }

  /** A greater magnitude never leads to a smaller step, and the sign does not matter. */
  lemma IndexMonotone(p: Predictor, a: int, b: int)
    requires Ok(p) && 0 <= a < 16 && 0 <= b < 16 && a % 8 <= b % 8
    ensures Next(p, a).index <= Next(p, b).index
  {
    hide Step, Change;
  }

  /** A magnitude below four makes the step one place smaller, four makes it two places greater, and so on by twos. */
  lemma IndexMoves(p: Predictor, code: int)
    requires Ok(p) && 0 <= code < 16
    ensures var m, i := code % 8, Next(p, code).index;
      && (m < 4 ==> i == if p.index == 0 then 0 else p.index - 1)
      && (m >= 4 ==> i == if p.index + 2 * (m - 3) > 88 then 88 else p.index + 2 * (m - 3))
  {
    hide Step, Change;
  }

  // ----- Two codes a byte -----

  function SignedChar(x: int): (c: int)
    ensures -128 <= c < 128
  {
    (x + 128) % 256 - 128
  }

  /** The bytes of a run of codes: the first code of a pair in the high half; the last may stand alone. */
  function Pack(codes: seq<int>): (bytes: seq<int>)
    ensures |bytes| == (|codes| + 1) / 2
  {
    if |codes| == 0 then []
    else if |codes| == 1 then [SignedChar(16 * codes[0])]
    else [SignedChar(16 * codes[0] + codes[1])] + Pack(codes[2..])
  }

  /** The code at a place: the high half of its byte at even places, the low half at odd ones. */
  function CodeAt(bytes: seq<int>, i: nat): (code: int)
    requires i / 2 < |bytes|
    ensures 0 <= code < 16
  {
    if i % 2 == 0 then bytes[i / 2] / 16 % 16 else bytes[i / 2] % 16
  }

  function Unpack(bytes: seq<int>, n: nat): (codes: seq<int>)
    requires (n + 1) / 2 <= |bytes|
    ensures |codes| == n && Codes(codes)
  {
    seq(n, i requires 0 <= i < n => CodeAt(bytes, i))
  }

  /** Both codes of a byte survive its sign. */
  lemma SplitByte(high: int, low: int)
    requires 0 <= high < 16 && 0 <= low < 16
    ensures SignedChar(16 * high + low) / 16 % 16 == high
    ensures SignedChar(16 * high + low) % 16 == low
  {
    assert SignedChar(16 * high + low) == (if high < 8 then 16 * high + low else 16 * (high - 16) + low);
  }

  lemma {:induction false} PackAt(codes: seq<int>, i: nat)
    requires Codes(codes) && i < |codes|
    ensures CodeAt(Pack(codes), i) == codes[i]
  {
    hide SignedChar;
    if i >= 2 {
      PackAt(codes[2..], i - 2);
      assert Pack(codes)[i / 2] == Pack(codes[2..])[(i - 2) / 2];
    } else if |codes| == 1 {
      SplitByte(codes[0], 0);
    } else {
      SplitByte(codes[0], codes[1]);
      assert Pack(codes)[0] == SignedChar(16 * codes[0] + codes[1]);
    }
  }

  /** The bytes give all the codes back, also when their number is odd. */
  lemma UnpackPack(codes: seq<int>)
    requires Codes(codes)
    ensures Unpack(Pack(codes), |codes|) == codes
  {
    forall i: nat | i < |codes|
      ensures CodeAt(Pack(codes), i) == codes[i]
    {
      PackAt(codes, i);
    }
  }

  /** A byte, read without its sign, is sixteen times the first code of its pair and the second, if there is one. */
  lemma {:induction false} PackedPair(codes: seq<int>, j: nat)
    requires Codes(codes) && 2 * j < |codes|
    ensures Pack(codes)[j] % 256 == 16 * codes[2 * j] + if 2 * j + 1 < |codes| then codes[2 * j + 1] else 0
  {
    hide SignedChar;
    if j > 0 {
      PackedPair(codes[2..], j - 1);
      assert Pack(codes)[j] == Pack(codes[2..])[j - 1];
    } else if |codes| == 1 {
      SignedByte(16 * codes[0]);
    } else {
      SignedByte(16 * codes[0] + codes[1]);
    }
  }

  lemma SignedByte(x: int)
    requires 0 <= x < 256
    ensures SignedChar(x) % 256 == x
  {
    assert SignedChar(x) == if x < 128 then x else x - 256;
  }

  lemma {:induction false} PackConcat(a: seq<int>, b: seq<int>)
    requires |a| % 2 == 0
    ensures Pack(a + b) == Pack(a) + Pack(b)
  {
    hide SignedChar;
    if |a| == 0 {
      assert a + b == b;
    } else {
      var byte := [SignedChar(16 * a[0] + a[1])];
      assert Pack(a + b) == byte + Pack((a + b)[2..]) && Pack(a) == byte + Pack(a[2..]);
      hide Pack;
      DropOfConcat(a, b, 2);
      PackConcat(a[2..], b);
      Associative(byte, Pack(a[2..]), Pack(b));
    }
  }

  // ----- Coding in pieces -----

  lemma {:induction false} RunConcat(p: Predictor, a: seq<int>, b: seq<int>)
    requires Ok(p) && Codes(a) && Codes(b)
    ensures Run(p, a + b) == Run(Run(p, a), b)
  {
    if b == [] {
      assert a + b == a;
    } else {
      RunConcat(p, a, b[..|b| - 1]);
      FrontOfConcat(a, b);
    }
  }

  lemma {:induction false} CodedConcat(p: Predictor, a: seq<int>, b: seq<int>)
    requires Ok(p)
    ensures Coded(p, a + b) == Coded(p, a) + Coded(Run(p, Coded(p, a)), b)
  {
    hide Step, Quantize;
    var q := Run(p, Coded(p, a));
    if b == [] {
      assert a + b == a;
    } else {
      var c, last := b[..|b| - 1], b[|b| - 1];
      assert (a + b)[|a + b| - 1] == last;
      FrontOfConcat(a, b);
      assert Coded(p, a + b) == Coded(p, a + c) + [Quantize(Run(p, Coded(p, a + c)), last)];
      assert Coded(q, b) == Coded(q, c) + [Quantize(Run(q, Coded(q, c)), last)];
      hide Coded, Run;
      CodedConcat(p, a, c);
      RunConcat(p, Coded(p, a), Coded(q, c));
      Associative(Coded(p, a), Coded(q, c), [Quantize(Run(q, Coded(q, c)), last)]);
    }
  }

  /** Coding in two pieces, the first of even length, gives the same bytes and ends in the same state. */
  lemma CodingInPieces(p: Predictor, a: seq<int>, b: seq<int>)
    requires Ok(p) && |a| % 2 == 0
    ensures Pack(Coded(p, a + b)) == Pack(Coded(p, a)) + Pack(Coded(Run(p, Coded(p, a)), b))
    ensures Run(p, Coded(p, a + b)) == Run(Run(p, Coded(p, a)), Coded(Run(p, Coded(p, a)), b))
  {
    var q := Run(p, Coded(p, a));
    CodedConcat(p, a, b);
    PackConcat(Coded(p, a), Coded(q, b));
    RunConcat(p, Coded(p, a), Coded(q, b));
  }

  // ----- How close the decoded signal stays -----

  /** What is left of a difference after its magnitude bits: less than a quarter step and a bit. */
  lemma MagnitudeRest(diff: int, step: int)
    requires 0 <= diff < 2 * step && step >= 7
    ensures -(step / 8) <= diff - Change(Magnitude(diff, step), step) <= step / 8 + 2
  {}

  lemma Remainders(step: int)
    ensures 0 <= step - 8 * (step / 8) <= 7 && 0 <= step - 4 * (step / 4) <= 3 && 0 <= step - 2 * (step / 2) <= 1
  {}

  lemma WholeEighths(step: int)
    requires step % 8 == 0
    ensures step / 4 == 2 * (step / 8) && step / 2 == 4 * (step / 8) && step == 8 * (step / 8)
  {
    var q := step / 8;
    assert step == 8 * q;
  }

  lemma MagnitudeParts(code: int, step: int)
    requires 0 <= code < 8
    ensures Change(code, step) == step / 8
      + (if code >= 4 then step else 0) + (if code % 4 >= 2 then step / 2 else 0)
      + (if code % 2 == 1 then step / 4 else 0)
  {
    if code == 0 {} else if code == 1 {} else if code == 2 {} else if code == 3 {}
    else if code == 4 {} else if code == 5 {} else if code == 6 {} else {}
  }

  lemma MagnitudeInEighths(m: int, step: int)
    requires 0 <= m < 8
    ensures 0 <= (2 * m + 1) * step - 8 * Change(m, step) <= 17
    ensures step % 8 == 0 ==> 8 * Change(m, step) == (2 * m + 1) * step
  {
    hide Change;
    Remainders(step);
    MagnitudeParts(m, step);
    if step % 8 == 0 {
      WholeEighths(step);
    }
    if m == 0 {} else if m == 1 {} else if m == 2 {} else if m == 3 {}
    else if m == 4 {} else if m == 5 {} else if m == 6 {} else {}
  }

  /** A code stands for an odd number of eighths of the step, short of them by the remainders of the divisions only. */
  lemma ChangeInEighths(code: int, step: int)
    requires 0 <= code < 16
    ensures 0 <= (2 * (code % 8) + 1) * step - 8 * Change(code, step) <= 17
    ensures step % 8 == 0 ==> 8 * Change(code, step) == (2 * (code % 8) + 1) * step
  {
    hide Change, IndexChange;
    MagnitudeInEighths(code % 8, step);
    SignBit(code % 8, step);
  }

  /** The magnitude is the greatest whose step, half and quarter together do not exceed the difference. */
  lemma MagnitudeGreatest(diff: int, step: int, code: int)
    requires diff >= 0 && step >= 7 && 0 <= code < 8
    ensures code <= Magnitude(diff, step) <==> Change(code, step) - step / 8 <= diff
  {
    if code == 0 {} else if code == 1 {} else if code == 2 {} else if code == 3 {}
    else if code == 4 {} else if code == 5 {} else if code == 6 {} else {}
  }

  /** Which code is picked for a sample: the sign of the difference, and that magnitude. */
  lemma QuantizeGreatest(p: Predictor, sample: int, code: int)
    requires Ok(p) && 0 <= code < 8
    ensures Quantize(p, sample) >= 8 <==> sample < p.value
    ensures var d := if sample < p.value then p.value - sample else sample - p.value;
      code <= Quantize(p, sample) % 8 <==> Change(code, Step(p.index)) - Step(p.index) / 8 <= d
  {
    hide Step, Magnitude, Change;
    MagnitudeGreatest(if sample < p.value then p.value - sample else sample - p.value, Step(p.index), code);
  }

  /** The distance from the prediction up to which a code can follow with an error of an eighth of the step and two. */
  function Reach(step: int): (r: int) {
    Change(7, step) + step / 8 + 2
  }

  /** That distance takes in everything nearer than two steps. */
  lemma ReachTwoSteps(step: int)
    requires step >= 7
    ensures Change(7, step) < 2 * step <= Reach(step) + 1
  {
    assert Change(7, step) == step / 8 + step + step / 2 + step / 4;
  }

  /** The coder meets a sample up to an eighth of the step and two, clamping included, exactly when it is in reach. */
  lemma ErrorBound(p: Predictor, sample: int)
    requires Ok(p) && -32768 <= sample <= 32767
    ensures var step, e := Step(p.index), sample - Next(p, Quantize(p, sample)).value;
      -(step / 8 + 2) <= e <= step / 8 + 2 <==> p.value - Reach(step) <= sample <= p.value + Reach(step)
  {
    hide Step, Change, Magnitude;
    var step, d := Step(p.index), if sample < p.value then p.value - sample else sample - p.value;
    ReachTwoSteps(step);
    SignBit(Magnitude(d, step), step);
    if d < 2 * step {
      MagnitudeRest(d, step);
    } else {
      SaturatedMagnitude(d, step);
    }
  }

  /** Where the predictor stands when sample `i` is coded. */
  function Before(p: Predictor, samples: seq<int>, i: nat): (q: Predictor)
    requires Ok(p) && i <= |samples|
    ensures Ok(q)
  {
    Run(p, Coded(p, samples[..i]))
  }

  lemma {:induction false} SignalAt(p: Predictor, samples: seq<int>, i: nat)
    requires Ok(p) && i < |samples|
    ensures var q := Before(p, samples, i); Signal(p, Coded(p, samples))[i] == Next(q, Quantize(q, samples[i])).value
  {
    hide Step, Next, Quantize;
    var n := |samples| - 1;
    var codes := Coded(p, samples);
    assert codes[..n] == Coded(p, samples[..n]);
    if i < n {
      SignalAt(p, samples[..n], i);
      assert samples[..n][..i] == samples[..i];
    }
  }

  /** In a whole run a sample is decoded within the bound exactly when it is in reach of its prediction. */
  lemma SignalError(p: Predictor, samples: seq<int>, i: nat)
    requires Ok(p) && i < |samples| && -32768 <= samples[i] <= 32767
    ensures var q := Before(p, samples, i); var step := Step(q.index);
      -(step / 8 + 2) <= samples[i] - Signal(p, Coded(p, samples))[i] <= step / 8 + 2
      <==> q.value - Reach(step) <= samples[i] <= q.value + Reach(step)
  {
    hide Step, Next, Quantize, Signal, Coded, Run, Reach;
    SignalAt(p, samples, i);
    ErrorBound(Before(p, samples, i), samples[i]);
  }

  lemma SaturatedMagnitude(diff: int, step: int)
    requires 0 <= 2 * step <= diff && step >= 7
    ensures Magnitude(diff, step) == 7
  {}

  /** A sample two steps away or more gets the largest magnitude: the predictor moves to it as far as a code can. */
  lemma Saturated(p: Predictor, sample: int)
    requires Ok(p)
    requires sample <= p.value - 2 * Step(p.index) || p.value + 2 * Step(p.index) <= sample
    ensures Quantize(p, sample) % 8 == 7 && (Quantize(p, sample) >= 8 <==> sample < p.value)
  {
    hide Step, Magnitude;
    SaturatedMagnitude(if sample < p.value then p.value - sample else sample - p.value, Step(p.index));
  }

  /** The sign bit does not count in the magnitude. */
  lemma SignBit(code: int, step: int)
    requires 0 <= code < 8
    ensures Change(8 + code, step) == Change(code, step) && IndexChange(8 + code) == IndexChange(code)
  {}

  // ----- Coding a decoded signal again -----

  /** No value of the run had to be limited to 16 bits. */
  predicate Unclamped(p: Predictor, codes: seq<int>)
    requires Ok(p) && Codes(codes)
  {
    forall i :: 0 <= i < |codes| ==> -32768 <= Target(Run(p, codes[..i]), codes[i]) <= 32767
  }

  /** The next magnitude is out of reach, even with the eighth that a code adds. */
  lemma NextMagnitude(code: int, step: int)
    requires 0 <= code < 7 && step >= 7
    ensures Change(code, step) < Change(code + 1, step) - step / 8
  {
    hide Change;
    MagnitudeParts(code, step);
    MagnitudeParts(code + 1, step);
    Remainders(step);
  }

  /** The change of a code is quantized back to the code. */
  lemma MagnitudeOfChange(code: int, step: int)
    requires 0 <= code < 8 && step >= 7
    ensures Change(code, step) >= 0 && Magnitude(Change(code, step), step) == code
    ensures Change(code, step) == 0 ==> code == 0
  {
    hide Change, Magnitude;
    ChangePositive(code, step);
    MagnitudeParts(code, step);
    MagnitudeGreatest(Change(code, step), step, code);
    if code < 7 {
      NextMagnitude(code, step);
      MagnitudeGreatest(Change(code, step), step, code + 1);
    }
  }

  /** Coding the value that an unclamped code led to leads there again. */
  lemma Requantized(p: Predictor, code: int)
    requires Ok(p) && 0 <= code < 16 && -32768 <= Target(p, code) <= 32767
    ensures Next(p, Quantize(p, Target(p, code))) == Next(p, code)
    ensures Quantize(p, Target(p, code)) == code || (code == 8 && Target(p, code) == p.value)
  {
    hide Step, Change, Magnitude;
    var m, step := code % 8, Step(p.index);
    MagnitudeOfChange(m, step);
    SignBit(m, step);
  }

  /**
   * What a code must meet for its value to lead there again. When it was limited, the limit must be so near that the
   * magnitude bits for its distance get there too, with the same change of the index. At the lower limit itself the
   * difference is zero, which is coded upwards: the eighth of the step must be zero as well.
   */
  predicate Stays(p: Predictor, code: int)
    requires Ok(p) && 0 <= code < 16
  {
    var step, d := Step(p.index), if code < 8 then 32767 - p.value else p.value + 32768;
    var m := Magnitude(d, step);
    || -32768 <= Target(p, code) <= 32767
    || (&& d <= Change(m, step)
        && Clamp(p.index + IndexChange(m), 0, 88) == Clamp(p.index + IndexChange(code), 0, 88)
        && (code >= 8 && d == 0 ==> step < 8))
  }

  /** Coding the value that a code led to leads there again exactly for these codes. */
  lemma StaysExactly(p: Predictor, code: int)
    requires Ok(p) && 0 <= code < 16
    ensures Next(p, Quantize(p, Next(p, code).value)) == Next(p, code) <==> Stays(p, code)
  {
    hide Step, Change, Magnitude;
    var step, d := Step(p.index), if code < 8 then 32767 - p.value else p.value + 32768;
    if -32768 <= Target(p, code) <= 32767 {
      Requantized(p, code);
    } else {
      ChangePositive(code, step);
      MagnitudeOfZero(step);
      SignBit(Magnitude(d, step), step);
    }
  }

  lemma ChangePositive(code: int, step: int)
    requires step >= 7
    ensures Change(code, step) >= 0
  {}

  lemma MagnitudeOfZero(step: int)
    requires step >= 7
    ensures Magnitude(0, step) == 0 && Change(0, step) == step / 8
  {}

  /** Coding the signal of a run again passes through the predictors of the run. */
  predicate Retraced(p: Predictor, codes: seq<int>)
    requires Ok(p) && Codes(codes)
  {
    var again := Coded(p, Signal(p, codes));
    forall i :: 0 <= i <= |codes| ==> Run(p, again[..i]) == Run(p, codes[..i])
  }

  predicate AllStay(p: Predictor, codes: seq<int>)
    requires Ok(p) && Codes(codes)
  {
    forall i :: 0 <= i < |codes| ==> Stays(Run(p, codes[..i]), codes[i])
  }

  /** The last code of a run coded again. */
  lemma LastAgain(p: Predictor, codes: seq<int>)
    requires Ok(p) && Codes(codes) && codes != []
    ensures var before, q := codes[..|codes| - 1], Run(p, Coded(p, Signal(p, codes[..|codes| - 1])));
      Coded(p, Signal(p, codes)) == Coded(p, Signal(p, before)) + [Quantize(q, Run(p, codes).value)]
  {
    hide Step, Next, Quantize, Run;
    var signal := Signal(p, codes);
    assert signal[..|signal| - 1] == Signal(p, codes[..|codes| - 1]);
  }

  lemma AgainStarts(p: Predictor, codes: seq<int>)
    requires Ok(p) && Codes(codes) && codes != []
    ensures Coded(p, Signal(p, codes))[..|codes| - 1] == Coded(p, Signal(p, codes[..|codes| - 1]))
  {
    hide Step, Next, Quantize, Signal, Coded, Run;
    LastAgain(p, codes);
    var first := Coded(p, Signal(p, codes[..|codes| - 1]));
    TakeOfConcat(first, [Quantize(Run(p, first), Run(p, codes).value)]);
  }

  /** A run is retraced when its start is and its end is reached. */
  lemma RetracedStart(p: Predictor, codes: seq<int>)
    requires Ok(p) && Codes(codes) && codes != []
    ensures Retraced(p, codes) <==>
      Retraced(p, codes[..|codes| - 1]) && Run(p, Coded(p, Signal(p, codes))) == Run(p, codes)
  {
    hide Step, Next, Quantize, Signal, Coded, Run;
    var n := |codes| - 1;
    var before, again := codes[..n], Coded(p, Signal(p, codes));
    var first := Coded(p, Signal(p, before));
    AgainStarts(p, codes);
    forall i | 0 <= i <= n
      ensures codes[..i] == before[..i] && again[..i] == first[..i]
    {
      TakeTake(codes, n, i);
      TakeTake(again, n, i);
    }
    assert codes[..n + 1] == codes && again[..n + 1] == again;
  }

  /** A run is retraced when its start is and the last code stays. */
  lemma RetracedLast(p: Predictor, codes: seq<int>)
    requires Ok(p) && Codes(codes) && codes != []
    ensures var before := codes[..|codes| - 1];
      Retraced(p, codes) <==> Retraced(p, before) && Stays(Run(p, before), codes[|codes| - 1])
  {
    hide Step, Next, Quantize, Stays, Signal, Coded;
    var n := |codes| - 1;
    var before := codes[..n];
    RetracedStart(p, codes);
    if Retraced(p, before) {
      var first := Coded(p, Signal(p, before));
      assert first[..n] == first && before[..n] == before;
      LastAgain(p, codes);
      assert Coded(p, Signal(p, codes))[..n] == first;
      StaysExactly(Run(p, before), codes[n]);
    }
  }

  /** A decoded signal, coded again from the same state, passes through the same predictors if and only if all stay. */
  lemma {:induction false} Projection(p: Predictor, codes: seq<int>)
    requires Ok(p) && Codes(codes)
    ensures Retraced(p, codes) <==> AllStay(p, codes)
  {
    hide Step, Stays, Signal, Coded, Run;
    if codes == [] {
      assert Coded(p, Signal(p, codes)) == codes;
    } else {
      var n := |codes| - 1;
      var before := codes[..n];
      RetracedLast(p, codes);
      Projection(p, before);
      forall i | 0 <= i < n
        ensures before[..i] == codes[..i]
      {}
    }
  }

  /** A run that is retraced decodes to the same signal and ends alike. */
  lemma {:induction false} RetracedSignal(p: Predictor, codes: seq<int>)
    requires Ok(p) && Codes(codes) && Retraced(p, codes)
    ensures var again := Coded(p, Signal(p, codes));
      Signal(p, again) == Signal(p, codes) && Run(p, again) == Run(p, codes)
  {
    hide Step, Next, Quantize, Stays, Coded, Run;
    var again := Coded(p, Signal(p, codes));
    assert codes[..|codes|] == codes && again[..|codes|] == again;
    if codes != [] {
      RetracedLast(p, codes);
      LastAgain(p, codes);
      RetracedSignal(p, codes[..|codes| - 1]);
      assert again[..|codes| - 1] == Coded(p, Signal(p, codes[..|codes| - 1]));
    }
  }

  /** In particular no run is changed whose values never met the limits. */
  lemma UnclampedStays(p: Predictor, codes: seq<int>)
    requires Ok(p) && Codes(codes) && Unclamped(p, codes)
    ensures Retraced(p, codes)
  {
    Projection(p, codes);
  }

  /** With clamping it need not: here the limit 32767 is decoded, but coding it again decodes to 32742. */
  lemma ClampedAgain()
    ensures var p := Predictor(32700, 40);
      !Unclamped(p, [7]) && Signal(p, [7]) == [32767] && Signal(p, Coded(p, [32767])) == [32742]
  {
    var p := Predictor(32700, 40);
    assert Step(40) == 337;
    hide Step;
    assert [7][..0] == [];
    OneCode(p, 7);
    OneCode(p, 0);
    OneSample(p, 32767);
  }

  lemma OneCode(p: Predictor, code: int)
    requires Ok(p) && 0 <= code < 16
    ensures Run(p, []) == p && Run(p, [code]) == Next(p, code) && Signal(p, [code]) == [Next(p, code).value]
  {
    hide Step;
    assert [code][..0] == [];
  }

  lemma OneSample(p: Predictor, sample: int)
    requires Ok(p)
    ensures Coded(p, [sample]) == [Quantize(p, sample)]
  {
    hide Step;
    assert [sample][..0] == [];
    assert Coded(p, []) == [];
  }
}
