/** Turning captured audio into the recogniser's format, in exact arithmetic: averaging
    interleaved channels and resampling by linear interpolation. */
module Audio {
  import opened Common

  const WHISPER_SAMPLE_RATE_HZ: nat := 16_000

  datatype AudioFormat = AudioFormat(sampleRateHz: nat, channels: nat)

  function Sum(frame: seq<real>): real {
    if frame == [] then 0.0 else frame[0] + Sum(frame[1..])
  }

  function Mean(frame: seq<real>): real
    requires frame != []
  {
    Sum(frame) / |frame| as real
  }

  /** The input cut into frames of `n`, the last one possibly shorter, each averaged. */
  function Averages(input: seq<real>, n: nat): seq<real>
    requires n > 0
    decreases |input|
  {
    if input == [] then []
    else
      var k := Min(n, |input|);
      [Mean(input[..k])] + Averages(input[k..], n)
  }

  /** One average for every frame, the short one included. */
  lemma {:induction false} AveragesCount(input: seq<real>, n: nat)
    requires n > 0
    ensures |Averages(input, n)| == (|input| + n - 1) / n
    decreases |input|
  {
    if input == [] {
      DivSmall(n - 1, n);
    } else {
      FrameCount(|input|, n);
      AveragesCount(input[Min(n, |input|)..], n);
    }
  }

  lemma FrameCount(length: nat, n: nat)
    requires n > 0 && length > 0
    ensures (length + n - 1) / n == 1 + (length - Min(n, length) + n - 1) / n
  {
    DivStep(length - 1, n);
    if length <= n {
      DivSmall(length - 1, n);
      DivSmall(n - 1, n);
    }
  }

  lemma DivStep(a: nat, n: nat)
    requires n > 0
    ensures (a + n) / n == a / n + 1
  {
    var q, r := a / n, a % n;
    assert a + n == (q + 1) * n + r;
    QuotientIs(a + n, n, q + 1, r);
  }

  lemma QuotientIs(a: int, n: nat, q: int, r: int)
    requires n > 0 && a == q * n + r && 0 <= r < n
    ensures a / n == q
  {
    var d := a / n - q;
    assert d * n == r - a % n;
    if d > 0 { Times(1, d, n); }
    if d < 0 { Times(d, -1, n); }
  }

  lemma Times(a: int, b: int, n: nat)
    requires a <= b
    ensures a * n <= b * n
  {
  }

  lemma DivSmall(a: nat, n: nat)
    requires a < n
    ensures a / n == 0
  {
  }

  function ToMono(input: seq<real>, channels: nat): seq<real> {
    if Max(channels, 1) == 1 then input else Averages(input, Max(channels, 1))
  }

  // ---- resampling ----

  function OutputLength(n: nat, from: nat, to: nat): nat
    requires from > 0
  {
    Max(n * to / from, 1)
  }

  /** The point a fraction of the way from `a` to `b`. */
  function Between(a: real, b: real, frac: real): real { a * (1.0 - frac) + b * frac }

  /** The input read at a fractional position, straight lines between its samples and
      its last sample held. */
  function ReadAt(input: seq<real>, pos: real): real
    requires 0 <= pos.Floor < |input|
  {
    var left := pos.Floor;
    var right := Min(left + 1, |input| - 1);
    var frac := pos - left as real;
    Between(input[left], input[right], frac)
  }

  function Position(i: nat, from: nat, to: nat): real
    requires to > 0
  {
    i as real * (from as real / to as real)
  }

  /** `x` is the input read at the i-th output position, which lies inside the input. */
  predicate ReadsAt(input: seq<real>, from: nat, to: nat, i: nat, x: real)
    requires to > 0
  {
    0 <= Position(i, from, to).Floor < |input| && x == ReadAt(input, Position(i, from, to))
  }

  /** Every position read lies inside the input. */
  lemma PositionInside(i: nat, n: nat, from: nat, to: nat)
    requires from > 0 && to > 0 && n > 0 && i < OutputLength(n, from, to)
    ensures Position(i, from, to).Floor == i * from / to < n
    ensures Position(i, from, to) >= 0.0
  {
    PositionFloor(i, from, to);
    if i > 0 {
      var m := n * to / from;
      assert i + 1 <= m && m * from <= n * to;
      assert i * from < n * to by {
        assert (i + 1) * from <= m * from;
        assert (i + 1) * from == i * from + from;
      }
      QuotientBelow(i * from, to, n);
    } else {
      assert i * from == 0;
    }
  }

  lemma QuotientBelow(a: nat, b: nat, n: nat)
    requires b > 0 && a < n * b
    ensures a / b < n
  {
    Times(n, if a / b >= n then a / b else n, b);
  }

  lemma PositionFloor(i: nat, from: nat, to: nat)
    requires to > 0
    ensures Position(i, from, to).Floor == i * from / to
    ensures Position(i, from, to) == (i * from) as real / to as real
  {
    var p := i * from;
    var q, r := p / to, p % to;
    assert p == q * to + r;
    assert p as real == q as real * to as real + r as real;
    assert Position(i, from, to) == p as real / to as real == q as real + r as real / to as real;
    assert 0.0 <= r as real / to as real < 1.0;
  }

  /** One output sample, from the source position computed for it. */
  method SampleAt(input: seq<real>, srcPos: real) returns (sample: real)
    requires 0 <= srcPos.Floor < |input|
    ensures sample == ReadAt(input, srcPos)
  {
    var left := srcPos.Floor;
    var right := Min(left + 1, |input| - 1);
    var frac := srcPos - left as real;
    sample := Between(input[left], input[right], frac);
  }

  /** The output for the positions of the samples, whatever they are. */
  method ReadAll(input: seq<real>, positions: nat -> real, length: nat) returns (output: seq<real>)
    requires forall i :: 0 <= i < length ==> 0 <= positions(i).Floor < |input|
    ensures |output| == length
    ensures forall i :: 0 <= i < length ==> output[i] == ReadAt(input, positions(i))
  {
    output := [];
    for outIndex := 0 to length
      invariant |output| == outIndex
      invariant forall k :: 0 <= k < outIndex ==> output[k] == ReadAt(input, positions(k))
    {
      var sample := SampleAt(input, positions(outIndex));
      output := output + [sample];
    }
  }

  /** At least one sample, and otherwise as many as the rates make of `n`, rounded down. */
  predicate LengthIs(n: nat, from: nat, to: nat, length: nat) {
    length >= 1 && if n * to < from then length == 1 else length * from <= n * to < (length + 1) * from
  }

  lemma OutputLengthIs(n: nat, from: nat, to: nat)
    requires from > 0
    ensures LengthIs(n, from, to, OutputLength(n, from, to))
  {
    var q := n * to / from;
    assert q * from <= n * to < (q + 1) * from;
    if n * to < from { DivSmall(n * to, from); } else if q < 1 { Times(q + 1, 1, from); }
  }

  /** The i-th output: on the straight line between the two samples around position
      i * from / to, in whole and remaining parts; past the last sample that one is held. */
  predicate SampledAt(input: seq<real>, from: nat, to: nat, i: nat, x: real)
    requires to > 0
  {
    var left := i * from / to;
    0 <= left < |input| &&
    x == input[left] +
      (input[if left + 1 < |input| then left + 1 else left] - input[left]) * ((i * from % to) as real / to as real)
  }

  /** The output is the input at the other rate. */
  ghost predicate Resampled(input: seq<real>, from: nat, to: nat, output: seq<real>)
    requires to > 0
  {
    if input == [] || from == to then output == input
    else
      && LengthIs(|input|, from, to, |output|)
      && forall i: nat {:trigger output[i]} :: i < |output| ==> SampledAt(input, from, to, i, output[i])
  }

  lemma BetweenIs(a: real, b: real, frac: real)
    ensures Between(a, b, frac) == a + (b - a) * frac
  {
  }

  lemma PositionParts(i: nat, from: nat, to: nat)
    requires to > 0
    ensures Position(i, from, to) - (i * from / to) as real == (i * from % to) as real / to as real
  {
    var p := i * from;
    var q, r := p / to, p % to;
    PositionFloor(i, from, to);
    assert p as real == q as real * to as real + r as real;
    assert p as real / to as real == q as real + r as real / to as real;
  }

  lemma ReadIsSampled(input: seq<real>, from: nat, to: nat, i: nat, x: real)
    requires to > 0 && ReadsAt(input, from, to, i, x)
    ensures SampledAt(input, from, to, i, x)
  {
    PositionFloor(i, from, to);
    PositionParts(i, from, to);
    var left := i * from / to;
    var right := Min(left + 1, |input| - 1);
    BetweenIs(input[left], input[right], Position(i, from, to) - left as real);
  }

  method Resample(input: seq<real>, from: nat, to: nat) returns (r: Result<seq<real>>)
    ensures r.Err? <==> from == 0 || to == 0
    ensures r.Ok? ==> Resampled(input, from, to, r.value)
    ensures r.Ok? && input != [] && from != to ==>
      forall i :: 0 <= i < |r.value| ==> ReadsAt(input, from, to, i, r.value[i])
  {
    if from == 0 || to == 0 { return Err("audio sample rate must be greater than zero"); }
    if input == [] || from == to { return Ok(input); }
    var length := OutputLength(|input|, from, to);
    OutputLengthIs(|input|, from, to);
    forall i | 0 <= i < length ensures 0 <= Position(i, from, to).Floor < |input| {
      PositionInside(i, |input|, from, to);
    }
    var positions := (i: nat) => Position(i, from, to);
    var output := ReadAll(input, positions, length);
    forall i: nat | i < |output| ensures SampledAt(input, from, to, i, output[i]) {
      assert ReadsAt(input, from, to, i, output[i]);
      ReadIsSampled(input, from, to, i, output[i]);
    }
    r := Ok(output);
  }

  // ---- what reading between samples means ----

  predicate Within(s: seq<real>, lo: real, hi: real) {
    forall i :: 0 <= i < |s| ==> lo <= s[i] <= hi
  }

  lemma ReadWithin(input: seq<real>, pos: real, lo: real, hi: real)
    requires 0 <= pos.Floor < |input| && Within(input, lo, hi)
    ensures lo <= ReadAt(input, pos) <= hi
  {
    var left := pos.Floor;
    var frac := pos - left as real;
    var a, b := input[left], input[Min(left + 1, |input| - 1)];
    BetweenWithin(a, b, frac, lo, hi);
  }

  lemma BetweenWithin(a: real, b: real, frac: real, lo: real, hi: real)
    requires 0.0 <= frac <= 1.0 && lo <= a <= hi && lo <= b <= hi
    ensures lo <= Between(a, b, frac) <= hi
  {
    assert a * (1.0 - frac) + b * frac - lo == (a - lo) * (1.0 - frac) + (b - lo) * frac;
    assert hi - (a * (1.0 - frac) + b * frac) == (hi - a) * (1.0 - frac) + (hi - b) * frac;
    NonNegative(a - lo, 1.0 - frac);
    NonNegative(b - lo, frac);
    NonNegative(hi - a, 1.0 - frac);
    NonNegative(hi - b, frac);
  }

  lemma NonNegative(x: real, y: real)
    requires x >= 0.0 && y >= 0.0
    ensures x * y >= 0.0
  {
  }

  lemma Scaled(x: real, y: real, n: real)
    requires x < y && n > 0.0
    ensures x * n < y * n
  {
  }

  /** A straight ramp is read exactly, anywhere before the last sample. */
  lemma ReadsRamps(input: seq<real>, pos: real, start: real, slope: real)
    requires 0 <= pos.Floor && pos.Floor + 1 < |input|
    requires forall k :: 0 <= k < |input| ==> input[k] == start + slope * k as real
    ensures ReadAt(input, pos) == start + slope * pos
  {
    var left := pos.Floor;
    var frac := pos - left as real;
    var l := left as real;
    assert input[left + 1] == start + slope * (l + 1.0);
    assert (start + slope * l) * (1.0 - frac) + (start + slope * (l + 1.0)) * frac
        == start + slope * l + slope * frac;
    assert slope * l + slope * frac == slope * (l + frac);
  }

  lemma {:induction false} SumBounds(frame: seq<real>, lo: real, hi: real)
    requires Within(frame, lo, hi)
    ensures lo * |frame| as real <= Sum(frame) <= hi * |frame| as real
    decreases |frame|
  {
    if frame != [] {
      SumBounds(frame[1..], lo, hi);
      var n := |frame| as real;
      assert lo * n == lo + lo * (n - 1.0) && hi * n == hi + hi * (n - 1.0);
    }
  }

  lemma {:induction false} AveragesWithin(input: seq<real>, n: nat, lo: real, hi: real)
    requires n > 0 && Within(input, lo, hi)
    ensures Within(Averages(input, n), lo, hi)
    decreases |input|
  {
    if input != [] {
      var k := Min(n, |input|);
      SumBounds(input[..k], lo, hi);
      QuotientWithin(Sum(input[..k]), k as real, lo, hi);
      AveragesWithin(input[k..], n, lo, hi);
    }
  }

  lemma AveragesStep(input: seq<real>, n: nat)
    requires n > 0 && input != []
    ensures var k := Min(n, |input|);
      Averages(input, n) == [Mean(input[..k])] + Averages(input[k..], n)
  {
  }

  /** Where the j-th frame starts. */
  function FrameStart(j: nat, n: nat): nat { if j == 0 then 0 else n + FrameStart(j - 1, n) }

  lemma {:induction false} FrameStartIs(j: nat, n: nat)
    ensures FrameStart(j, n) == j * n
  {
    if j > 0 { FrameStartIs(j - 1, n); }
  }

  /** The frame that starts at `at`, the last one possibly short. */
  function FrameAt(input: seq<real>, n: nat, at: nat): (frame: seq<real>)
    requires n > 0 && at < |input|
    ensures frame != []
  {
    input[at..Min(at + n, |input|)]
  }

  lemma FrameOfTail(input: seq<real>, n: nat, at: nat)
    requires n > 0 && n + at < |input|
    ensures FrameAt(input[n..], n, at) == FrameAt(input, n, n + at)
  {
    SliceOfTail(input, n, at, Min(at + n, |input| - n));
  }

  lemma SliceOfTail<T>(s: seq<T>, n: nat, i: nat, j: nat)
    requires n <= |s| && i <= j <= |s| - n
    ensures s[n..][i..j] == s[n + i..n + j]
  {
  }

  lemma {:induction false} AveragesFrom(input: seq<real>, n: nat, j: nat)
    requires n > 0 && FrameStart(j, n) < |input|
    ensures j < |Averages(input, n)|
    ensures Averages(input, n)[j] == Mean(FrameAt(input, n, FrameStart(j, n)))
    decreases j
  {
    AveragesStep(input, n);
    if j > 0 {
      AveragesFrom(input[n..], n, j - 1);
      FrameOfTail(input, n, FrameStart(j - 1, n));
    }
  }

  /** The j-th frame, the last one possibly short, averages to its samples' mean. */
  lemma AveragesAt(input: seq<real>, n: nat, j: nat)
    requires n > 0 && j * n < |input|
    ensures j < |Averages(input, n)|
    ensures Averages(input, n)[j] == Mean(FrameAt(input, n, j * n))
  {
    FrameStartIs(j, n);
    AveragesFrom(input, n, j);
  }

  /** The sum of a frame is that of its parts, and of one sample the sample. */
  lemma {:induction false} SumParts(a: seq<real>, b: seq<real>, x: real)
    ensures Sum(a + b) == Sum(a) + Sum(b) && Sum([x]) == x
  {
    assert [x][1..] == [];
    if a == [] {
      assert a + b == b;
    } else {
      assert (a + b)[1..] == a[1..] + b;
      SumParts(a[1..], b, x);
    }
  }

  lemma MeanIs(frame: seq<real>)
    requires frame != []
    ensures Mean(frame) * |frame| as real == Sum(frame)
  {
  }

  /** `mono` is the input with its channels averaged: one mean for every frame. */
  ghost predicate IsMono(input: seq<real>, channels: nat, mono: seq<real>) {
    if channels <= 1 then mono == input
    else
      && |mono| == (|input| + channels - 1) / channels
      && forall j: nat {:trigger mono[j]} :: j < |mono| ==> MeanOfFrame(input, channels, j, mono[j])
  }

  predicate MeanOfFrame(input: seq<real>, channels: nat, j: nat, x: real) {
    channels > 0 && j * channels < |input| && x == Mean(FrameAt(input, channels, j * channels))
  }

  lemma FrameInside(length: nat, n: nat, j: nat)
    requires n > 0 && j < (length + n - 1) / n
    ensures j * n < length
  {
    var q := (length + n - 1) / n;
    Times(j + 1, q, n);
    assert q * n <= length + n - 1;
    assert (j + 1) * n == j * n + n;
  }

  lemma AverageIsMean(input: seq<real>, n: nat, j: nat)
    requires n > 0 && j < |Averages(input, n)|
    ensures MeanOfFrame(input, n, j, Averages(input, n)[j])
  {
    AveragesCount(input, n);
    FrameInside(|input|, n, j);
    AveragesAt(input, n, j);
  }

  lemma MonoSpec(input: seq<real>, channels: nat)
    ensures IsMono(input, channels, ToMono(input, channels))
  {
    if channels > 1 {
      AveragesCount(input, channels);
      var mono := Averages(input, channels);
      forall j: nat | j < |mono| ensures MeanOfFrame(input, channels, j, mono[j]) {
        AverageIsMean(input, channels, j);
      }
    }
  }

  lemma QuotientWithin(sum: real, n: real, lo: real, hi: real)
    requires n > 0.0 && lo * n <= sum <= hi * n
    ensures lo <= sum / n <= hi
  {
    var q := sum / n;
    assert q * n == sum;
    if q < lo { Scaled(q, lo, n); }
    if q > hi { Scaled(hi, q, n); }
  }

  /** To 16000 Hz and one channel: the channels averaged and the result resampled. */
  method Convert(input: seq<real>, format: AudioFormat) returns (r: Result<seq<real>>)
    ensures r.Err? <==> format.sampleRateHz == 0
    ensures r.Ok? ==> forall lo, hi :: Within(input, lo, hi) ==> Within(r.value, lo, hi)
    ensures r.Ok? ==>
      exists mono :: IsMono(input, format.channels, mono) && Resampled(mono, format.sampleRateHz, 16_000, r.value)
  {
    var mono := ToMono(input, format.channels);
    r := Resample(mono, format.sampleRateHz, WHISPER_SAMPLE_RATE_HZ);
    if r.Ok? {
      MonoSpec(input, format.channels);
      assert IsMono(input, format.channels, mono) && Resampled(mono, format.sampleRateHz, 16_000, r.value);
      forall lo, hi | Within(input, lo, hi) ensures Within(r.value, lo, hi) {
        MonoWithin(input, format.channels, lo, hi);
        if mono != [] && format.sampleRateHz != WHISPER_SAMPLE_RATE_HZ {
          forall i | 0 <= i < |r.value| ensures lo <= r.value[i] <= hi {
            assert ReadsAt(mono, format.sampleRateHz, WHISPER_SAMPLE_RATE_HZ, i, r.value[i]);
            ReadWithin(mono, Position(i, format.sampleRateHz, WHISPER_SAMPLE_RATE_HZ), lo, hi);
          }
        }
      }
    }
  }

  lemma MonoWithin(input: seq<real>, channels: nat, lo: real, hi: real)
    requires Within(input, lo, hi)
    ensures Within(ToMono(input, channels), lo, hi)
    ensures input != [] ==> ToMono(input, channels) != []
  {
    if Max(channels, 1) > 1 { AveragesWithin(input, channels, lo, hi); }
  }
}
