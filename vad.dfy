/** Voice-activity framing and enhancement of the two `vad_enhancer`
    scripts. The VAD itself (`vad.is_speech`), the float-to-int16 cast and
    the Butterworth band-pass filter are parameters. */
module VadEnhancer {
  import opened Results
  import opened Signal

  const SAMPLE_RATE: nat := 44100
  const FRAME_DURATION: nat := 30  // milliseconds
  const INT16_SCALE: real := 32767.0
  const PEAK_LEVEL: real := 0.9
  const MIDRANGE_GAIN: real := 1.5

  datatype VadError = ZeroFrameLength  // `range(..., 0)` raises ValueError

  /** Samples as `sf.read` or `detect_voiced` hand them over: 16-bit PCM, or
      floating point in [-1, 1]. */
  datatype Audio = Pcm16(pcm: seq<int>) | Float(values: seq<real>)

  /** The result of `enhance_audio`: samples, or all-NaN samples when the
      input is non-empty but silent (numpy's 0/0). */
  datatype Enhanced = Samples(values: seq<real>) | NotANumber(length: nat)

  /** `int(sample_rate * frame_duration_ms / 1000)` for non-negative operands:
      the whole number of samples in one frame. */
  function FrameLen(sampleRate: nat, durationMs: nat): (n: nat)
    ensures n * 1000 <= sampleRate * durationMs < (n + 1) * 1000
  {
    var p := sampleRate * durationMs;
    assert p == p / 1000 * 1000 + p % 1000;
    p / 1000
  }

  lemma MulMono(d: int, n: int)
    requires d >= 1 && n > 0
    ensures d * n >= n
  {
    assert d * n == (d - 1) * n + n;
  }

  /** Euclidean division is determined by quotient and remainder. */
  lemma DivUnique(m: int, n: int, q: int, r: int)
    requires n > 0 && m == q * n + r && 0 <= r < n
    ensures m / n == q && m % n == r
  {
    var q0, r0 := m / n, m % n;
    assert m == q0 * n + r0;
    var d := q0 - q;
    assert d * n == r - r0 by {
      assert q0 * n - q * n == (q0 - q) * n;
    }
    if d >= 1 {
      MulMono(d, n);
    } else if d <= -1 {
      assert (-d) * n == -(d * n);
      MulMono(-d, n);
    }
  }

  lemma DivStep(m: nat, n: nat)
    requires 0 < n <= m
    ensures (m - n) / n == m / n - 1
  {
    var q, r := (m - n) / n, (m - n) % n;
    assert m == (q + 1) * n + r by {
      assert (q + 1) * n == q * n + n;
    }
    DivUnique(m, n, q + 1, r);
  }

  /** The frames `frame_generator` yields for a frame length `n`. */
  function Frames<T>(audio: seq<T>, n: nat): (fs: seq<seq<T>>)
    requires n > 0
    ensures |fs| == |audio| / n
    ensures forall k :: 0 <= k < |fs| ==> |fs[k]| == n
    decreases |audio|
  {
    if |audio| < n then
      DivUnique(|audio|, n, 0, |audio|);
      []
    else
      DivStep(|audio|, n);
      [audio[..n]] + Frames(audio[n..], n)
  }

  /** Frame `k` is the slice starting at `k * n`: frames are contiguous,
      non-overlapping and start at multiples of the frame length. */
  lemma {:induction false} FrameAt<T>(audio: seq<T>, n: nat, k: nat)
    requires n > 0 && k < |audio| / n
    ensures (k + 1) * n <= |audio|
    ensures Frames(audio, n)[k] == audio[k * n..(k + 1) * n]
    decreases k
  {
    if |audio| < n {
      DivUnique(|audio|, n, 0, |audio|);
    }
    DivStep(|audio|, n);
    if k > 0 {
      var rest := audio[n..];
      assert Frames(audio, n)[k] == Frames(rest, n)[k - 1];
      FrameAt(rest, n, k - 1);
      var a := (k - 1) * n;
      MulPred(k, n);
      MulPred(k + 1, n);
      SliceOfSlice(audio, n, a, a + n);
    }
  }

  lemma MulPred(m: int, n: int)
    ensures (m - 1) * n + n == m * n
  {
  }

  /** A slice of a suffix is a slice of the whole, shifted. */
  lemma SliceOfSlice<T>(s: seq<T>, m: nat, a: nat, b: nat)
    requires m <= |s| && a <= b <= |s| - m
    ensures s[m..][a..b] == s[m + a..m + b]
  {
    assert forall i :: 0 <= i < b - a ==> s[m..][a..b][i] == s[m + a + i];
  }

  /** The frames concatenated are the input without its trailing partial frame. */
  lemma {:induction false} FramesCover<T>(audio: seq<T>, n: nat)
    requires n > 0
    ensures Flatten(Frames(audio, n)) == audio[..|audio| / n * n]
    decreases |audio|
  {
    if |audio| < n {
      DivUnique(|audio|, n, 0, |audio|);
    } else {
      var m := |audio| / n;
      var rest := audio[n..];
      DivStep(|audio|, n);
      FramesCover(rest, n);
      var t, t' := m * n, (m - 1) * n;
      MulPred(m, n);
      FlattenCons(audio[..n], Frames(rest, n));
      assert Flatten(Frames(audio, n)) == audio[..n] + rest[..t'];
      SliceJoin(audio, n, t);
    }
  }

  lemma FlattenCons<T>(b: seq<T>, rest: seq<seq<T>>)
    ensures Flatten([b] + rest) == b + Flatten(rest)
  {
    assert ([b] + rest)[1..] == rest;
  }

  lemma SliceJoin<T>(s: seq<T>, n: nat, t: nat)
    requires n <= t <= |s|
    ensures s[..n] + s[n..][..t - n] == s[..t]
  {
  }

  /** `frame_generator(audio, sample_rate, frame_duration_ms)`, iterated. */
  function FrameGenerator<T>(audio: seq<T>, sampleRate: nat, durationMs: nat)
    : (r: Result<seq<seq<T>>, VadError>)
    ensures r.Err? <==> FrameLen(sampleRate, durationMs) == 0
    ensures r.Ok? ==> |r.value| == |audio| / FrameLen(sampleRate, durationMs)
  {
    var n := FrameLen(sampleRate, durationMs);
    if n == 0 then Err(ZeroFrameLength) else Ok(Frames(audio, n))
  }

  /** The PCM samples `detect_voiced` frames: int16 input as it is, other
      input as `(audio * 32767).astype(np.int16)` with the cast a parameter. */
  function AsPcm16(audio: Audio, toInt16: real -> int): (pcm: seq<int>)
    ensures audio.Pcm16? ==> pcm == audio.pcm
    ensures audio.Float? ==> (&& |pcm| == |audio.values|
                              && forall i :: 0 <= i < |pcm| ==> pcm[i] == toInt16(audio.values[i] * INT16_SCALE))
  {
    match audio
    case Pcm16(pcm) => pcm
    case Float(v) => seq(|v|, i requires 0 <= i < |v| => toInt16(v[i] * INT16_SCALE))
  }

  /** The VAD decision for one frame at a fixed sample rate. */
  function Accepts(isSpeech: (seq<int>, nat) -> bool, sampleRate: nat): seq<int> -> bool
  {
    frame => isSpeech(frame, sampleRate)
  }

  /** What `detect_voiced` returns: the accepted frames, concatenated in order. */
  function Voiced(pcm: seq<int>, n: nat, keep: seq<int> -> bool): seq<int>
    requires n > 0
  {
    Flatten(Filter(Frames(pcm, n), keep))
  }

  /** The voiced output is whole frames only and never longer than the input. */
  lemma VoicedShape(pcm: seq<int>, n: nat, keep: seq<int> -> bool)
    requires n > 0
    ensures |Voiced(pcm, n, keep)| % n == 0
    ensures |Voiced(pcm, n, keep)| <= |pcm|
  {
    var fs := Filter(Frames(pcm, n), keep);
    var m, c := |pcm| / n, |fs|;
    FlattenLength(fs, n);
    assert |Voiced(pcm, n, keep)| == n * c;
    MulBounded(c, m, n, |pcm|);
  }

  /** `c` whole frames of length `n`, no more than fit in `len`, are a
      multiple of `n` and fit in `len`. */
  lemma MulBounded(c: nat, m: nat, n: nat, len: nat)
    requires n > 0 && m == len / n && c <= m
    ensures (n * c) % n == 0 && n * c <= len
  {
    DivUnique(n * c, n, c, 0);
    assert n * c <= n * m by {
      if c < m {
        MulMono(m - c, n);
        assert n * m - n * c == (m - c) * n;
      }
    }
    assert len == m * n + len % n;
  }

  /** When the VAD accepts every frame, the output is the input minus its
      trailing partial frame. */
  lemma {:induction false} VoicedAllAccepted(pcm: seq<int>, n: nat, keep: seq<int> -> bool)
    requires n > 0
    requires forall k :: 0 <= k < |Frames(pcm, n)| ==> keep(Frames(pcm, n)[k])
    ensures Voiced(pcm, n, keep) == pcm[..|pcm| / n * n]
  {
    FilterKeepsAll(Frames(pcm, n), keep);
    FramesCover(pcm, n);
  }

  lemma {:induction false} FilterKeepsAll<T>(blocks: seq<seq<T>>, keep: seq<T> -> bool)
    requires forall k :: 0 <= k < |blocks| ==> keep(blocks[k])
    ensures Filter(blocks, keep) == blocks
    decreases |blocks|
  {
    if blocks != [] {
      FilterKeepsAll(blocks[1..], keep);
    }
  }

  /** `detect_voiced(audio, sample_rate)`: frames the PCM samples and
      extends the output with each frame the VAD accepts. */
  method DetectVoiced(audio: Audio, sampleRate: nat, toInt16: real -> int,
                      isSpeech: (seq<int>, nat) -> bool)
    returns (voiced: Result<seq<int>, VadError>)
    ensures voiced.Err? <==> FrameLen(sampleRate, FRAME_DURATION) == 0
    ensures voiced.Ok? ==>
      voiced.value == Voiced(AsPcm16(audio, toInt16), FrameLen(sampleRate, FRAME_DURATION), Accepts(isSpeech, sampleRate))
  {
    var pcm := AsPcm16(audio, toInt16);
    var frames := FrameGenerator(pcm, sampleRate, FRAME_DURATION);
    if frames.Err? {
      return Err(frames.error);
    }
    var fs := frames.value;
    ghost var keep := Accepts(isSpeech, sampleRate);
    var acc: seq<int> := [];
    for i := 0 to |fs|
      invariant acc == Flatten(Filter(fs[..i], keep))
    {
      KeptSnoc(fs, keep, i);
      assert keep(fs[i]) == isSpeech(fs[i], sampleRate);
      if isSpeech(fs[i], sampleRate) {
        acc := acc + fs[i];
      }
    }
    assert fs[..|fs|] == fs;
    return Ok(acc);
  }

  /** `voiced_audio.astype(np.float32) / 32767` when the input is not float32. */
  function ToUnitScale(x: seq<real>, isFloat32: bool): (y: seq<real>)
    ensures |y| == |x|
  {
    if isFloat32 then x else seq(|x|, i requires 0 <= i < |x| => x[i] / INT16_SCALE)
  }

  /** A sample no larger than the peak stays within `level` once divided
      by the peak and scaled by `level`, and the peak itself reaches it. */
  lemma ScaledAbs(v: real, peak: real, level: real)
    requires peak > 0.0 && Abs(v) <= peak && level > 0.0
    ensures Abs(v / peak * level) <= level
    ensures Abs(v) == peak ==> Abs(v / peak * level) == level
  {
    var u := v / peak;
    assert u * peak == v;
    if v >= 0.0 {
      assert u >= 0.0;
      assert u <= 1.0;
      assert u * level <= level;
    } else {
      assert u < 0.0;
      assert -u <= 1.0;
      assert (-u) * level <= level;
      assert Abs(u * level) == (-u) * level;
    }
  }

  lemma ScaleBack(v: real, peak: real, level: real)
    requires peak != 0.0
    ensures v / peak * level * peak == v * level
  {
    assert v / peak * peak == v;
  }

  /** Each sample divided by `peak` and scaled by 0.9. */
  function Scaled(x: seq<real>, peak: real): (y: seq<real>)
    requires peak != 0.0
    ensures |y| == |x|
  {
    seq(|x|, i requires 0 <= i < |x| => x[i] / peak * PEAK_LEVEL)
  }

  /** `y` is `x` scaled by 0.9 / `m`, sample by sample. */
  predicate InProportion(y: seq<real>, x: seq<real>, m: real)
    requires |y| == |x|
  {
    forall i :: 0 <= i < |x| ==> y[i] * m == x[i] * PEAK_LEVEL
  }

  /** One scaled sample: within 0.9 when the sample is within the peak,
      exactly 0.9 in magnitude at the peak, and in proportion to it. */
  lemma ScaledAt(x: seq<real>, peak: real, i: nat)
    requires i < |x| && peak > 0.0 && Abs(x[i]) <= peak
    ensures Abs(Scaled(x, peak)[i]) <= PEAK_LEVEL
    ensures Abs(x[i]) == peak ==> Abs(Scaled(x, peak)[i]) == PEAK_LEVEL
    ensures Scaled(x, peak)[i] * peak == x[i] * PEAK_LEVEL
  {
    ScaledAbs(x[i], peak, PEAK_LEVEL);
    ScaleBack(x[i], peak, PEAK_LEVEL);
  }

  /** Scaling by the peak magnitude keeps every sample within 0.9, brings
      the peak sample to exactly 0.9, and keeps each sample's proportion. */
  lemma ScaledByPeak(x: seq<real>, peak: real)
    requires |x| > 0 && peak != 0.0 && peak == MaxAbs(x)
    ensures forall i :: 0 <= i < |x| ==> Abs(Scaled(x, peak)[i]) <= PEAK_LEVEL
    ensures InProportion(Scaled(x, peak), x, peak)
    ensures exists i :: 0 <= i < |x| && Abs(Scaled(x, peak)[i]) == PEAK_LEVEL
  {
    assert peak > 0.0 by {
      assert Abs(x[0]) <= peak;
    }
    forall i | 0 <= i < |x|
      ensures Abs(Scaled(x, peak)[i]) <= PEAK_LEVEL && Scaled(x, peak)[i] * peak == x[i] * PEAK_LEVEL
    {
      ScaledAt(x, peak, i);
    }
    var j :| 0 <= j < |x| && Abs(x[j]) == peak;
    ScaledAt(x, peak, j);
  }

  /** `normalized = x / np.max(np.abs(x)); amplified = normalized * 0.9`. */
  function PeakNormalize(x: seq<real>): (r: Enhanced)
    requires |x| > 0
    ensures MaxAbs(x) == 0.0 <==> r == NotANumber(|x|)
    ensures r.Samples? ==> (&& |r.values| == |x|
                            && (forall i :: 0 <= i < |x| ==> Abs(r.values[i]) <= PEAK_LEVEL)
                            && (exists i :: 0 <= i < |x| && Abs(r.values[i]) == PEAK_LEVEL))
    ensures r.Samples? ==> |r.values| == |x| && InProportion(r.values, x, MaxAbs(x))
  {
    var peak := MaxAbs(x);
    if peak == 0.0 then NotANumber(|x|)
    else
      ScaledByPeak(x, peak);
      Samples(Scaled(x, peak))
  }

  /** `enhance_audio` without the mid-range boost: an empty input gives one
      zero sample; otherwise the output is peak-normalised to 0.9. */
  function EnhanceAudio(voiced: seq<real>, isFloat32: bool): (r: Enhanced)
    ensures |voiced| == 0 ==> r == Samples([0.0])
    ensures |voiced| > 0 && r.Samples? ==> (&& |r.values| == |voiced|
      && (forall i :: 0 <= i < |voiced| ==> Abs(r.values[i]) <= PEAK_LEVEL)
      && (exists i :: 0 <= i < |voiced| && Abs(r.values[i]) == PEAK_LEVEL))
    ensures |voiced| > 0 ==> (r.NotANumber? <==> forall i :: 0 <= i < |voiced| ==> voiced[i] == 0.0)
    ensures |voiced| > 0 && r.Samples? ==>
      |r.values| == |voiced| && InProportion(r.values, voiced, MaxAbs(voiced))
  {
    if |voiced| == 0 then Samples([0.0])
    else
      var x := ToUnitScale(voiced, isFloat32);
      assert PeakNormalize(x) == PeakNormalize(voiced) by {
        if !isFloat32 {
          UnitScaleCancels(voiced);
        }
      }
      assert MaxAbs(voiced) == 0.0 <==> forall i :: 0 <= i < |voiced| ==> voiced[i] == 0.0 by {
        if MaxAbs(voiced) == 0.0 {
          assert forall i :: 0 <= i < |voiced| ==> Abs(voiced[i]) <= 0.0;
        }
      }
      PeakNormalize(x)
  }

  /** Two peaks that bound each other's sequence are the same peak. */
  lemma MaxAbsUnique(x: seq<real>, m: real)
    requires |x| > 0
    requires forall i :: 0 <= i < |x| ==> Abs(x[i]) <= m
    requires exists i :: 0 <= i < |x| && Abs(x[i]) == m
    ensures MaxAbs(x) == m
  {
    var i :| 0 <= i < |x| && Abs(x[i]) == m;
    var j :| 0 <= j < |x| && Abs(x[j]) == MaxAbs(x);
    assert Abs(x[j]) <= m && Abs(x[i]) <= MaxAbs(x);
  }

  /** The 1/32767 rescaling of integer input cancels out in the peak
      normalisation: the output does not depend on it. */
  lemma PrescaleCancels(voiced: seq<real>)
    ensures EnhanceAudio(voiced, false) == EnhanceAudio(voiced, true)
  {
    if |voiced| > 0 {
      UnitScaleCancels(voiced);
    }
  }

  lemma UnitScaleCancels(voiced: seq<real>)
    requires |voiced| > 0
    ensures PeakNormalize(ToUnitScale(voiced, false)) == PeakNormalize(voiced)
  {
    var x := ToUnitScale(voiced, false);
    var m := MaxAbs(voiced);
    var c := INT16_SCALE;
    assert forall i :: 0 <= i < |x| ==> Abs(x[i]) == Abs(voiced[i]) / c;
    var j :| 0 <= j < |voiced| && Abs(voiced[j]) == m;
    MaxAbsUnique(x, m / c);
    assert MaxAbs(x) == m / c;
    if m != 0.0 {
      var a := Scaled(x, m / c);
      var b := Scaled(voiced, m);
      forall i | 0 <= i < |x| ensures a[i] == b[i] {
        DivCancel(voiced[i], m, c);
      }
      assert a == b;
      assert PeakNormalize(x) == Samples(a);
      assert PeakNormalize(voiced) == Samples(b);
    }
  }

  lemma DivCancel(a: real, m: real, c: real)
    requires m != 0.0 && c > 0.0
    ensures (a / c) / (m / c) == a / m
  {
  }

  /** `np.clip(v, -1.0, 1.0)` on one sample. */
  function Clip(v: real): (r: real)
    ensures -1.0 <= r <= 1.0
    ensures -1.0 <= v <= 1.0 ==> r == v
    ensures v > 1.0 ==> r == 1.0
    ensures v < -1.0 ==> r == -1.0
  {
    if v > 1.0 then 1.0 else if v < -1.0 then -1.0 else v
  }

  /** `np.clip(a + 1.5 * mid, -1.0, 1.0)`. */
  function Boost(a: seq<real>, mid: seq<real>): (b: seq<real>)
    requires |mid| == |a|
    ensures |b| == |a|
    ensures forall i :: 0 <= i < |a| ==> b[i] == Clip(a[i] + MIDRANGE_GAIN * mid[i])
  {
    seq(|a|, i requires 0 <= i < |a| => Clip(a[i] + MIDRANGE_GAIN * mid[i]))
  }

  /** `enhance_audio` with the mid-range boost: the peak-normalised samples
      plus 1.5 times their band-passed copy, clipped to [-1, 1]. The filter
      (`butter` + `lfilter`) keeps the length of its input. */
  function EnhanceWithBoost(voiced: seq<real>, isFloat32: bool, bandpass: seq<real> -> seq<real>)
    : (r: Enhanced)
    requires forall s :: |bandpass(s)| == |s|
    ensures |voiced| == 0 ==> r == Samples([0.0])
    ensures |voiced| > 0 ==> (r.NotANumber? <==> EnhanceAudio(voiced, isFloat32).NotANumber?)
    ensures |voiced| > 0 && r.Samples? ==> |r.values| == |voiced|
    ensures r.Samples? ==> forall i :: 0 <= i < |r.values| ==> -1.0 <= r.values[i] <= 1.0
    ensures |voiced| > 0 && r.Samples? ==>
      var a := EnhanceAudio(voiced, isFloat32).values;
      forall i :: 0 <= i < |voiced| ==> r.values[i] == Clip(a[i] + MIDRANGE_GAIN * bandpass(a)[i])
  {
    if |voiced| == 0 then Samples([0.0])
    else match EnhanceAudio(voiced, isFloat32)
      case NotANumber(n) => NotANumber(n)
      case Samples(a) =>
        Samples(Boost(a, bandpass(a)))
  }

  /** A band-pass filter that passes nothing leaves the peak-normalised
      signal as it is: its samples lie within 0.9, so the clip never acts. */
  lemma BoostWithoutMidrange(voiced: seq<real>, isFloat32: bool, bandpass: seq<real> -> seq<real>)
    requires forall s :: |bandpass(s)| == |s|
    requires forall s, i :: 0 <= i < |s| ==> bandpass(s)[i] == 0.0
    ensures EnhanceWithBoost(voiced, isFloat32, bandpass) == EnhanceAudio(voiced, isFloat32)
  {
    if |voiced| > 0 && EnhanceAudio(voiced, isFloat32).Samples? {
      var a := EnhanceAudio(voiced, isFloat32).values;
      var b := EnhanceWithBoost(voiced, isFloat32, bandpass).values;
      forall i | 0 <= i < |a| ensures b[i] == a[i] {
        assert bandpass(a)[i] == 0.0;
        assert Abs(a[i]) <= PEAK_LEVEL;
      }
    }
  }
}
