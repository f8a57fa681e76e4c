/**
 * The beat segmenter (`ECGPreprocessor`): R-peak detection with a 60% threshold
 * and a 100-sample refractory skip, fixed 300-sample windows around each peak,
 * and per-window mean/standard-deviation normalisation. Samples are `real`;
 * `Float.parseFloat` and `Math.sqrt` are parameters.
 */
module Preprocessor {
  import opened Wrappers
  import opened JavaText

  const SEGMENT_LENGTH: nat := 300
  const HALF_SEGMENT: nat := 150
  /** `i += 100` inside the loop plus the loop's own `i++`. */
  const PEAK_STRIDE: nat := 101
  /** `Float.MIN_VALUE`, the smallest positive float, where the maximum search starts. */
  const FLOAT_MIN_VALUE: real := 0.0000000000000000000000000000000000000000000014
  /** A standard deviation below this is replaced by 1. */
  const STD_EPSILON: real := 0.0001

  function Abs(v: real): real
  {
    if v < 0.0 then -v else v
  }

  // ---------------------------------------------------------------------------
  // R-peak detection.
  // ---------------------------------------------------------------------------

  /** The running maximum of |x[i]|, started at `Float.MIN_VALUE`. */
  function MaxAbs(x: seq<real>): (m: real)
    ensures m >= FLOAT_MIN_VALUE
    ensures forall i :: 0 <= i < |x| ==> Abs(x[i]) <= m
  {
    if x == [] then FLOAT_MIN_VALUE
    else
      var m := MaxAbs(x[..|x| - 1]);
      assert forall i :: 0 <= i < |x| - 1 ==> x[..|x| - 1][i] == x[i];
      if Abs(x[|x| - 1]) > m then Abs(x[|x| - 1]) else m
  }

  /** The maximum is the starting value or the magnitude of some sample. */
  lemma {:induction false} MaxAbsAttained(x: seq<real>)
    ensures MaxAbs(x) == FLOAT_MIN_VALUE || exists i :: 0 <= i < |x| && Abs(x[i]) == MaxAbs(x)
  {
    if x != [] {
      var init := x[..|x| - 1];
      MaxAbsAttained(init);
      if MaxAbs(x) != FLOAT_MIN_VALUE && MaxAbs(x) != Abs(x[|x| - 1]) {
        assert MaxAbs(x) == MaxAbs(init);
        var i :| 0 <= i < |init| && Abs(init[i]) == MaxAbs(init);
        assert x[i] == init[i];
      }
    }
  }

  /** 60% of the maximum magnitude. */
  function Threshold(x: seq<real>): real
  {
    MaxAbs(x) * 0.6
  }

  /** A strict local maximum of |x| above the threshold, away from both ends. */
  predicate IsPeak(x: seq<real>, threshold: real, i: int)
  {
    1 <= i < |x| - 1 &&
    Abs(x[i]) > threshold && Abs(x[i]) > Abs(x[i - 1]) && Abs(x[i]) > Abs(x[i + 1])
  }

  /** The peaks the scan reports from index `i` on: after each one it jumps 101 places. */
  function PeaksFrom(x: seq<real>, threshold: real, i: nat): seq<int>
    decreases |x| - i
  {
    if i >= |x| - 1 then []
    else if IsPeak(x, threshold, i) then [i] + PeaksFrom(x, threshold, i + PEAK_STRIDE)
    else PeaksFrom(x, threshold, i + 1)
  }

  /** `detectRPeaks`: no peaks for an empty series, otherwise the scan from index 1. */
  function Peaks(x: seq<real>): seq<int>
  {
    if x == [] then [] else PeaksFrom(x, Threshold(x), 1)
  }

  method DetectRPeaks(ecgData: seq<real>) returns (rPeaks: seq<int>)
    ensures rPeaks == Peaks(ecgData)
  {
    rPeaks := [];
    if |ecgData| == 0 {
      return;
    }
    var maxVal := FLOAT_MIN_VALUE;
    var k := 0;
    while k < |ecgData|
      invariant 0 <= k <= |ecgData|
      invariant maxVal == MaxAbs(ecgData[..k])
    {
      assert ecgData[..k + 1][..k] == ecgData[..k];
      if Abs(ecgData[k]) > maxVal {
        maxVal := Abs(ecgData[k]);
      }
      k := k + 1;
    }
    assert ecgData[..k] == ecgData;
    var threshold := maxVal * 0.6;
    var i := 1;
    while i < |ecgData| - 1
      invariant 1 <= i
      invariant rPeaks + PeaksFrom(ecgData, threshold, i) == PeaksFrom(ecgData, threshold, 1)
      decreases |ecgData| - i
    {
      var current := Abs(ecgData[i]);
      var prev := Abs(ecgData[i - 1]);
      var next := Abs(ecgData[i + 1]);
      if current > threshold && current > prev && current > next {
        rPeaks := rPeaks + [i];
        i := i + 100;
      }
      i := i + 1;
    }
  }

  /** Every reported peak lies at or after `i`, is a peak, and the next one is 101 or more further on. */
  lemma {:induction false} PeaksFromSound(x: seq<real>, threshold: real, i: nat)
    ensures forall k :: 0 <= k < |PeaksFrom(x, threshold, i)| ==>
      i <= PeaksFrom(x, threshold, i)[k] && IsPeak(x, threshold, PeaksFrom(x, threshold, i)[k])
    ensures forall k :: 0 <= k < |PeaksFrom(x, threshold, i)| - 1 ==>
      PeaksFrom(x, threshold, i)[k] + PEAK_STRIDE <= PeaksFrom(x, threshold, i)[k + 1]
    decreases |x| - i
  {
    if i < |x| - 1 {
      if IsPeak(x, threshold, i) {
        PeaksFromSound(x, threshold, i + PEAK_STRIDE);
      } else {
        PeaksFromSound(x, threshold, i + 1);
      }
    }
  }

  /**
   * Every reported peak p has 1 <= p <= n - 2, |x[p]| above 60% of every
   * magnitude in the series and above both neighbours; consecutive peaks are
   * at least 101 apart, so the list is strictly increasing.
   */
  lemma PeaksSound(x: seq<real>)
    ensures forall k :: 0 <= k < |Peaks(x)| ==>
      1 <= Peaks(x)[k] <= |x| - 2 && IsPeak(x, Threshold(x), Peaks(x)[k]) &&
      forall j :: 0 <= j < |x| ==> Abs(x[Peaks(x)[k]]) > Abs(x[j]) * 0.6
    ensures forall k :: 0 <= k < |Peaks(x)| - 1 ==> Peaks(x)[k] + PEAK_STRIDE <= Peaks(x)[k + 1]
    ensures forall k, l :: 0 <= k < l < |Peaks(x)| ==> Peaks(x)[k] < Peaks(x)[l]
  {
    if x != [] {
      PeaksFromSound(x, Threshold(x), 1);
      var ps := Peaks(x);
      forall k, l | 0 <= k < l < |ps| ensures ps[k] < ps[l] {
        PeaksIncreasing(ps, k, l);
      }
    }
  }

  lemma {:induction false} PeaksIncreasing(ps: seq<int>, k: nat, l: nat)
    requires forall m :: 0 <= m < |ps| - 1 ==> ps[m] + PEAK_STRIDE <= ps[m + 1]
    requires k < l < |ps|
    ensures ps[k] < ps[l]
    decreases l - k
  {
    if k + 1 < l {
      PeaksIncreasing(ps, k + 1, l);
    }
  }

  /** An empty series has no peaks. */
  lemma NoPeaksInEmptySeries()
    ensures Peaks([]) == []
  {
  }

  /**
   * No peak is missed except in the refractory stretch after a reported one:
   * every peak j at or after `i` lies within 100 samples after some reported peak.
   */
  lemma {:induction false} PeaksFromComplete(x: seq<real>, threshold: real, i: nat, j: int)
    requires i <= j && IsPeak(x, threshold, j)
    ensures exists p :: p in PeaksFrom(x, threshold, i) && p <= j < p + PEAK_STRIDE
    decreases |x| - i
  {
    var ps := PeaksFrom(x, threshold, i);
    if IsPeak(x, threshold, i) {
      assert ps == [i] + PeaksFrom(x, threshold, i + PEAK_STRIDE);
      if j >= i + PEAK_STRIDE {
        PeaksFromComplete(x, threshold, i + PEAK_STRIDE, j);
        var p :| p in PeaksFrom(x, threshold, i + PEAK_STRIDE) && p <= j < p + PEAK_STRIDE;
        assert p in ps;
      } else {
        assert i in ps;
      }
    } else {
      assert ps == PeaksFrom(x, threshold, i + 1);
      PeaksFromComplete(x, threshold, i + 1, j);
    }
  }

  lemma PeaksComplete(x: seq<real>, j: int)
    requires IsPeak(x, Threshold(x), j)
    ensures exists p :: p in Peaks(x) && p <= j < p + PEAK_STRIDE
  {
    PeaksFromComplete(x, Threshold(x), 1, j);
    var p :| p in PeaksFrom(x, Threshold(x), 1) && p <= j < p + PEAK_STRIDE;
    assert p in Peaks(x);
  }

  /** With no peak in [i, j) the scan skips straight from i to j. */
  lemma {:induction false} PeaksFromSkip(x: seq<real>, threshold: real, i: nat, j: nat)
    requires i <= j
    requires forall k :: i <= k < j ==> !IsPeak(x, threshold, k)
    ensures j <= |x| - 1 ==> PeaksFrom(x, threshold, i) == PeaksFrom(x, threshold, j)
    ensures j > |x| - 1 ==> PeaksFrom(x, threshold, i) == []
    decreases j - i
  {
    if i < j {
      PeaksFromSkip(x, threshold, i + 1, j);
    }
  }

  // ---------------------------------------------------------------------------
  // Beat windows.
  // ---------------------------------------------------------------------------

  /** The bounds test of `extractBeatSegment`: start >= 0 and end < n. */
  predicate InWindow(n: int, p: int)
  {
    p - HALF_SEGMENT >= 0 && p + HALF_SEGMENT < n
  }

  /** The 300 samples from p - 150 up to p + 149. */
  function Window(x: seq<real>, p: int): (w: seq<real>)
    requires InWindow(|x|, p)
    ensures |w| == SEGMENT_LENGTH
    ensures forall i :: 0 <= i < SEGMENT_LENGTH ==> w[i] == x[p - HALF_SEGMENT + i]
  {
    x[p - HALF_SEGMENT..p + HALF_SEGMENT]
  }

  /** `extractBeatSegment`: null outside the bounds, otherwise a fresh array holding the window. */
  method ExtractBeatSegment(ecgData: seq<real>, rPeakIndex: int) returns (segment: array?<real>)
    ensures segment == null <==> !InWindow(|ecgData|, rPeakIndex)
    ensures segment != null ==> fresh(segment) && segment[..] == Window(ecgData, rPeakIndex)
  {
    var start := rPeakIndex - HALF_SEGMENT;
    var end := rPeakIndex + HALF_SEGMENT;
    if start < 0 || end >= |ecgData| {
      return null;
    }
    segment := new real[SEGMENT_LENGTH];
    var i := 0;
    while i < SEGMENT_LENGTH
      invariant 0 <= i <= SEGMENT_LENGTH
      invariant forall j :: 0 <= j < i ==> segment[j] == ecgData[start + j]
    {
      segment[i] := ecgData[start + i];
      i := i + 1;
    }
  }

  /** The peaks that have a full window, in their original order. */
  function Framed(n: int, peaks: seq<int>): (r: seq<int>)
    ensures |r| <= |peaks|
    ensures forall k :: 0 <= k < |r| ==> InWindow(n, r[k])
  {
    if peaks == [] then []
    else
      var rest := Framed(n, peaks[..|peaks| - 1]);
      if InWindow(n, peaks[|peaks| - 1]) then rest + [peaks[|peaks| - 1]] else rest
  }

  lemma FramedStep(n: int, peaks: seq<int>, k: nat)
    requires k < |peaks|
    ensures Framed(n, peaks[..k + 1]) == Framed(n, peaks[..k]) + if InWindow(n, peaks[k]) then [peaks[k]] else []
  {
    assert peaks[..k + 1][..k] == peaks[..k];
  }

  /** `Framed` keeps exactly the peaks whose window fits. */
  lemma {:induction false} FramedMembers(n: int, peaks: seq<int>)
    ensures forall p :: p in Framed(n, peaks) <==> p in peaks && InWindow(n, p)
  {
    if peaks != [] {
      var init := peaks[..|peaks| - 1];
      FramedMembers(n, init);
      assert peaks == init + [peaks[|peaks| - 1]];
    }
  }

  /** `Framed` keeps the order of the peaks: an increasing list stays increasing. */
  lemma {:induction false} FramedSorted(n: int, peaks: seq<int>)
    requires forall k, l :: 0 <= k < l < |peaks| ==> peaks[k] < peaks[l]
    ensures forall k, l :: 0 <= k < l < |Framed(n, peaks)| ==> Framed(n, peaks)[k] < Framed(n, peaks)[l]
  {
    if peaks != [] {
      var init, last := peaks[..|peaks| - 1], peaks[|peaks| - 1];
      assert forall k, l :: 0 <= k < l < |init| ==> init[k] < init[l];
      FramedSorted(n, init);
      FramedMembers(n, init);
      var rest := Framed(n, init);
      forall p | p in rest ensures p < last {
        var k :| 0 <= k < |init| && init[k] == p;
      }
      if InWindow(n, last) {
        var r := rest + [last];
        forall k, l | 0 <= k < l < |r| ensures r[k] < r[l] {
          if l == |r| - 1 {
            assert r[k] in rest;
          }
        }
      }
    }
  }

  // ---------------------------------------------------------------------------
  // Normalisation.
  // ---------------------------------------------------------------------------

  /** Left-to-right sum, as the accumulation loop adds. */
  function Sum(s: seq<real>): real
  {
    if s == [] then 0.0 else Sum(s[..|s| - 1]) + s[|s| - 1]
  }

  /** Sum of squared deviations from `m`. */
  function SumSquares(s: seq<real>, m: real): real
  {
    if s == [] then 0.0 else SumSquares(s[..|s| - 1], m) + (s[|s| - 1] - m) * (s[|s| - 1] - m)
  }

  function Mean(s: seq<real>): real
    requires |s| > 0
  {
    Sum(s) / |s| as real
  }

  /** The divisor: sqrt of the variance, or 1 when that falls below 0.0001. */
  function Deviation(s: seq<real>, sqrt: real -> real): (d: real)
    requires |s| > 0
    ensures d >= STD_EPSILON
  {
    var std := sqrt(SumSquares(s, Mean(s)) / |s| as real);
    if std < STD_EPSILON then 1.0 else std
  }

  /** `normalizeBeat` on values: each sample minus the mean, over the deviation; empty stays empty. */
  function Standardized(s: seq<real>, sqrt: real -> real): (r: seq<real>)
    ensures |r| == |s|
  {
    if s == [] then []
    else seq(|s|, i requires 0 <= i < |s| => (s[i] - Mean(s)) / Deviation(s, sqrt))
  }

  method NormalizeBeat(beat: array<real>, sqrt: real -> real) returns (normalized: array<real>)
    ensures beat.Length == 0 ==> normalized == beat
    ensures beat.Length > 0 ==> fresh(normalized)
    ensures normalized[..] == Standardized(beat[..], sqrt)
  {
    if beat.Length == 0 {
      return beat;
    }
    var mean, std := Moments(beat, sqrt);
    normalized := Rescale(beat, mean, std);
    ghost var want := Standardized(beat[..], sqrt);
    assert forall j :: 0 <= j < beat.Length ==> want[j] == (beat[j] - mean) / std;
    assert normalized[..] == want;
  }

  /** The mean and the divisor `normalizeBeat` computes for a non-empty beat. */
  method Moments(beat: array<real>, sqrt: real -> real) returns (mean: real, std: real)
    requires beat.Length > 0
    ensures mean == Mean(beat[..]) && std == Deviation(beat[..], sqrt)
  {
    mean := BeatSum(beat);
    mean := mean / beat.Length as real;
    var variance := BeatSquaredDeviations(beat, mean);
    std := sqrt(variance / beat.Length as real);
    if std < STD_EPSILON {
      std := 1.0;
    }
  }

  /** The third loop of `normalizeBeat`: a fresh array of the centred, scaled samples. */
  method Rescale(beat: array<real>, mean: real, std: real) returns (normalized: array<real>)
    requires std != 0.0
    ensures fresh(normalized) && normalized.Length == beat.Length
    ensures forall j :: 0 <= j < beat.Length ==> normalized[j] == (beat[j] - mean) / std
  {
    normalized := new real[beat.Length];
    var i := 0;
    while i < beat.Length
      invariant 0 <= i <= beat.Length
      invariant forall j :: 0 <= j < i ==> normalized[j] == (beat[j] - mean) / std
    {
      normalized[i] := (beat[i] - mean) / std;
      i := i + 1;
    }
  }

  /** The first loop of `normalizeBeat`: the running sum of the samples. */
  method BeatSum(beat: array<real>) returns (total: real)
    ensures total == Sum(beat[..])
  {
    total := 0.0;
    var i := 0;
    while i < beat.Length
      invariant 0 <= i <= beat.Length
      invariant total == Sum(beat[..i])
    {
      SumStep(beat[..], i);
      assert beat[..][..i + 1] == beat[..i + 1] && beat[..][..i] == beat[..i];
      total := total + beat[i];
      i := i + 1;
    }
    assert beat[..i] == beat[..];
  }

  /** The second loop of `normalizeBeat`: the running sum of squared deviations from the mean. */
  method BeatSquaredDeviations(beat: array<real>, mean: real) returns (variance: real)
    ensures variance == SumSquares(beat[..], mean)
  {
    variance := 0.0;
    var i := 0;
    while i < beat.Length
      invariant 0 <= i <= beat.Length
      invariant variance == SumSquares(beat[..i], mean)
    {
      SumSquaresStep(beat[..], mean, i);
      assert beat[..][..i + 1] == beat[..i + 1] && beat[..][..i] == beat[..i];
      variance := variance + (beat[i] - mean) * (beat[i] - mean);
      i := i + 1;
    }
    assert beat[..i] == beat[..];
  }

  lemma SumStep(s: seq<real>, i: nat)
    requires i < |s|
    ensures Sum(s[..i + 1]) == Sum(s[..i]) + s[i]
  {
    assert s[..i + 1][..i] == s[..i];
  }

  lemma SumSquaresStep(s: seq<real>, m: real, i: nat)
    requires i < |s|
    ensures SumSquares(s[..i + 1], m) == SumSquares(s[..i], m) + (s[i] - m) * (s[i] - m)
  {
    assert s[..i + 1][..i] == s[..i];
  }

  /** If every t[i] is s[i] shifted by `m` and scaled by 1/d, the sums are related the same way. */
  lemma {:induction false} SumShiftScale(s: seq<real>, t: seq<real>, m: real, d: real)
    requires |t| == |s| && d != 0.0
    requires forall i :: 0 <= i < |s| ==> t[i] == (s[i] - m) / d
    ensures Sum(t) * d == Sum(s) - |s| as real * m
    decreases |s|, 1
  {
    if s != [] {
      SumShiftScaleLast(s, t, m, d);
    } else {
      assert Sum(t) == 0.0 && Sum(s) == 0.0 && |s| as real == 0.0;
      ZeroProducts(d, m);
    }
  }

  /** The inductive step of `SumShiftScale`: the relation for all but the last sample, plus the last. */
  lemma {:induction false} SumShiftScaleLast(s: seq<real>, t: seq<real>, m: real, d: real)
    requires |t| == |s| > 0 && d != 0.0
    requires forall i :: 0 <= i < |s| ==> t[i] == (s[i] - m) / d
    ensures Sum(t) * d == Sum(s) - |s| as real * m
    decreases |s|, 0
  {
    var n := |s|;
    var s', t' := s[..n - 1], t[..n - 1];
    ShiftScalePrefix(s, t, s', t', m, d);
    SumShiftScale(s', t', m, d);
    ShiftScaleStep(Sum(t), Sum(t'), t[n - 1], Sum(s), Sum(s'), s[n - 1], |s'| as real, |s| as real, m, d);
  }

  /** Dropping the last sample of both sequences keeps the shift-and-scale relation. */
  lemma ShiftScalePrefix(s: seq<real>, t: seq<real>, s': seq<real>, t': seq<real>, m: real, d: real)
    requires |t| == |s| > 0 && s' == s[..|s| - 1] && t' == t[..|t| - 1] && d != 0.0
    requires forall i :: 0 <= i < |s| ==> t[i] == (s[i] - m) / d
    ensures forall i :: 0 <= i < |s'| ==> t'[i] == (s'[i] - m) / d
  {
  }

  lemma ZeroProducts(d: real, m: real)
    ensures 0.0 * d == 0.0 && 0.0 * m == 0.0
  {
  }

  /**
   * The arithmetic of one step of `SumShiftScale`: the sums grow by one
   * sample each, b is (x - m) / d, and the count grows by one.
   */
  lemma ShiftScaleStep(total: real, a: real, b: real, sTotal: real, sa: real, x: real, k: real, n: real, m: real, d: real)
    requires total == a + b && sTotal == sa + x && n == k + 1.0
    requires d != 0.0 && b == (x - m) / d && a * d == sa - k * m
    ensures total * d == sTotal - n * m
  {
    Distribute(a, b, d);
    CancelQuotient(x - m, d);
    Distribute(k, 1.0, m);
  }

  lemma Distribute(a: real, b: real, d: real)
    ensures (a + b) * d == a * d + b * d
  {
  }

  lemma CancelQuotient(a: real, d: real)
    requires d != 0.0
    ensures (a / d) * d == a
  {
  }

  /** If t * d == s - n * m where m is s / n, with d and n non-zero, then t is zero. */
  lemma ZeroAroundMean(t: real, s: real, n: real, m: real, d: real)
    requires d != 0.0 && n != 0.0 && m == s / n
    requires t * d == s - n * m
    ensures t == 0.0
  {
    CancelQuotient(s, n);
    assert t * d == 0.0;
  }

  /** Centring on the mean and dividing by any non-zero d gives samples that sum to zero. */
  lemma CenteredSumsToZero(s: seq<real>, t: seq<real>, d: real)
    requires |s| > 0 && |t| == |s| && d != 0.0
    requires forall i :: 0 <= i < |s| ==> t[i] == (s[i] - Mean(s)) / d
    ensures Sum(t) == 0.0
  {
    SumShiftScale(s, t, Mean(s), d);
    ZeroAroundMean(Sum(t), Sum(s), |s| as real, Mean(s), d);
  }

  /** A normalised window sums to zero. */
  lemma StandardizedSumsToZero(s: seq<real>, sqrt: real -> real)
    ensures Sum(Standardized(s, sqrt)) == 0.0
  {
    if s != [] {
      CenteredSumsToZero(s, Standardized(s, sqrt), Deviation(s, sqrt));
    }
  }

  /** The sum of a constant sequence. */
  lemma {:induction false} SumConstant(s: seq<real>, c: real)
    requires forall i :: 0 <= i < |s| ==> s[i] == c
    ensures Sum(s) == |s| as real * c
  {
    if s != [] {
      SumConstant(s[..|s| - 1], c);
    }
  }

  /** A constant window normalises to all zeros, whatever the square root gives. */
  lemma StandardizedConstant(s: seq<real>, c: real, sqrt: real -> real)
    requires forall i :: 0 <= i < |s| ==> s[i] == c
    ensures forall i :: 0 <= i < |s| ==> Standardized(s, sqrt)[i] == 0.0
  {
    if s != [] {
      SumConstant(s, c);
      assert Mean(s) == c;
      forall i | 0 <= i < |s| ensures Standardized(s, sqrt)[i] == 0.0 {
        assert Standardized(s, sqrt)[i] == (s[i] - Mean(s)) / Deviation(s, sqrt);
        assert s[i] - Mean(s) == 0.0;
      }
    }
  }

  // ---------------------------------------------------------------------------
  // Parsing and assembly.
  // ---------------------------------------------------------------------------

  /** The samples read from the lines: each trimmed line that parses as a float, in order. */
  function ParsedSamples(lines: seq<string>, parseFloat: string -> Option<real>): (r: seq<real>)
    ensures |r| <= |lines|
  {
    if lines == [] then []
    else
      ParsedSamples(lines[..|lines| - 1], parseFloat) +
      match parseFloat(Trim(lines[|lines| - 1]))
      case Some(v) => [v]
      case None => []
  }

  /** Reading is line by line: the samples of two blocks are the samples of each, concatenated. */
  lemma {:induction false} ParsedSamplesAppend(a: seq<string>, b: seq<string>, parseFloat: string -> Option<real>)
    ensures ParsedSamples(a + b, parseFloat) == ParsedSamples(a, parseFloat) + ParsedSamples(b, parseFloat)
    decreases |b|
  {
    if b == [] {
      assert a + b == a;
    } else {
      assert (a + b)[..|a + b| - 1] == a + b[..|b| - 1];
      ParsedSamplesAppend(a, b[..|b| - 1], parseFloat);
    }
  }

  /** A line that does not parse is skipped; one that does adds exactly its value. */
  lemma ParsedSamplesOneLine(line: string, parseFloat: string -> Option<real>)
    ensures parseFloat(Trim(line)).None? ==> ParsedSamples([line], parseFloat) == []
    ensures parseFloat(Trim(line)).Some? ==> ParsedSamples([line], parseFloat) == [parseFloat(Trim(line)).value]
  {
    assert [line][..0] == [];
  }

  /** `ProcessedECGData`: the normalised beats and the peak each was cut around. */
  class ProcessedECGData {
    var normalizedBeats: seq<seq<real>>
    var rPeakIndices: seq<int>

    constructor ()
      ensures normalizedBeats == [] && rPeakIndices == []
    {
      normalizedBeats := [];
      rPeakIndices := [];
    }

    method SetRPeakIndices(indices: seq<int>)
      modifies this
      ensures rPeakIndices == indices && normalizedBeats == old(normalizedBeats)
    {
      rPeakIndices := indices;
    }
  }

  /** The reading loop of `processCSVData`: each trimmed line that parses adds one sample. */
  method ReadSamples(lines: seq<string>, parseFloat: string -> Option<real>) returns (ecgData: seq<real>)
    ensures ecgData == ParsedSamples(lines, parseFloat)
  {
    ecgData := [];
    var n := 0;
    while n < |lines|
      invariant 0 <= n <= |lines|
      invariant ecgData == ParsedSamples(lines[..n], parseFloat)
    {
      assert lines[..n + 1][..n] == lines[..n];
      var value := parseFloat(Trim(lines[n]));
      if value.Some? {
        ecgData := ecgData + [value.value];
      }
      n := n + 1;
    }
    assert lines[..n] == lines;
  }

  /**
   * `processCSVData` after the stream has been split into lines: parse, detect
   * the peaks, and keep a normalised window for each peak whose window fits.
   */
  method ProcessCSVData(lines: seq<string>, parseFloat: string -> Option<real>, sqrt: real -> real)
    returns (result: ProcessedECGData)
    ensures fresh(result)
    ensures result.rPeakIndices == Framed(|ParsedSamples(lines, parseFloat)|, Peaks(ParsedSamples(lines, parseFloat)))
    ensures BeatsMatch(result.normalizedBeats, result.rPeakIndices, ParsedSamples(lines, parseFloat), sqrt)
  {
    result := new ProcessedECGData();
    var ecgData := ReadSamples(lines, parseFloat);
    var rPeaks := DetectRPeaks(ecgData);
    var k := 0;
    while k < |rPeaks|
      invariant 0 <= k <= |rPeaks|
      invariant result.rPeakIndices == Framed(|ecgData|, rPeaks[..k])
      invariant BeatsMatch(result.normalizedBeats, result.rPeakIndices, ecgData, sqrt)
    {
      FramedStep(|ecgData|, rPeaks, k);
      AddBeat(result, ecgData, rPeaks[k], sqrt);
      k := k + 1;
    }
    assert rPeaks[..k] == rPeaks;
  }

  /** Beat k of `beats` is the normalised window around peak k of `indices`. */
  ghost predicate BeatsMatch(beats: seq<seq<real>>, indices: seq<int>, ecgData: seq<real>, sqrt: real -> real)
  {
    |beats| == |indices| &&
    forall j :: 0 <= j < |indices| ==>
      InWindow(|ecgData|, indices[j]) && beats[j] == Standardized(Window(ecgData, indices[j]), sqrt)
  }

  /**
   * One turn of the assembly loop of `processCSVData`: a peak whose window
   * fits adds its index and its normalised window; any other peak is skipped.
   */
  method AddBeat(result: ProcessedECGData, ecgData: seq<real>, rPeak: int, sqrt: real -> real)
    modifies result
    ensures result.rPeakIndices == old(result.rPeakIndices) + if InWindow(|ecgData|, rPeak) then [rPeak] else []
    ensures BeatsMatch(old(result.normalizedBeats), old(result.rPeakIndices), ecgData, sqrt) ==>
      BeatsMatch(result.normalizedBeats, result.rPeakIndices, ecgData, sqrt)
  {
    var beat := ExtractBeatSegment(ecgData, rPeak);
    if beat != null {
      var normalizedBeat := NormalizeBeat(beat, sqrt);
      ghost var beats, indices := result.normalizedBeats, result.rPeakIndices;
      result.normalizedBeats := result.normalizedBeats + [normalizedBeat[..]];
      result.rPeakIndices := result.rPeakIndices + [rPeak];
      BeatsMatchAppend(beats, indices, ecgData, sqrt, rPeak);
    }
  }

  lemma BeatsMatchAppend(beats: seq<seq<real>>, indices: seq<int>, ecgData: seq<real>, sqrt: real -> real, p: int)
    requires InWindow(|ecgData|, p)
    ensures BeatsMatch(beats, indices, ecgData, sqrt) ==>
      BeatsMatch(beats + [Standardized(Window(ecgData, p), sqrt)], indices + [p], ecgData, sqrt)
  {
  }

  /**
   * A series that is zero except for one positive float at p, with
   * 150 <= p <= n - 151, gives exactly one peak and one window.
   */
  lemma SingleSpike(x: seq<real>, p: nat, c: real)
    requires HALF_SEGMENT <= p && p + HALF_SEGMENT < |x|
    requires c >= FLOAT_MIN_VALUE && x[p] == c
    requires forall i :: 0 <= i < |x| && i != p ==> x[i] == 0.0
    ensures Peaks(x) == [p]
    ensures Framed(|x|, Peaks(x)) == [p]
  {
    SpikeIsOnlyPeak(x, p, c);
    var thr := Threshold(x);
    PeaksFromSkip(x, thr, 1, p);
    assert PeaksFrom(x, thr, p) == [p] + PeaksFrom(x, thr, p + PEAK_STRIDE);
    PeaksFromSkip(x, thr, p + PEAK_STRIDE, |x|);
    assert Framed(|x|, [p]) == Framed(|x|, []) + [p];
  }

  /** In such a series the spike sets the maximum and is the one sample that passes the peak test. */
  lemma SpikeIsOnlyPeak(x: seq<real>, p: nat, c: real)
    requires 1 <= p && p + 1 < |x|
    requires c >= FLOAT_MIN_VALUE && x[p] == c
    requires forall i :: 0 <= i < |x| && i != p ==> x[i] == 0.0
    ensures MaxAbs(x) == c
    ensures forall k :: IsPeak(x, Threshold(x), k) <==> k == p
  {
    MaxAbsAttained(x);
    assert Abs(x[p]) == c;
    if MaxAbs(x) != FLOAT_MIN_VALUE {
      var i :| 0 <= i < |x| && Abs(x[i]) == MaxAbs(x);
      assert Abs(x[i]) <= c;
    }
    assert MaxAbs(x) == c;
    forall k ensures IsPeak(x, Threshold(x), k) <==> k == p {
      if k != p && 1 <= k < |x| - 1 {
        assert Abs(x[k]) == 0.0;
      }
    }
  }
}
