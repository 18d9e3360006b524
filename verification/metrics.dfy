/** Signal-quality metrics: the signal-to-noise ratio, the five artifact
    detectors with their fixed priority, the adaptive variance baseline they
    share, the 0..100 quality score and the per-channel quality record. */
module Metrics {
  import opened Wrappers
  import opened Seqs
  import opened Kernels
  import opened Config
  import opened Filters

  datatype ArtifactType = Clean | HighVariance | MuscleArtifact | Saturation | LineNoise | LowSignal

  /** The enum's `.value`, as logged and reported per channel. */
  function ArtifactName(t: ArtifactType): (s: string)
    ensures |s| > 0
  {
    match t
    case Clean => "clean"
    case HighVariance => "high_variance"
    case MuscleArtifact => "muscle_artifact"
    case Saturation => "saturation"
    case LineNoise => "line_noise"
    case LowSignal => "low_signal"
  }

  /** Distinct artifact types are reported under distinct names. */
  lemma ArtifactNamesDistinct(a: ArtifactType, b: ArtifactType)
    ensures ArtifactName(a) == ArtifactName(b) ==> a == b
  {
  }

  // ---------------------------------------------------------------------
  // Signal-to-noise ratio.

  const NoiseLow := 30.0
  const NoiseHigh := 40.0

  /** `compute_snr`: 0 dB for a signal shorter than one second or with no
      power in the noise band; otherwise ten times the decimal logarithm of
      alpha power over noise power, so its sign says which of the two is
      larger. */
  function Snr(k: Kernels, c: SignalConfig, x: seq<real>, noiseLow: real, noiseHigh: real): (r: real)
    requires k.Valid()
    ensures (|x| as real) < c.samplingRate ==> r == 0.0
    ensures BandPower(k, c, x, noiseLow, noiseHigh) == 0.0 ==> r == 0.0
    ensures 0.0 < AlphaPower(k, c, x) && BandPower(k, c, x, noiseLow, noiseHigh) > 0.0 ==>
      (r > 0.0 <==> !((|x| as real) < c.samplingRate) && AlphaPower(k, c, x) > BandPower(k, c, x, noiseLow, noiseHigh))
    ensures 0.0 < AlphaPower(k, c, x) ==>
      (r < 0.0 <==> !((|x| as real) < c.samplingRate) && AlphaPower(k, c, x) < BandPower(k, c, x, noiseLow, noiseHigh))
    ensures !((|x| as real) < c.samplingRate) && BandPower(k, c, x, noiseLow, noiseHigh) > 0.0 ==>
      r == 10.0 * k.log10(AlphaPower(k, c, x) / BandPower(k, c, x, noiseLow, noiseHigh))
  {
    if (|x| as real) < c.samplingRate then 0.0
    else
      var signal := AlphaPower(k, c, x);
      var noise := BandPower(k, c, x, noiseLow, noiseHigh);
      if noise <= 0.0 then 0.0
      else
        LogRatioSign(k, signal, noise);
        10.0 * k.log10(signal / noise)
  }

  /** For two positive powers, the logarithm of their ratio is positive
      exactly when the numerator is the larger and negative exactly when it
      is the smaller. */
  lemma LogRatioSign(k: Kernels, signal: real, noise: real)
    requires k.Valid()
    requires 0.0 <= signal && 0.0 < noise
    ensures 0.0 < signal ==> (k.log10(signal / noise) > 0.0 <==> signal > noise)
    ensures 0.0 < signal ==> (k.log10(signal / noise) < 0.0 <==> signal < noise)
  {
    var q := signal / noise;
    assert q * noise == signal;
    RatioAbove(signal, noise, 1.0);
    RatioBelow(signal, noise, 1.0);
    if 0.0 < signal {
      if signal > noise {
        assert k.log10(1.0) < k.log10(q);
      } else if signal < noise {
        assert 0.0 < q by { RatioAbove(signal, noise, 0.0); }
        assert k.log10(q) < k.log10(1.0);
      } else {
        assert q == 1.0;
      }
    }
  }

  // ---------------------------------------------------------------------
  // Saturation.

  const AdcMin := 0.0
  const AdcMax := 1023.0

  /** The two thresholds 5 % of the ADC range inside either end. */
  function SaturationLow(adcMin: real, adcMax: real): real {
    adcMin + (adcMax - adcMin) * 0.05
  }

  function SaturationHigh(adcMin: real, adcMax: real): real {
    adcMax - (adcMax - adcMin) * 0.05
  }

  lemma DefaultSaturationThresholds()
    ensures SaturationLow(AdcMin, AdcMax) == 51.15
    ensures SaturationHigh(AdcMin, AdcMax) == 971.85
  {
  }

  /** Number of samples at or beyond either threshold. */
  function SaturatedCount(x: seq<real>, low: real, high: real): (n: nat)
    ensures n <= |x|
    ensures (forall i :: 0 <= i < |x| ==> low < x[i] < high) ==> n == 0
    ensures (forall i :: 0 <= i < |x| ==> x[i] <= low || x[i] >= high) ==> n == |x|
    decreases |x|
  {
    if |x| == 0 then 0
    else
      SaturatedCount(x[..|x| - 1], low, high)
      + (if x[|x| - 1] <= low || x[|x| - 1] >= high then 1 else 0)
  }

  /** `detect_saturation`: the fraction of samples near either end of the
      ADC range exceeds the configured threshold; an empty signal (a
      0/0 ratio) is never saturated. */
  function DetectSaturation(a: ArtifactConfig, x: seq<real>, adcMin: real, adcMax: real): (r: bool)
    ensures |x| == 0 ==> !r
    ensures |x| > 0 ==>
      (r <==> (SaturatedCount(x, SaturationLow(adcMin, adcMax), SaturationHigh(adcMin, adcMax)) as real)
                > a.saturationThreshold * (|x| as real))
  {
    if |x| == 0 then false
    else
      var n := SaturatedCount(x, SaturationLow(adcMin, adcMax), SaturationHigh(adcMin, adcMax));
      RatioAbove(n as real, |x| as real, a.saturationThreshold);
      (n as real) / (|x| as real) > a.saturationThreshold
  }

  /** A signal whose samples all stay strictly inside the thresholds is
      never saturated, whatever the (non-negative) ratio threshold. */
  lemma InRangeNotSaturated(a: ArtifactConfig, x: seq<real>, adcMin: real, adcMax: real)
    requires 0.0 <= a.saturationThreshold
    requires forall i :: 0 <= i < |x| ==>
      SaturationLow(adcMin, adcMax) < x[i] < SaturationHigh(adcMin, adcMax)
    ensures !DetectSaturation(a, x, adcMin, adcMax)
  {
  }

  /** A non-empty signal pinned at the rails is saturated under any
      threshold below one. */
  lemma RailedSaturated(a: ArtifactConfig, x: seq<real>, adcMin: real, adcMax: real)
    requires |x| > 0 && a.saturationThreshold < 1.0
    requires forall i :: 0 <= i < |x| ==>
      x[i] <= SaturationLow(adcMin, adcMax) || x[i] >= SaturationHigh(adcMin, adcMax)
    ensures DetectSaturation(a, x, adcMin, adcMax)
  {
    var count := SaturatedCount(x, SaturationLow(adcMin, adcMax), SaturationHigh(adcMin, adcMax));
    assert count == |x|;
    BelowOneScales(a.saturationThreshold, |x|);
  }

  /** Scaling a positive count by a factor below one makes it smaller. */
  lemma BelowOneScales(t: real, n: nat)
    requires t < 1.0 && n > 0
    ensures (n as real) > t * (n as real)
  {
    var m := n as real;
    assert m - t * m == (1.0 - t) * m;
  }

  // ---------------------------------------------------------------------
  // The power-based detectors.

  /** `detect_muscle_artifact`: beta power above the configured threshold. */
  function DetectMuscle(k: Kernels, c: SignalConfig, a: ArtifactConfig, x: seq<real>): (r: bool)
    requires k.Valid()
    ensures r <==> BandPower(k, c, x, c.betaLow, c.betaHigh) > a.betaPowerThreshold
    ensures |x| < 2 * c.filterOrder ==> (r <==> a.betaPowerThreshold < 0.0)
  {
    BetaPower(k, c, x) > a.betaPowerThreshold
  }

  /** `detect_line_noise` of the metrics: mains-band power above the limit. */
  function DetectLineNoise(k: Kernels, c: SignalConfig, a: ArtifactConfig, x: seq<real>): (r: bool)
    requires k.Valid()
    ensures r <==> BandPower(k, c, x, c.notchFreq - 2.0, c.notchFreq + 2.0) > a.maxLineNoisePower
    ensures |x| < 2 * c.filterOrder ==> (r <==> a.maxLineNoisePower < 0.0)
  {
    LineNoisePower(k, c, x) > a.maxLineNoisePower
  }

  const MinExpectedPower := 1.0

  /** `detect_low_signal`: mean-square power below 1; an empty signal (a NaN
      mean) is not low. */
  function DetectLowSignal(x: seq<real>): (r: bool)
    ensures |x| == 0 ==> !r
    ensures |x| > 0 ==> (r <==> SumSq(x) < (|x| as real) * MinExpectedPower)
  {
    if |x| == 0 then false
    else
      RatioBelow(SumSq(x), |x| as real, MinExpectedPower);
      MeanSquare(x) < MinExpectedPower
  }

  lemma {:induction false} SumSqAtLeast(x: seq<real>, c: real)
    requires forall i :: 0 <= i < |x| ==> x[i] * x[i] >= c
    ensures SumSq(x) >= (|x| as real) * c
    decreases |x|
  {
    if |x| > 0 {
      SumSqAtLeast(x[..|x| - 1], c);
    }
  }

  /** A signal whose every sample has magnitude at least 1 is not low. */
  lemma UnitAmplitudeNotLow(x: seq<real>)
    requires forall i :: 0 <= i < |x| ==> x[i] * x[i] >= 1.0
    ensures !DetectLowSignal(x)
  {
    SumSqAtLeast(x, 1.0);
  }

  /** A non-empty flat-zero signal (a disconnected electrode) is low. */
  lemma ZeroSignalLow(n: nat)
    requires n > 0
    ensures DetectLowSignal(Zeros(n))
  {
    ZerosSumSq(Zeros(n));
  }

  // ---------------------------------------------------------------------
  // The adaptive variance baseline.

  const HistoryCapacity := 100
  const MinHistory := 10

  /** `variance_history` (oldest first) and `median_variance`. */
  datatype Baseline = Baseline(history: seq<real>, median: Option<real>)

  /** The state after construction and after `reset_adaptive_metrics`. */
  const InitialBaseline := Baseline([], None)

  /** What every reachable baseline satisfies: at most 100 variances, all
      non-negative; a median exactly when at least 10 are held, and then it
      is the median of the variances held now. */
  predicate BaselineInvariant(b: Baseline) {
    && |b.history| <= HistoryCapacity
    && AllNonNegative(b.history)
    && (b.median.Some? <==> |b.history| >= MinHistory)
    && (b.median.Some? ==> b.median.value == Median(b.history))
  }

  /** The history after recording one more variance: appended, and the
      oldest dropped when more than 100 are held. */
  function Record(h: seq<real>, v: real): (r: seq<real>)
    ensures |h| <= HistoryCapacity ==> |r| <= HistoryCapacity
    ensures |r| > 0 && r[|r| - 1] == v
    ensures |h| < HistoryCapacity ==> r == h + [v]
    ensures |h| == HistoryCapacity ==> r == h[1..] + [v]
  {
    var t := h + [v];
    if |t| > HistoryCapacity then t[1..] else t
  }

  /** A variance is unstable when it exceeds the median variance times the
      configured multiplier. */
  predicate AboveMedian(a: ArtifactConfig, v: real, median: real)
  {
    v > median * a.varianceThresholdMultiplier
  }

  /** `detect_high_variance_artifact` with the window's variance `v`: the
      variance is recorded; with fewer than 10 held nothing is flagged and
      the median is left alone, otherwise the median is recomputed and the
      window is flagged when its variance exceeds the median times the
      multiplier. */
  function UpdateVariance(a: ArtifactConfig, b: Baseline, v: real): (r: (bool, Baseline))
    ensures r.1.history == Record(b.history, v)
    ensures |r.1.history| < MinHistory ==> !r.0 && r.1.median == b.median
    ensures |r.1.history| >= MinHistory ==>
      r.1.median == Some(Median(r.1.history))
      && (r.0 <==> AboveMedian(a, v, Median(r.1.history)))
  {
    var h := Record(b.history, v);
    if |h| >= MinHistory then
      var m := Median(h);
      (AboveMedian(a, v, m), Baseline(h, Some(m)))
    else (false, Baseline(h, b.median))
  }

  /** Recording a non-negative variance keeps the baseline invariant. */
  lemma UpdateVariancePreserves(a: ArtifactConfig, b: Baseline, v: real)
    requires BaselineInvariant(b) && 0.0 <= v
    ensures BaselineInvariant(UpdateVariance(a, b, v).1)
  {
    var h := Record(b.history, v);
    if |b.history| < HistoryCapacity {
      assert h == b.history + [v];
      assert forall i :: 0 <= i < |b.history| ==> h[i] == b.history[i];
    } else {
      assert h == b.history[1..] + [v];
      assert forall i :: 0 <= i < |b.history| - 1 ==> h[i] == b.history[i + 1];
    }
  }

  /** The baseline after recording the variances `vs` in order. */
  function Feed(a: ArtifactConfig, b: Baseline, vs: seq<real>): Baseline
    decreases |vs|
  {
    if |vs| == 0 then b else UpdateVariance(a, Feed(a, b, vs[..|vs| - 1]), vs[|vs| - 1]).1
  }

  /** From a fresh or reset baseline, the history is exactly the last (at
      most) 100 variances recorded. */
  lemma {:induction false} FeedKeepsLastHundred(a: ArtifactConfig, vs: seq<real>)
    ensures Feed(a, InitialBaseline, vs).history == PyTail(vs, HistoryCapacity)
    decreases |vs|
  {
    if |vs| > 0 {
      var p := vs[..|vs| - 1];
      var v := vs[|vs| - 1];
      assert p + [v] == vs;
      calc {
        Feed(a, InitialBaseline, vs).history;
        { FeedHistoryStep(a, InitialBaseline, vs); }
        Record(Feed(a, InitialBaseline, p).history, v);
        { FeedKeepsLastHundred(a, p); }
        Record(PyTail(p, HistoryCapacity), v);
        { RecordTail(p, v); }
        PyTail(vs, HistoryCapacity);
      }
    }
  }

  /** Feeding one more variance records it onto the history fed so far. */
  lemma FeedHistoryStep(a: ArtifactConfig, b: Baseline, vs: seq<real>)
    requires |vs| > 0
    ensures Feed(a, b, vs).history == Record(Feed(a, b, vs[..|vs| - 1]).history, vs[|vs| - 1])
  {
  }

  /** Recording onto the last 100 of `p` gives the last 100 of `p + [v]`. */
  lemma RecordTail(p: seq<real>, v: real)
    ensures Record(PyTail(p, HistoryCapacity), v) == PyTail(p + [v], HistoryCapacity)
  {
    var h := PyTail(p, HistoryCapacity);
    if |p| >= HistoryCapacity {
      assert h == p[|p| - HistoryCapacity..];
      assert h[1..] + [v] == (p + [v])[|p| + 1 - HistoryCapacity..];
    }
  }

  /** No high-variance artifact is reported before 10 variances have been
      recorded since the last reset. */
  lemma WarmupNeverFlags(a: ArtifactConfig, vs: seq<real>, v: real)
    requires |vs| < MinHistory - 1
    ensures !UpdateVariance(a, Feed(a, InitialBaseline, vs), v).0
  {
    FeedKeepsLastHundred(a, vs);
  }

  // ---------------------------------------------------------------------
  // Combined detection.

  /** `detect_artifacts`: the detectors in the fixed order low signal,
      saturation, muscle, high variance, line noise; the first to fire names
      the artifact. The variance baseline is updated only when the first
      three let the window through. */
  function DetectArtifacts(k: Kernels, c: SignalConfig, a: ArtifactConfig, b: Baseline, x: seq<real>)
    : (r: (bool, ArtifactType, Baseline))
    requires k.Valid() && |x| > 0
    ensures r.0 <==> r.1 != Clean
    ensures r.1 == LowSignal <==> DetectLowSignal(x)
    ensures r.1 == Saturation <==> !DetectLowSignal(x) && DetectSaturation(a, x, AdcMin, AdcMax)
    ensures r.1 == MuscleArtifact <==>
      !DetectLowSignal(x) && !DetectSaturation(a, x, AdcMin, AdcMax) && DetectMuscle(k, c, a, x)
    ensures !DetectLowSignal(x) && !DetectSaturation(a, x, AdcMin, AdcMax) && !DetectMuscle(k, c, a, x) ==>
      && r.2 == UpdateVariance(a, b, Variance(x)).1
      && (r.1 == HighVariance <==> UpdateVariance(a, b, Variance(x)).0)
      && (r.1 == LineNoise <==> !UpdateVariance(a, b, Variance(x)).0 && DetectLineNoise(k, c, a, x))
    ensures DetectLowSignal(x) || DetectSaturation(a, x, AdcMin, AdcMax) || DetectMuscle(k, c, a, x) ==>
      r.2 == b
  {
    if DetectLowSignal(x) then (true, LowSignal, b)
    else if DetectSaturation(a, x, AdcMin, AdcMax) then (true, Saturation, b)
    else if DetectMuscle(k, c, a, x) then (true, MuscleArtifact, b)
    else
      var (high, b') := UpdateVariance(a, b, Variance(x));
      if high then (true, HighVariance, b')
      else if DetectLineNoise(k, c, a, x) then (true, LineNoise, b')
      else (false, Clean, b')
  }

  /** A window is clean exactly when no detector fires, the variance check
      judged against the baseline it is given. */
  lemma CleanIffNoDetector(k: Kernels, c: SignalConfig, a: ArtifactConfig, b: Baseline, x: seq<real>)
    requires k.Valid() && |x| > 0
    ensures !DetectArtifacts(k, c, a, b, x).0 <==>
      && !DetectLowSignal(x)
      && !DetectSaturation(a, x, AdcMin, AdcMax)
      && !DetectMuscle(k, c, a, x)
      && !UpdateVariance(a, b, Variance(x)).0
      && !DetectLineNoise(k, c, a, x)
  {
  }

  /** Detection keeps the baseline invariant. */
  lemma DetectArtifactsPreserves(k: Kernels, c: SignalConfig, a: ArtifactConfig, b: Baseline, x: seq<real>)
    requires k.Valid() && |x| > 0 && BaselineInvariant(b)
    ensures BaselineInvariant(DetectArtifacts(k, c, a, b, x).2)
  {
    UpdateVariancePreserves(a, b, Variance(x));
  }

  // ---------------------------------------------------------------------
  // Quality score.

  /** `max(0.0, min(100.0, s))`. */
  function Clip(s: real): (r: real)
    ensures 0.0 <= r <= 100.0
    ensures 0.0 <= s <= 100.0 ==> r == s
  {
    MaxReal(0.0, MinReal(100.0, s))
  }

  /** Penalty for a low average SNR: three points per dB short, at most 30. */
  function SnrPenalty(a: ArtifactConfig, avgSnr: real): (p: real)
    ensures 0.0 <= p <= 30.0
    ensures p == 0.0 <==> avgSnr >= a.minSnrDb
    ensures a.minSnrDb - 10.0 < avgSnr < a.minSnrDb ==> p == 3.0 * (a.minSnrDb - avgSnr)
    ensures avgSnr <= a.minSnrDb - 10.0 ==> p == 30.0
  {
    if avgSnr < a.minSnrDb then MinReal((a.minSnrDb - avgSnr) * 3.0, 30.0) else 0.0
  }

  /** The two channels' variances differ by more than twice the baseline median. */
  predicate VarianceUnstable(median: Option<real>, lv: real, rv: real) {
    median.Some? && median.value > 0.0 && Abs(lv - rv) / median.value > 2.0
  }

  /** One channel carries more than ten times the other's power. */
  predicate PowerAsymmetric(lp: real, rp: real) {
    lp > 0.0 && rp > 0.0 && MaxReal(lp, rp) / MinReal(lp, rp) > 10.0
  }

  /** The score's outcome together with the baseline it leaves behind and
      the verdicts it was assembled from. */
  datatype Score = Score(
    value: real,
    baseline: Baseline,
    avgSnr: real,
    leftArtifact: bool,
    rightArtifact: bool,
    varianceUnstable: bool,
    powerAsymmetric: bool)

  /** `compute_quality_score`: start from 100, subtract the SNR penalty, 40
      for an artifact on either channel, 15 for unstable variance against
      the median left by both detections, 15 for power asymmetry, and clip.
      The result is a perfect 100 exactly when no penalty applies; an
      artifact caps it at 60 and its absence guarantees at least 40. */
  function QualityScore(k: Kernels, c: SignalConfig, a: ArtifactConfig, b: Baseline,
                        left: seq<real>, right: seq<real>): (s: Score)
    requires k.Valid() && |left| > 0 && |right| > 0
    ensures 0.0 <= s.value <= 100.0
    ensures s.leftArtifact == DetectArtifacts(k, c, a, b, left).0
    ensures s.rightArtifact == DetectArtifacts(k, c, a, DetectArtifacts(k, c, a, b, left).2, right).0
    ensures s.baseline == DetectArtifacts(k, c, a, DetectArtifacts(k, c, a, b, left).2, right).2
    ensures s.avgSnr == (Snr(k, c, left, NoiseLow, NoiseHigh) + Snr(k, c, right, NoiseLow, NoiseHigh)) / 2.0
    ensures s.varianceUnstable == VarianceUnstable(s.baseline.median, Variance(left), Variance(right))
    ensures s.powerAsymmetric == PowerAsymmetric(MeanSquare(left), MeanSquare(right))
    ensures s.value == 100.0 <==>
      s.avgSnr >= a.minSnrDb && !s.leftArtifact && !s.rightArtifact
      && !s.varianceUnstable && !s.powerAsymmetric
    ensures s.leftArtifact || s.rightArtifact ==> s.value <= 60.0
    ensures !s.leftArtifact && !s.rightArtifact ==> s.value >= 40.0
    ensures s.value + SnrPenalty(a, s.avgSnr)
      + (if s.leftArtifact || s.rightArtifact then 40.0 else 0.0)
      + (if s.varianceUnstable then 15.0 else 0.0)
      + (if s.powerAsymmetric then 15.0 else 0.0) == 100.0
  {
    var avg := (Snr(k, c, left, NoiseLow, NoiseHigh) + Snr(k, c, right, NoiseLow, NoiseHigh)) / 2.0;
    var (la, _, b1) := DetectArtifacts(k, c, a, b, left);
    var (ra, _, b2) := DetectArtifacts(k, c, a, b1, right);
    var unstable := VarianceUnstable(b2.median, Variance(left), Variance(right));
    var asym := PowerAsymmetric(MeanSquare(left), MeanSquare(right));
    Score(ScoreValue(a, avg, la || ra, unstable, asym), b2, avg, la, ra, unstable, asym)
  }

  /** The score's number once the verdicts are known. The deductions add
      up to at most 30 + 40 + 15 + 15 = 100, so the clip never binds: the
      score and its deductions always sum to exactly 100. */
  function ScoreValue(a: ArtifactConfig, avgSnr: real, artifact: bool, unstable: bool, asym: bool): (v: real)
    ensures 0.0 <= v <= 100.0
    ensures v == 100.0 <==> avgSnr >= a.minSnrDb && !artifact && !unstable && !asym
    ensures artifact ==> v <= 60.0
    ensures !artifact ==> v >= 40.0
    ensures v + SnrPenalty(a, avgSnr)
      + (if artifact then 40.0 else 0.0)
      + (if unstable then 15.0 else 0.0)
      + (if asym then 15.0 else 0.0) == 100.0
  {
    Clip(100.0 - SnrPenalty(a, avgSnr)
      - (if artifact then 40.0 else 0.0)
      - (if unstable then 15.0 else 0.0)
      - (if asym then 15.0 else 0.0))
  }

  /** Scoring keeps the baseline invariant. */
  lemma QualityScorePreserves(k: Kernels, c: SignalConfig, a: ArtifactConfig, b: Baseline,
                              left: seq<real>, right: seq<real>)
    requires k.Valid() && |left| > 0 && |right| > 0 && BaselineInvariant(b)
    ensures BaselineInvariant(QualityScore(k, c, a, b, left, right).baseline)
  {
    DetectArtifactsPreserves(k, c, a, b, left);
    DetectArtifactsPreserves(k, c, a, DetectArtifacts(k, c, a, b, left).2, right);
  }

  // ---------------------------------------------------------------------
  // Per-channel quality.

  datatype ChannelQuality = ChannelQuality(
    snrDb: real,
    hasArtifact: bool,
    artifactType: ArtifactType,
    signalPower: real,
    variance: real,
    alphaPower: real,
    betaPower: real,
    qualityOk: bool)

  /** `compute_channel_quality`: the channel is fit for use exactly when it
      shows no artifact and its SNR reaches the minimum; the detection also
      advances the variance baseline, returned alongside. */
  function ChannelQualityOf(k: Kernels, c: SignalConfig, a: ArtifactConfig, b: Baseline, x: seq<real>)
    : (r: (ChannelQuality, Baseline))
    requires k.Valid() && |x| > 0
    ensures r.0.qualityOk <==> r.0.artifactType == Clean && r.0.snrDb >= a.minSnrDb
    ensures r.0.hasArtifact <==> r.0.artifactType != Clean
    ensures r.0.artifactType == DetectArtifacts(k, c, a, b, x).1
    ensures r.1 == DetectArtifacts(k, c, a, b, x).2
    ensures r.0.snrDb == Snr(k, c, x, NoiseLow, NoiseHigh)
    ensures r.0.signalPower >= 0.0 && r.0.variance >= 0.0
    ensures r.0.alphaPower >= 0.0 && r.0.betaPower >= 0.0
    ensures r.0.signalPower == MeanSquare(x) && r.0.variance == Variance(x)
    ensures r.0.alphaPower == AlphaPower(k, c, x) && r.0.betaPower == BetaPower(k, c, x)
  {
    var snr := Snr(k, c, x, NoiseLow, NoiseHigh);
    var (art, kind, b') := DetectArtifacts(k, c, a, b, x);
    (ChannelQuality(snr, art, kind, MeanSquare(x), Variance(x), AlphaPower(k, c, x), BetaPower(k, c, x),
                    !art && snr >= a.minSnrDb), b')
  }

  /** The powers a channel report carries explain its verdict: it is a low
      signal exactly when its mean power is below the expected minimum, a
      muscle artifact only with beta power above the threshold, and clean
      only when neither holds. */
  lemma ChannelQualityExplains(k: Kernels, c: SignalConfig, a: ArtifactConfig, b: Baseline, x: seq<real>)
    requires k.Valid() && |x| > 0
    ensures var q := ChannelQualityOf(k, c, a, b, x).0;
      && (q.artifactType == LowSignal <==> q.signalPower < MinExpectedPower)
      && (q.artifactType == MuscleArtifact ==> q.betaPower > a.betaPowerThreshold)
      && (q.artifactType == Clean ==> q.signalPower >= MinExpectedPower && q.betaPower <= a.betaPowerThreshold)
  {
    var q := ChannelQualityOf(k, c, a, b, x).0;
    assert DetectLowSignal(x) <==> MeanSquare(x) < MinExpectedPower;
    assert DetectMuscle(k, c, a, x) <==> BetaPower(k, c, x) > a.betaPowerThreshold;
    CleanIffNoDetector(k, c, a, b, x);
  }

  /** `reset_adaptive_metrics`: the history is cleared and the median
      forgotten, which restarts the ten-window warm-up. */
  function Reset(b: Baseline): (r: Baseline)
    ensures BaselineInvariant(r)
    ensures |r.history| == 0 && r.median.None?
  {
    InitialBaseline
  }
}
