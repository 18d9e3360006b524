/** Per-window features: spectral band powers and shape (spectral edge,
    median frequency, peak alpha frequency), time-domain statistics,
    hemispheric cross features, and the minimal set the real-time loop uses. */
module Features {
  import opened Wrappers
  import opened Seqs
  import opened Kernels
  import opened Config
  import opened Filters

  datatype SpectralFeatures = SpectralFeatures(
    deltaPower: real,
    thetaPower: real,
    alphaPower: real,
    betaPower: real,
    gammaPower: real,
    totalPower: real,
    relativeAlpha: real,
    relativeBeta: real,
    spectralEdge95: real,
    medianFrequency: real,
    peakAlphaFrequency: real)

  /** `_empty_spectral_features`. */
  const EmptySpectral := SpectralFeatures(0.0, 0.0, 0.0, 0.0, 0.0, 0.0, 0.0, 0.0, 0.0, 0.0, 0.0)

  datatype TimeFeatures = TimeFeatures(
    mean: real,
    std: real,
    variance: real,
    peakToPeak: real,
    rms: real,
    skewness: real,
    kurtosis: real,
    zeroCrossingRate: real,
    energy: real,
    maxAmplitude: real)

  /** `_empty_time_features`. */
  const EmptyTime := TimeFeatures(0.0, 0.0, 0.0, 0.0, 0.0, 0.0, 0.0, 0.0, 0.0, 0.0)

  /** The per-channel dictionary keys, without their `left_`/`right_`
      prefix: `alpha_power` is written both by `extract_alpha_power` and by
      the spectral features, `alpha_envelope_mean`/`_std` only by the former. */
  datatype Field =
    | DeltaPower | ThetaPower | AlphaPower | BetaPower | GammaPower | TotalPower
    | RelativeAlpha | RelativeBeta | SpectralEdge95 | MedianFrequency | PeakAlphaFrequency
    | Mean | Std | Variance | PeakToPeak | Rms | Skewness | Kurtosis | ZeroCrossingRate
    | Energy | MaxAmplitude | AlphaEnvelopeMean | AlphaEnvelopeStd

  datatype Side = Left | Right

  /** A key of the flat feature dictionary: `left_<field>`, `right_<field>`,
      or one of the three cross-hemisphere keys. */
  datatype Key = Channel(side: Side, field: Field) | AlphaAsymmetry | AlphaRatio | AlphaCoherence

  /** Keys, in insertion order, of the two per-channel feature dictionaries. */
  const SpectralFields: seq<Field> := [
    DeltaPower, ThetaPower, AlphaPower, BetaPower, GammaPower, TotalPower,
    RelativeAlpha, RelativeBeta, SpectralEdge95, MedianFrequency, PeakAlphaFrequency]
  const TimeFields: seq<Field> := [
    Mean, Std, Variance, PeakToPeak, Rms, Skewness, Kurtosis, ZeroCrossingRate, Energy, MaxAmplitude]

  function SpectralValues(f: SpectralFeatures): (vs: seq<real>)
    ensures |vs| == |SpectralFields|
  {
    [f.deltaPower, f.thetaPower, f.alphaPower, f.betaPower, f.gammaPower, f.totalPower,
     f.relativeAlpha, f.relativeBeta, f.spectralEdge95, f.medianFrequency, f.peakAlphaFrequency]
  }

  function TimeValues(f: TimeFeatures): (vs: seq<real>)
    ensures |vs| == |TimeFields|
  {
    [f.mean, f.std, f.variance, f.peakToPeak, f.rms, f.skewness, f.kurtosis,
     f.zeroCrossingRate, f.energy, f.maxAmplitude]
  }

  // ---------------------------------------------------------------------
  // Spectral shape.

  /** Cumulative density up to and including bin `i` (`np.cumsum(psd)[i]`). */
  function Cum(p: seq<real>, i: nat): real
    requires i < |p|
  {
    Sum(p[..i + 1])
  }

  /** The first index at or after `from` whose cumulative density reaches
      `threshold` (`np.where(cumsum >= threshold)[0][0]`), or None. */
  function FirstReaching(p: seq<real>, threshold: real, from: nat): (r: Option<nat>)
    requires from <= |p|
    ensures r.Some? ==> from <= r.value < |p| && Cum(p, r.value) >= threshold
    ensures r.Some? ==> forall i :: from <= i < r.value ==> Cum(p, i) < threshold
    ensures r.None? ==> forall i :: from <= i < |p| ==> Cum(p, i) < threshold
    decreases |p| - from
  {
    if from == |p| then None
    else if Cum(p, from) >= threshold then Some(from)
    else FirstReaching(p, threshold, from + 1)
  }

  /** `fraction * total_power`, the cumulative level a spectral-shape
      frequency is defined by. */
  function Target(p: seq<real>, fraction: real): real {
    fraction * Sum(p)
  }

  /** With a non-negative density the last cumulative value is the total, so
      any fraction up to 1 of the total is reached somewhere. */
  lemma CumulativeSearchSucceeds(p: seq<real>, fraction: real)
    requires |p| > 0 && AllNonNegative(p)
    requires fraction <= 1.0
    ensures FirstReaching(p, Target(p, fraction), 0).Some?
  {
    assert p[..|p|] == p;
    TargetBelowTotal(p, fraction);
    ReachedBy(p, Target(p, fraction), 0, |p| - 1);
  }

  lemma TargetBelowTotal(p: seq<real>, fraction: real)
    requires AllNonNegative(p)
    requires fraction <= 1.0
    ensures Target(p, fraction) <= Sum(p)
  {
    var total := Sum(p);
    SumNonNegative(p);
    MulNonNegative(1.0 - fraction, total);
    assert (1.0 - fraction) * total == total - fraction * total;
  }

  /** A level the cumulative density reaches at bin `j` is found at or before `j`. */
  lemma {:induction false} ReachedBy(p: seq<real>, threshold: real, from: nat, j: nat)
    requires from <= j < |p|
    requires Cum(p, j) >= threshold
    ensures FirstReaching(p, threshold, from).Some?
    ensures FirstReaching(p, threshold, from).value <= j
    decreases j - from
  {
    if Cum(p, from) < threshold {
      ReachedBy(p, threshold, from + 1, j);
    }
  }

  /** A lower threshold is reached no later than a higher one. */
  lemma FirstReachingMonotone(p: seq<real>, t1: real, t2: real)
    requires t1 <= t2
    requires FirstReaching(p, t2, 0).Some?
    ensures FirstReaching(p, t1, 0).Some?
    ensures FirstReaching(p, t1, 0).value <= FirstReaching(p, t2, 0).value
  {
    var j := FirstReaching(p, t2, 0).value;
    assert Cum(p, j) >= t1;
  }

  /** Bin `i` is the first whose cumulative density reaches `threshold`. */
  predicate FirstCrossing(p: seq<real>, threshold: real, i: nat)
    requires i < |p|
  {
    Cum(p, i) >= threshold && forall j :: 0 <= j < i ==> Cum(p, j) < threshold
  }

  /** Frequency of the first bin whose cumulative density reaches `fraction`
      of the total, or 0 when none does (`spectral_edge_95` uses 0.95,
      `median_frequency` 0.5). */
  function CumulativeFrequency(sp: Spectrum, fraction: real): (r: real)
    requires |sp.freqs| == |sp.psd|
    ensures FirstReaching(sp.psd, Target(sp.psd, fraction), 0).None? ==> r == 0.0
    ensures FirstReaching(sp.psd, Target(sp.psd, fraction), 0).Some? ==> r in sp.freqs
    ensures forall i :: 0 <= i < |sp.psd| && FirstCrossing(sp.psd, Target(sp.psd, fraction), i) ==> r == sp.freqs[i]
    ensures (forall i :: 0 <= i < |sp.psd| ==> Cum(sp.psd, i) < Target(sp.psd, fraction)) ==> r == 0.0
  {
    match FirstReaching(sp.psd, Target(sp.psd, fraction), 0)
    case Some(i) => sp.freqs[i]
    case None => 0.0
  }

  /** In a well-formed, non-empty spectrum the median frequency never lies
      above the 95% spectral edge. */
  lemma MedianBelowEdge(sp: Spectrum)
    requires WellFormedSpectrum(sp) && |sp.freqs| > 0
    ensures CumulativeFrequency(sp, 0.5) <= CumulativeFrequency(sp, 0.95)
  {
    var p := sp.psd;
    assert AllNonNegative(p);
    SumNonNegative(p);
    CumulativeSearchSucceeds(p, 0.95);
    assert Target(p, 0.5) <= Target(p, 0.95);
    FirstReachingMonotone(p, Target(p, 0.5), Target(p, 0.95));
    var i := FirstReaching(p, Target(p, 0.5), 0).value;
    var j := FirstReaching(p, Target(p, 0.95), 0).value;
    assert CumulativeFrequency(sp, 0.5) == sp.freqs[i];
    assert CumulativeFrequency(sp, 0.95) == sp.freqs[j];
    if i < j {
      assert sp.freqs[i] <= sp.freqs[j];
    }
  }

  /** Bin `i` holds a greatest density. */
  predicate IsPeak(psd: seq<real>, i: int)
    requires 0 <= i < |psd|
  {
    forall j :: 0 <= j < |psd| ==> psd[j] <= psd[i]
  }

  /** Bin `i` holds the first greatest density (`np.argmax`): no bin
      exceeds it and every earlier bin falls strictly short of it. */
  predicate IsFirstPeak(psd: seq<real>, i: int)
    requires 0 <= i < |psd|
  {
    IsPeak(psd, i) && forall j :: 0 <= j < i ==> psd[j] < psd[i]
  }

  /** Peak alpha frequency: frequency of the first maximal density among the
      bins with `lo <= f <= hi`; 0 when no bin is in the band. */
  function PeakFrequency(sp: Spectrum, lo: real, hi: real): (r: real)
    requires |sp.freqs| == |sp.psd|
    ensures BandSelect(sp, lo, hi).freqs == [] ==> r == 0.0
    ensures BandSelect(sp, lo, hi).freqs != [] ==> lo <= r <= hi
    ensures BandSelect(sp, lo, hi).freqs != [] ==>
      exists i :: 0 <= i < |BandSelect(sp, lo, hi).freqs| && BandSelect(sp, lo, hi).freqs[i] == r
        && IsFirstPeak(BandSelect(sp, lo, hi).psd, i)
  {
    var band := BandSelect(sp, lo, hi);
    if |band.psd| == 0 then 0.0
    else
      var k := ArgMax(band.psd);
      assert IsFirstPeak(band.psd, k);
      band.freqs[k]
  }

  /** `part / total`, or 0 when the total is not positive; a share of a
      non-negative total lies in [0, 1]. */
  function Fraction(part: real, total: real): (r: real)
    requires 0.0 <= part <= total
    ensures 0.0 <= r <= 1.0
    ensures total > 0.0 ==> r * total == part
    ensures total == 0.0 ==> r == 0.0
  {
    if total > 0.0 then
      var q := part / total;
      assert q * total == part;
      assert (1.0 - q) * total == total - part;
      NonNegativeFactor(1.0 - q, total);
      NonNegativeFactor(q, total);
      q
    else 0.0
  }

  /** The power fields of a spectral feature set agree with each other: the
      band powers are non-negative, the total is their sum, and the relative
      alpha and beta powers are the shares of that total (0 when it is 0). */
  predicate ConsistentPowers(f: SpectralFeatures) {
    && f.deltaPower >= 0.0 && f.thetaPower >= 0.0 && f.alphaPower >= 0.0
    && f.betaPower >= 0.0 && f.gammaPower >= 0.0
    && f.totalPower == f.deltaPower + f.thetaPower + f.alphaPower + f.betaPower + f.gammaPower
    && 0.0 <= f.relativeAlpha <= 1.0 && 0.0 <= f.relativeBeta <= 1.0
    && (f.totalPower > 0.0 ==> f.relativeAlpha * f.totalPower == f.alphaPower)
    && (f.totalPower > 0.0 ==> f.relativeBeta * f.totalPower == f.betaPower)
  }

  /** The band-power part of the spectral features: five non-negative band
      powers, their total, and the alpha and beta shares of that total. */
  function WithPowers(delta: real, theta: real, alpha: real, beta: real, gamma: real,
                      edge: real, median: real, peak: real): (f: SpectralFeatures)
    requires delta >= 0.0 && theta >= 0.0 && alpha >= 0.0 && beta >= 0.0 && gamma >= 0.0
    ensures f.deltaPower == delta && f.thetaPower == theta && f.alphaPower == alpha
    ensures f.betaPower == beta && f.gammaPower == gamma
    ensures f.spectralEdge95 == edge && f.medianFrequency == median && f.peakAlphaFrequency == peak
    ensures ConsistentPowers(f)
  {
    var total := delta + theta + alpha + beta + gamma;
    SpectralFeatures(delta, theta, alpha, beta, gamma, total,
      Fraction(alpha, total), Fraction(beta, total), edge, median, peak)
  }

  /** What each spectral field measures: delta over 0.5-4 Hz, theta over
      4-8 Hz, alpha and beta over the configured bands, gamma over 30-40 Hz,
      shares of a zero total being 0, the frequencies where the cumulative density
      reaches 95% and 50% of the total, and the alpha-band peak. */
  predicate MeasuresSpectrum(k: Kernels, c: SignalConfig, x: seq<real>, f: SpectralFeatures)
    requires k.Valid()
  {
    var sp := k.welch(x);
    && f.deltaPower == BandPower(k, c, x, 0.5, 4.0)
    && f.thetaPower == BandPower(k, c, x, 4.0, 8.0)
    && f.alphaPower == BandPower(k, c, x, c.alphaLow, c.alphaHigh)
    && f.betaPower == BandPower(k, c, x, c.betaLow, c.betaHigh)
    && f.gammaPower == BandPower(k, c, x, 30.0, 40.0)
    && (f.totalPower == 0.0 ==> f.relativeAlpha == 0.0 && f.relativeBeta == 0.0)
    && f.spectralEdge95 == CumulativeFrequency(sp, 0.95)
    && f.medianFrequency == CumulativeFrequency(sp, 0.5)
    && f.peakAlphaFrequency == PeakFrequency(sp, c.alphaLow, c.alphaHigh)
  }

  /** `compute_spectral_features`: all zero for an empty spectrum; otherwise
      five band powers, their total, relative alpha/beta fractions (0 when
      the total is 0), spectral edge, median and peak alpha frequency. */
  function SpectralFeaturesOf(k: Kernels, c: SignalConfig, x: seq<real>): (f: SpectralFeatures)
    requires k.Valid()
    ensures |k.welch(x).freqs| == 0 ==> f == EmptySpectral
    ensures |k.welch(x).freqs| > 0 ==> MeasuresSpectrum(k, c, x, f)
    ensures ConsistentPowers(f)
    ensures f.medianFrequency <= f.spectralEdge95
    ensures f.peakAlphaFrequency == 0.0 || c.alphaLow <= f.peakAlphaFrequency <= c.alphaHigh
  {
    var sp := k.welch(x);
    if |sp.freqs| == 0 then EmptySpectral
    else
      MedianBelowEdge(sp);
      WithPowers(
        BandPower(k, c, x, 0.5, 4.0), BandPower(k, c, x, 4.0, 8.0), Filters.AlphaPower(k, c, x),
        Filters.BetaPower(k, c, x), BandPower(k, c, x, 30.0, 40.0),
        CumulativeFrequency(sp, 0.95), CumulativeFrequency(sp, 0.5),
        PeakFrequency(sp, c.alphaLow, c.alphaHigh))
  }

  // ---------------------------------------------------------------------
  // Time domain.

  /** `np.sign`. */
  function Sign(v: real): int {
    if v > 0.0 then 1 else if v < 0.0 then -1 else 0
  }

  /** `np.sum(np.diff(np.sign(x)) != 0)`: adjacent pairs whose signs differ. */
  function ZeroCrossings(x: seq<real>): (n: nat)
    ensures |x| > 0 ==> n <= |x| - 1
    ensures |x| <= 1 ==> n == 0
    decreases |x|
  {
    if |x| <= 1 then 0
    else
      var prefix := ZeroCrossings(x[..|x| - 1]);
      if Sign(x[|x| - 1]) != Sign(x[|x| - 2]) then prefix + 1 else prefix
  }

  /** A signal that stays positive has no zero crossings. */
  lemma {:induction false} ConstantSignNoCrossings(x: seq<real>)
    requires forall i :: 0 <= i < |x| ==> x[i] > 0.0
    ensures ZeroCrossings(x) == 0
    decreases |x|
  {
    if |x| > 1 {
      ConstantSignNoCrossings(x[..|x| - 1]);
    }
  }

  /** A signal that alternates strictly between positive and negative
      crosses zero between every pair of samples. */
  lemma {:induction false} AlternatingAllCrossings(x: seq<real>)
    requires forall i :: 0 <= i < |x| ==> x[i] != 0.0
    requires forall i :: 0 <= i < |x| - 1 ==> (x[i] > 0.0 <==> x[i + 1] < 0.0)
    ensures |x| > 0 ==> ZeroCrossings(x) == |x| - 1
    decreases |x|
  {
    if |x| > 1 {
      AlternatingAllCrossings(x[..|x| - 1]);
    }
  }

  /** Zero crossings per sample: in [0, (n - 1) / n]. */
  function CrossingRate(x: seq<real>): (r: real)
    requires |x| > 0
    ensures 0.0 <= r && r * (|x| as real) == ZeroCrossings(x) as real
    ensures r * (|x| as real) <= (|x| - 1) as real
  {
    var q := (ZeroCrossings(x) as real) / (|x| as real);
    assert q * (|x| as real) == ZeroCrossings(x) as real;
    NonNegativeFactor(q, |x| as real);
    q
  }

  /** `max(|x|)` bounds every sample from both sides. */
  lemma MaxAmplitudeBounds(x: seq<real>)
    requires |x| > 0
    ensures forall i :: 0 <= i < |x| ==> -MaxOf(AbsAll(x)) <= x[i] <= MaxOf(AbsAll(x))
    ensures exists i :: 0 <= i < |x| && Abs(x[i]) == MaxOf(AbsAll(x))
  {
    var a := AbsAll(x);
    var j :| 0 <= j < |a| && a[j] == MaxOf(a);
    assert Abs(x[j]) == MaxOf(a);
    forall i | 0 <= i < |x|
      ensures -MaxOf(a) <= x[i] <= MaxOf(a)
    {
      assert a[i] <= MaxOf(a);
    }
  }

  /** `np.sum(x ** 2)` is `n` times the mean-square power. */
  lemma EnergyIsScaledPower(x: seq<real>)
    requires |x| > 0
    ensures SumSq(x) == (|x| as real) * MeanSquare(x)
  {
  }

  /** What the time-domain features of a non-empty signal promise about it:
      the mean is the arithmetic mean, the variance is the mean-square
      deviation from it, the spread measures are non-negative, the
      peak-to-peak range is the distance from the least to the greatest
      sample, and the maximum amplitude is the magnitude of some sample and
      bounds every other. */
  predicate DescribesSignal(f: TimeFeatures, x: seq<real>)
    requires |x| > 0
  {
    && f.mean == Seqs.Mean(x)
    && f.variance == MeanSquare(Shift(x, Seqs.Mean(x)))
    && f.variance >= 0.0 && f.std >= 0.0 && f.rms >= 0.0 && f.peakToPeak >= 0.0
    && f.peakToPeak == MaxOf(x) - MinOf(x)
    && (forall i :: 0 <= i < |x| ==> MinOf(x) <= x[i] <= MinOf(x) + f.peakToPeak)
    && (exists i :: 0 <= i < |x| && Abs(x[i]) == f.maxAmplitude)
    && (forall i :: 0 <= i < |x| ==> -f.maxAmplitude <= x[i] <= f.maxAmplitude)
  }

  /** Features carrying the signal's mean, variance, range and largest
      magnitude describe it. */
  lemma StatisticsDescribe(f: TimeFeatures, x: seq<real>)
    requires |x| > 0
    requires f.mean == Seqs.Mean(x) && f.variance == Seqs.Variance(x)
    requires f.std >= 0.0 && f.rms >= 0.0
    requires f.peakToPeak == MaxOf(x) - MinOf(x) && f.maxAmplitude == MaxOf(AbsAll(x))
    ensures DescribesSignal(f, x)
  {
    MaxAmplitudeBounds(x);
    assert f.variance == MeanSquare(Shift(x, f.mean));
    assert f.peakToPeak >= 0.0 by {
      assert MinOf(x) <= x[0] <= MaxOf(x);
    }
    assert forall i :: 0 <= i < |x| ==> MinOf(x) <= x[i] <= MinOf(x) + f.peakToPeak;
    assert exists i :: 0 <= i < |x| && Abs(x[i]) == f.maxAmplitude;
    assert forall i :: 0 <= i < |x| ==> -f.maxAmplitude <= x[i] <= f.maxAmplitude;
  }

  /** `compute_time_domain_features`: all zero for an empty signal. */
  function TimeFeaturesOf(k: Kernels, x: seq<real>): (f: TimeFeatures)
    requires k.Valid()
    ensures |x| == 0 ==> f == EmptyTime
    ensures |x| > 0 ==> DescribesSignal(f, x)
  {
    if |x| == 0 then EmptyTime
    else
      var f := TimeFeatures(
        Seqs.Mean(x), k.sqrt(Seqs.Variance(x)), Seqs.Variance(x), MaxOf(x) - MinOf(x), k.sqrt(MeanSquare(x)),
        k.skew(x), k.kurtosis(x), CrossingRate(x), SumSq(x), MaxOf(AbsAll(x)));
      StatisticsDescribe(f, x);
      f
  }

  /** The per-sample rates of a non-empty signal: the zero-crossing rate is
      the number of sign changes per sample, and the energy is `n` times the
      mean-square power whose square root is the RMS. */
  lemma TimeFeatureRates(k: Kernels, x: seq<real>)
    requires k.Valid() && |x| > 0
    ensures TimeFeaturesOf(k, x).zeroCrossingRate == CrossingRate(x)
    ensures TimeFeaturesOf(k, x).energy == (|x| as real) * MeanSquare(x)
    ensures TimeFeaturesOf(k, x).rms == k.sqrt(MeanSquare(x))
    ensures TimeFeaturesOf(k, x).std == k.sqrt(TimeFeaturesOf(k, x).variance)
    ensures TimeFeaturesOf(k, x).skewness == k.skew(x)
    ensures TimeFeaturesOf(k, x).kurtosis == k.kurtosis(x)
  {
    EnergyIsScaledPower(x);
  }

  // ---------------------------------------------------------------------
  // Two-channel features.

  /** `extract_alpha_power`: mean-square amplitude of each channel's
      alpha-band signal. */
  function AlphaPowerPair(k: Kernels, c: SignalConfig, left: seq<real>, right: seq<real>): (r: (real, real))
    requires k.Valid()
    requires |left| > 0 && |right| > 0
    ensures r.0 >= 0.0 && r.1 >= 0.0
    ensures r.0 * (|left| as real) == SumSq(ExtractAlphaBand(k, c, left))
    ensures r.1 * (|right| as real) == SumSq(ExtractAlphaBand(k, c, right))
    ensures |left| < MinFilterLength(c) ==> r.0 == 0.0
    ensures |right| < MinFilterLength(c) ==> r.1 == 0.0
  {
    ShortSignalNoAlpha(k, c, left);
    ShortSignalNoAlpha(k, c, right);
    EnergyIsScaledPower(ExtractAlphaBand(k, c, left));
    EnergyIsScaledPower(ExtractAlphaBand(k, c, right));
    (MeanSquare(ExtractAlphaBand(k, c, left)), MeanSquare(ExtractAlphaBand(k, c, right)))
  }

  /** A signal too short to filter has zero alpha power. */
  lemma ShortSignalNoAlpha(k: Kernels, c: SignalConfig, x: seq<real>)
    requires k.Valid() && |x| > 0
    ensures |x| < MinFilterLength(c) ==> MeanSquare(ExtractAlphaBand(k, c, x)) == 0.0
  {
    if |x| < MinFilterLength(c) {
      ZerosPower(ExtractAlphaBand(k, c, x));
    }
  }

  lemma ZerosPower(s: seq<real>)
    requires |s| > 0
    requires forall i :: 0 <= i < |s| ==> s[i] == 0.0
    ensures MeanSquare(s) == 0.0
  {
    ZerosSumSq(s);
  }

  /** Hemispheric cross features of `extract_all_features`. */
  datatype CrossFeatures = CrossFeatures(asymmetry: real, ratio: real, coherence: real)

  /** `alpha_asymmetry = l - r`, `alpha_ratio = l / r` (0 unless `r > 0`), and
      `alpha_coherence`: the correlation of the two alpha-band signals, 0 when
      the lengths differ, a channel has at most one sample, or it is NaN. */
  function CrossFeaturesOf(k: Kernels, c: SignalConfig, left: seq<real>, right: seq<real>,
                           leftPower: real, rightPower: real): (f: CrossFeatures)
    requires k.Valid()
    ensures f.asymmetry == leftPower - rightPower
    ensures rightPower > 0.0 ==> f.ratio * rightPower == leftPower
    ensures rightPower <= 0.0 ==> f.ratio == 0.0
    ensures (|left| != |right| || |left| <= 1) ==> f.coherence == 0.0
    ensures |left| == |right| && |left| > 1 && f.coherence != 0.0 ==>
      k.corrcoef(ExtractAlphaBand(k, c, left), ExtractAlphaBand(k, c, right)) == Some(f.coherence)
    ensures |left| == |right| && |left| > 1 ==>
      var rho := k.corrcoef(ExtractAlphaBand(k, c, left), ExtractAlphaBand(k, c, right));
      f.coherence == (if rho.Some? then rho.value else 0.0)
  {
    var coherence :=
      if |left| == |right| && |left| > 1 then
        k.corrcoef(ExtractAlphaBand(k, c, left), ExtractAlphaBand(k, c, right)).GetOr(0.0)
      else 0.0;
    CrossFeatures(leftPower - rightPower, if rightPower > 0.0 then leftPower / rightPower else 0.0, coherence)
  }

  /** The full feature set of `extract_all_features`, before it is flattened
      into a dictionary. */
  datatype AllFeatures = AllFeatures(
    leftAlphaPower: real,
    rightAlphaPower: real,
    leftEnvelopeMean: real,
    rightEnvelopeMean: real,
    leftEnvelopeStd: real,
    rightEnvelopeStd: real,
    leftSpectral: SpectralFeatures,
    rightSpectral: SpectralFeatures,
    leftTime: TimeFeatures,
    rightTime: TimeFeatures,
    cross: CrossFeatures)

  function AllFeaturesOf(k: Kernels, c: SignalConfig, left: seq<real>, right: seq<real>): (f: AllFeatures)
    requires k.Valid()
    requires |left| > 0 && |right| > 0
    ensures (f.leftAlphaPower, f.rightAlphaPower) == AlphaPowerPair(k, c, left, right)
    ensures f.leftEnvelopeMean == Seqs.Mean(k.envelope(ExtractAlphaBand(k, c, left)))
    ensures f.rightEnvelopeMean == Seqs.Mean(k.envelope(ExtractAlphaBand(k, c, right)))
    ensures f.leftSpectral == SpectralFeaturesOf(k, c, left)
    ensures f.rightSpectral == SpectralFeaturesOf(k, c, right)
    ensures f.leftTime == TimeFeaturesOf(k, left)
    ensures f.rightTime == TimeFeaturesOf(k, right)
    ensures f.cross == CrossFeaturesOf(k, c, left, right, f.leftAlphaPower, f.rightAlphaPower)
    ensures f.cross.asymmetry == f.leftAlphaPower - f.rightAlphaPower
  {
    var (lp, rp) := AlphaPowerPair(k, c, left, right);
    var le := k.envelope(ExtractAlphaBand(k, c, left));
    var re := k.envelope(ExtractAlphaBand(k, c, right));
    AllFeatures(
      lp, rp,
      Seqs.Mean(le), Seqs.Mean(re),
      k.sqrt(Seqs.Variance(le)), k.sqrt(Seqs.Variance(re)),
      SpectralFeaturesOf(k, c, left), SpectralFeaturesOf(k, c, right),
      TimeFeaturesOf(k, left), TimeFeaturesOf(k, right),
      CrossFeaturesOf(k, c, left, right, lp, rp))
  }

  /** Reading `key` from a Python dictionary built by the assignments
      `entries`, in order: the value of the LAST assignment to that key, or
      None when it was never assigned. */
  function Lookup<K(==)>(entries: seq<(K, real)>, key: K): Option<real>
    decreases |entries|
  {
    if |entries| == 0 then None
    else if entries[|entries| - 1].0 == key then Some(entries[|entries| - 1].1)
    else Lookup(entries[..|entries| - 1], key)
  }

  /** A key never assigned is absent. */
  lemma {:induction false} LookupAbsent<K>(entries: seq<(K, real)>, key: K)
    requires forall i :: 0 <= i < |entries| ==> entries[i].0 != key
    ensures Lookup(entries, key) == None
    decreases |entries|
  {
    if |entries| > 0 {
      LookupAbsent(entries[..|entries| - 1], key);
    }
  }

  /** A key assigned somewhere is present. */
  lemma {:induction false} LookupPresent<K>(entries: seq<(K, real)>, i: nat, key: K)
    requires i < |entries| && entries[i].0 == key
    ensures Lookup(entries, key).Some?
    decreases |entries|
  {
    if entries[|entries| - 1].0 != key {
      LookupPresent(entries[..|entries| - 1], i, key);
    }
  }

  /** A key holds the value of its last assignment. */
  lemma {:induction false} LookupLast<K>(entries: seq<(K, real)>, i: nat)
    requires i < |entries|
    requires forall j :: i < j < |entries| ==> entries[j].0 != entries[i].0
    ensures Lookup(entries, entries[i].0) == Some(entries[i].1)
    decreases |entries|
  {
    if i < |entries| - 1 {
      LookupLast(entries[..|entries| - 1], i);
    }
  }

  /** Assigning `a` and then `b`: a key `b` assigns holds `b`'s value; any
      other key holds what `a` left it. */
  lemma {:induction false} LookupAppend<K>(a: seq<(K, real)>, b: seq<(K, real)>, key: K)
    ensures Lookup(a + b, key) == if Lookup(b, key).Some? then Lookup(b, key) else Lookup(a, key)
    decreases |b|
  {
    if |b| == 0 {
      assert a + b == a;
    } else {
      assert (a + b)[..|a + b| - 1] == a + b[..|b| - 1];
      LookupAppend(a, b[..|b| - 1], key);
    }
  }

  /** `{side + "_" + field: value}` for parallel field and value lists. */
  function Prefixed(side: Side, fields: seq<Field>, values: seq<real>): (es: seq<(Key, real)>)
    requires |fields| == |values|
    ensures |es| == |fields|
    ensures forall i :: 0 <= i < |fields| ==> es[i] == (Channel(side, fields[i]), values[i])
  {
    seq(|fields|, i requires 0 <= i < |fields| => (Channel(side, fields[i]), values[i]))
  }

  /** A prefixed dictionary holds exactly the keys of its own side and fields. */
  lemma PrefixedKeys(side: Side, fields: seq<Field>, values: seq<real>, key: Key)
    requires |fields| == |values|
    ensures Lookup(Prefixed(side, fields, values), key).Some? <==>
      key.Channel? && key.side == side && key.field in fields
  {
    var es := Prefixed(side, fields, values);
    if key.Channel? && key.side == side && key.field in fields {
      var i :| 0 <= i < |fields| && fields[i] == key.field;
      LookupPresent(es, i, key);
    } else {
      LookupAbsent(es, key);
    }
  }

  /** The first six assignments of `extract_all_features`: mean-square alpha
      power and alpha envelope mean/std of each channel. */
  function HeadEntries(f: AllFeatures): seq<(Key, real)> {
    [(Channel(Left, AlphaPower), f.leftAlphaPower), (Channel(Right, AlphaPower), f.rightAlphaPower),
     (Channel(Left, AlphaEnvelopeMean), f.leftEnvelopeMean), (Channel(Right, AlphaEnvelopeMean), f.rightEnvelopeMean),
     (Channel(Left, AlphaEnvelopeStd), f.leftEnvelopeStd), (Channel(Right, AlphaEnvelopeStd), f.rightEnvelopeStd)]
  }

  /** The last three assignments: the cross-hemisphere features. */
  function CrossEntries(f: AllFeatures): seq<(Key, real)> {
    [(AlphaAsymmetry, f.cross.asymmetry), (AlphaRatio, f.cross.ratio), (AlphaCoherence, f.cross.coherence)]
  }

  /** Every assignment `extract_all_features` makes, in the source's order:
      the head entries, the left and right spectral dictionaries, the left
      and right time-domain dictionaries, and the cross features. */
  function FeatureEntries(f: AllFeatures): seq<(Key, real)> {
    HeadEntries(f)
      + Prefixed(Left, SpectralFields, SpectralValues(f.leftSpectral))
      + Prefixed(Right, SpectralFields, SpectralValues(f.rightSpectral))
      + Prefixed(Left, TimeFields, TimeValues(f.leftTime))
      + Prefixed(Right, TimeFields, TimeValues(f.rightTime))
      + CrossEntries(f)
  }

  /** Reading `key` from the dictionary `extract_all_features` returns:
      the value from the last group of assignments that writes it. */
  lemma FeatureLookupByGroup(f: AllFeatures, key: Key)
    ensures Lookup(FeatureEntries(f), key) ==
      var ls := Lookup(Prefixed(Left, SpectralFields, SpectralValues(f.leftSpectral)), key);
      var rs := Lookup(Prefixed(Right, SpectralFields, SpectralValues(f.rightSpectral)), key);
      var lt := Lookup(Prefixed(Left, TimeFields, TimeValues(f.leftTime)), key);
      var rt := Lookup(Prefixed(Right, TimeFields, TimeValues(f.rightTime)), key);
      var cr := Lookup(CrossEntries(f), key);
      if cr.Some? then cr else if rt.Some? then rt else if lt.Some? then lt
      else if rs.Some? then rs else if ls.Some? then ls else Lookup(HeadEntries(f), key)
  {
    var h := HeadEntries(f);
    var ls := Prefixed(Left, SpectralFields, SpectralValues(f.leftSpectral));
    var rs := Prefixed(Right, SpectralFields, SpectralValues(f.rightSpectral));
    var lt := Prefixed(Left, TimeFields, TimeValues(f.leftTime));
    var rt := Prefixed(Right, TimeFields, TimeValues(f.rightTime));
    var cr := CrossEntries(f);
    LookupAppend(h, ls, key);
    LookupAppend(h + ls, rs, key);
    LookupAppend(h + ls + rs, lt, key);
    LookupAppend(h + ls + rs + lt, rt, key);
    LookupAppend(h + ls + rs + lt + rt, cr, key);
  }

  /** Every key of the flat feature dictionary is assigned: the two
      channels' spectral, time-domain and envelope fields and the three
      cross features. */
  lemma AllKeysAssigned(f: AllFeatures, key: Key)
    ensures Lookup(FeatureEntries(f), key).Some?
  {
    FeatureLookupByGroup(f, key);
    var h := HeadEntries(f);
    var cr := CrossEntries(f);
    match key
    case Channel(side, fld) =>
      PrefixedKeys(side, SpectralFields, SpectralValues(if side == Left then f.leftSpectral else f.rightSpectral), key);
      PrefixedKeys(side, TimeFields, TimeValues(if side == Left then f.leftTime else f.rightTime), key);
      if fld == AlphaEnvelopeMean {
        LookupPresent(h, if side == Left then 2 else 3, key);
      } else if fld == AlphaEnvelopeStd {
        LookupPresent(h, if side == Left then 4 else 5, key);
      }
    case AlphaAsymmetry => LookupPresent(cr, 0, key);
    case AlphaRatio => LookupPresent(cr, 1, key);
    case AlphaCoherence => LookupPresent(cr, 2, key);
  }

  /** The cross features are written last, so they keep their values. */
  lemma CrossFeaturesKept(f: AllFeatures)
    ensures Lookup(FeatureEntries(f), AlphaAsymmetry) == Some(f.cross.asymmetry)
    ensures Lookup(FeatureEntries(f), AlphaRatio) == Some(f.cross.ratio)
    ensures Lookup(FeatureEntries(f), AlphaCoherence) == Some(f.cross.coherence)
  {
    var cr := CrossEntries(f);
    FeatureLookupByGroup(f, AlphaAsymmetry);
    FeatureLookupByGroup(f, AlphaRatio);
    FeatureLookupByGroup(f, AlphaCoherence);
    LookupLast(cr, 0);
    LookupLast(cr, 1);
    LookupLast(cr, 2);
  }

  /** The left spectral dictionary is written after the mean-square alpha
      power and reuses the key `alpha_power`, so `left_alpha_power` in the
      returned dictionary is the SPECTRAL (Welch) alpha band power, not the
      mean-square value `alpha_asymmetry` is computed from. */
  lemma AlphaPowerOverwritten(f: AllFeatures, side: Side)
    ensures Lookup(FeatureEntries(f), Channel(side, AlphaPower))
      == Some(if side == Left then f.leftSpectral.alphaPower else f.rightSpectral.alphaPower)
  {
    var key := Channel(side, AlphaPower);
    FeatureLookupByGroup(f, key);
    var cr := CrossEntries(f);
    LookupAbsent(cr, key);
    PrefixedKeys(Left, TimeFields, TimeValues(f.leftTime), key);
    PrefixedKeys(Right, TimeFields, TimeValues(f.rightTime), key);
    PrefixedKeys(Right, SpectralFields, SpectralValues(f.rightSpectral), key);
    LookupLast(Prefixed(Left, SpectralFields, SpectralValues(f.leftSpectral)), 2);
    LookupLast(Prefixed(Right, SpectralFields, SpectralValues(f.rightSpectral)), 2);
  }

  // ---------------------------------------------------------------------
  // Minimal features.

  datatype MinimalFeatures = MinimalFeatures(
    leftAlphaPower: real,
    rightAlphaPower: real,
    leftVariance: real,
    rightVariance: real,
    leftBetaPower: real,
    rightBetaPower: real)

  /** The exception fallback of `extract_minimal_features`: the same six keys, all zero. */
  const MinimalFallback := MinimalFeatures(0.0, 0.0, 0.0, 0.0, 0.0, 0.0)

  /** `extract_minimal_features`: alpha power, raw variance and beta power of
      each channel; every value is non-negative. */
  function MinimalFeaturesOf(k: Kernels, c: SignalConfig, left: seq<real>, right: seq<real>): (f: MinimalFeatures)
    requires k.Valid()
    requires |left| > 0 && |right| > 0
    ensures f.leftAlphaPower >= 0.0 && f.rightAlphaPower >= 0.0
    ensures f.leftVariance >= 0.0 && f.rightVariance >= 0.0
    ensures f.leftBetaPower >= 0.0 && f.rightBetaPower >= 0.0
    ensures (f.leftAlphaPower, f.rightAlphaPower) == AlphaPowerPair(k, c, left, right)
    ensures f.leftVariance == Seqs.Variance(left) && f.rightVariance == Seqs.Variance(right)
    ensures f.leftBetaPower == Filters.BetaPower(k, c, left)
    ensures f.rightBetaPower == Filters.BetaPower(k, c, right)
  {
    var (lp, rp) := AlphaPowerPair(k, c, left, right);
    MinimalFeatures(lp, rp, Seqs.Variance(left), Seqs.Variance(right), Filters.BetaPower(k, c, left), Filters.BetaPower(k, c, right))
  }

  /** One channel's variance is its time-domain variance, and its beta
      power is the spectral one whenever the spectrum has bins. */
  lemma ChannelMeasuresAgree(k: Kernels, c: SignalConfig, x: seq<real>)
    requires k.Valid() && |x| > 0
    ensures Seqs.Variance(x) == TimeFeaturesOf(k, x).variance
    ensures |k.welch(x).freqs| > 0 ==> Filters.BetaPower(k, c, x) == SpectralFeaturesOf(k, c, x).betaPower
  {
    assert DescribesSignal(TimeFeaturesOf(k, x), x);
    if |k.welch(x).freqs| > 0 {
      assert MeasuresSpectrum(k, c, x, SpectralFeaturesOf(k, c, x));
    }
  }

  /** The real-time feature set agrees with the full one: the same alpha
      powers, each channel's variance is its time-domain variance, and,
      when the spectrum has bins, each beta power is the spectral one. */
  lemma MinimalAgreesWithAll(k: Kernels, c: SignalConfig, left: seq<real>, right: seq<real>)
    requires k.Valid()
    requires |left| > 0 && |right| > 0
    ensures var m, f := MinimalFeaturesOf(k, c, left, right), AllFeaturesOf(k, c, left, right);
      && m.leftAlphaPower == f.leftAlphaPower && m.rightAlphaPower == f.rightAlphaPower
      && m.leftVariance == f.leftTime.variance && m.rightVariance == f.rightTime.variance
      && (|k.welch(left).freqs| > 0 ==> m.leftBetaPower == f.leftSpectral.betaPower)
      && (|k.welch(right).freqs| > 0 ==> m.rightBetaPower == f.rightSpectral.betaPower)
  {
    ChannelMeasuresAgree(k, c, left);
    ChannelMeasuresAgree(k, c, right);
  }
}
