/** The filter chain: length-guarded zero-phase filters, the preprocessing
    pipeline (DC removal, notch, bandpass), band power as a trapezoid
    integral of the Welch spectrum over a frequency mask, moving-average
    smoothing and baseline-drift removal. */
module Filters {
  import opened Seqs
  import opened Kernels
  import opened Config

  /** An all-zero signal (`np.zeros_like`). */
  function Zeros(n: nat): (r: seq<real>)
    ensures |r| == n && forall i :: 0 <= i < n ==> r[i] == 0.0
  {
    seq(n, i => 0.0)
  }

  /** Shortest signal the zero-phase filters accept; shorter ones skip filtering. */
  function MinFilterLength(c: SignalConfig): int {
    3 * c.filterOrder
  }

  /** `apply_notch_filter`: too-short signals are returned unchanged, the
      rest go through the notch filter. */
  function ApplyNotch(k: Kernels, c: SignalConfig, x: seq<real>): (r: seq<real>)
    requires k.Valid()
    ensures |r| == |x|
    ensures |x| < MinFilterLength(c) ==> r == x
    ensures |x| >= MinFilterLength(c) ==> r == k.notch(x)
  {
    if |x| < MinFilterLength(c) then x else k.notch(x)
  }

  /** `apply_bandpass_filter`: too-short signals are returned unchanged, the
      rest go through the band-pass filter. */
  function ApplyBandpass(k: Kernels, c: SignalConfig, x: seq<real>): (r: seq<real>)
    requires k.Valid()
    ensures |r| == |x|
    ensures |x| < MinFilterLength(c) ==> r == x
    ensures |x| >= MinFilterLength(c) ==> r == k.bandpass(x)
  {
    if |x| < MinFilterLength(c) then x else k.bandpass(x)
  }

  /** `extract_alpha_band`: too-short signals give zeros of the same length,
      the rest go through the alpha band-pass filter. */
  function ExtractAlphaBand(k: Kernels, c: SignalConfig, x: seq<real>): (r: seq<real>)
    requires k.Valid()
    ensures |r| == |x|
    ensures |x| < MinFilterLength(c) ==> forall i :: 0 <= i < |r| ==> r[i] == 0.0
    ensures |x| >= MinFilterLength(c) ==> r == k.alphaBand(x)
  {
    if |x| < MinFilterLength(c) then Zeros(|x|) else k.alphaBand(x)
  }

  /** `extract_beta_band`: too-short signals give zeros of the same length,
      the rest go through the beta band-pass filter. */
  function ExtractBetaBand(k: Kernels, c: SignalConfig, x: seq<real>): (r: seq<real>)
    requires k.Valid()
    ensures |r| == |x|
    ensures |x| < MinFilterLength(c) ==> forall i :: 0 <= i < |r| ==> r[i] == 0.0
    ensures |x| >= MinFilterLength(c) ==> r == k.betaBand(x)
  {
    if |x| < MinFilterLength(c) then Zeros(|x|) else k.betaBand(x)
  }

  /** `preprocess_signal`: empty stays empty; otherwise the mean is removed
      and the notch and then the bandpass filter are applied. */
  function Preprocess(k: Kernels, c: SignalConfig, x: seq<real>): (r: seq<real>)
    requires k.Valid()
    ensures |r| == |x|
    ensures |x| == 0 ==> r == x
    ensures 0 < |x| < MinFilterLength(c) ==> r == Shift(x, Mean(x)) && Mean(r) == 0.0
    ensures |x| > 0 && |x| >= MinFilterLength(c) ==> r == k.bandpass(k.notch(Shift(x, Mean(x))))
  {
    if |x| == 0 then x
    else
      CenteredMeanIsZero(x);
      ApplyBandpass(k, c, ApplyNotch(k, c, Shift(x, Mean(x))))
  }

  /** The signal handed to the notch filter has zero mean, and a window too
      short to filter comes out merely mean-centred. */
  lemma PreprocessCentres(k: Kernels, c: SignalConfig, x: seq<real>)
    requires k.Valid()
    requires |x| > 0
    ensures Mean(Shift(x, Mean(x))) == 0.0
    ensures |x| < MinFilterLength(c) ==> Preprocess(k, c, x) == Shift(x, Mean(x))
    ensures |x| < MinFilterLength(c) ==> Mean(Preprocess(k, c, x)) == 0.0
  {
    CenteredMeanIsZero(x);
  }

  // ---------------------------------------------------------------------
  // Band power.

  /** `np.trapezoid(p, f)`: the trapezoid rule over consecutive bins. */
  function Trapezoid(f: seq<real>, p: seq<real>): real
    requires |f| == |p|
    decreases |f|
  {
    if |f| < 2 then 0.0
    else
      var n := |f|;
      Trapezoid(f[..n - 1], p[..n - 1]) + (f[n - 1] - f[n - 2]) * (p[n - 2] + p[n - 1]) / 2.0
  }

  /** Integrating a non-negative density over ascending frequencies is non-negative. */
  lemma {:induction false} TrapezoidNonNegative(sp: Spectrum)
    requires WellFormedSpectrum(sp)
    ensures Trapezoid(sp.freqs, sp.psd) >= 0.0
    decreases |sp.freqs|
  {
    var n := |sp.freqs|;
    if n >= 2 {
      var sub := Spectrum(sp.freqs[..n - 1], sp.psd[..n - 1]);
      assert WellFormedSpectrum(sub);
      TrapezoidNonNegative(sub);
      var df := sp.freqs[n - 1] - sp.freqs[n - 2];
      var ps := sp.psd[n - 2] + sp.psd[n - 1];
      assert df >= 0.0 && ps >= 0.0;
      MulNonNegative(df, ps);
      assert Trapezoid(sp.freqs, sp.psd) == Trapezoid(sub.freqs, sub.psd) + df * ps / 2.0;
    }
  }

  /** The positions where the mask `lo <= f <= hi` is true: every such
      position, each once, in ascending order. */
  function BandIndices(f: seq<real>, lo: real, hi: real): (ix: seq<nat>)
    ensures forall j :: 0 <= j < |ix| ==> ix[j] < |f| && lo <= f[ix[j]] <= hi
    ensures forall i, j :: 0 <= i < j < |ix| ==> ix[i] < ix[j]
    ensures forall i :: 0 <= i < |f| && lo <= f[i] <= hi ==> i in ix
    decreases |f|
  {
    var n := |f|;
    if n == 0 then []
    else
      var rest := BandIndices(f[..n - 1], lo, hi);
      if lo <= f[n - 1] <= hi then rest + [n - 1] else rest
  }

  /** `freqs[mask]`, `psd[mask]` for the mask `lo <= freqs <= hi`. */
  function BandSelect(sp: Spectrum, lo: real, hi: real): (r: Spectrum)
    requires |sp.freqs| == |sp.psd|
    ensures |r.freqs| == |r.psd| <= |sp.freqs|
    ensures forall i :: 0 <= i < |r.freqs| ==> lo <= r.freqs[i] <= hi
    ensures forall i :: 0 <= i < |r.freqs| ==> r.freqs[i] in sp.freqs && r.psd[i] in sp.psd
    decreases |sp.freqs|
  {
    var n := |sp.freqs|;
    if n == 0 then Spectrum([], [])
    else
      var rest := BandSelect(Spectrum(sp.freqs[..n - 1], sp.psd[..n - 1]), lo, hi);
      if lo <= sp.freqs[n - 1] <= hi
      then Spectrum(rest.freqs + [sp.freqs[n - 1]], rest.psd + [sp.psd[n - 1]])
      else rest
  }

  /** The selection keeps exactly the bins at the mask's positions, in
      order, each frequency still paired with its own density. */
  lemma {:induction false} BandSelectMatchesMask(sp: Spectrum, lo: real, hi: real)
    requires |sp.freqs| == |sp.psd|
    ensures var r, ix := BandSelect(sp, lo, hi), BandIndices(sp.freqs, lo, hi);
      && |r.freqs| == |ix|
      && forall j :: 0 <= j < |ix| ==> r.freqs[j] == sp.freqs[ix[j]] && r.psd[j] == sp.psd[ix[j]]
    decreases |sp.freqs|
  {
    var n := |sp.freqs|;
    if n > 0 {
      var sub := Spectrum(sp.freqs[..n - 1], sp.psd[..n - 1]);
      BandSelectMatchesMask(sub, lo, hi);
      var r, rest := BandSelect(sp, lo, hi), BandSelect(sub, lo, hi);
      var ix, ixs := BandIndices(sp.freqs, lo, hi), BandIndices(sub.freqs, lo, hi);
      assert sub.freqs == sp.freqs[..n - 1];
      if lo <= sp.freqs[n - 1] <= hi {
        assert r.freqs == rest.freqs + [sp.freqs[n - 1]] && r.psd == rest.psd + [sp.psd[n - 1]];
        assert ix == ixs + [n - 1];
        forall j | 0 <= j < |ix|
          ensures r.freqs[j] == sp.freqs[ix[j]] && r.psd[j] == sp.psd[ix[j]]
        {
          if j < |ixs| {
            assert r.freqs[j] == rest.freqs[j] == sub.freqs[ixs[j]];
            assert r.psd[j] == rest.psd[j] == sub.psd[ixs[j]];
          }
        }
      } else {
        assert r == rest && ix == ixs;
        forall j | 0 <= j < |ix|
          ensures r.freqs[j] == sp.freqs[ix[j]] && r.psd[j] == sp.psd[ix[j]]
        {
          assert r.freqs[j] == sub.freqs[ixs[j]] && r.psd[j] == sub.psd[ixs[j]];
        }
      }
    }
  }

  /** Selecting bins from a well-formed spectrum gives a well-formed spectrum:
      the kept positions ascend, so their frequencies do too. */
  lemma BandSelectWellFormed(sp: Spectrum, lo: real, hi: real)
    requires WellFormedSpectrum(sp)
    ensures WellFormedSpectrum(BandSelect(sp, lo, hi))
  {
    BandSelectMatchesMask(sp, lo, hi);
    var r, ix := BandSelect(sp, lo, hi), BandIndices(sp.freqs, lo, hi);
    forall i, j | 0 <= i < j < |r.freqs|
      ensures r.freqs[i] <= r.freqs[j]
    {
      assert ix[i] < ix[j];
    }
  }

  /** An empty frequency range selects nothing. */
  lemma {:induction false} BandSelectEmptyRange(sp: Spectrum, lo: real, hi: real)
    requires |sp.freqs| == |sp.psd|
    requires hi < lo
    ensures BandSelect(sp, lo, hi) == Spectrum([], [])
    decreases |sp.freqs|
  {
    var n := |sp.freqs|;
    if n > 0 {
      BandSelectEmptyRange(Spectrum(sp.freqs[..n - 1], sp.psd[..n - 1]), lo, hi);
    }
  }

  /** `compute_band_power`: 0 for a signal shorter than twice the filter
      order or an empty spectrum; otherwise the trapezoid integral of the
      density over the bins with `lo <= f <= hi`, which is never negative. */
  function BandPower(k: Kernels, c: SignalConfig, x: seq<real>, lo: real, hi: real): (r: real)
    requires k.Valid()
    ensures r >= 0.0
    ensures |x| < 2 * c.filterOrder ==> r == 0.0
    ensures |k.welch(x).freqs| == 0 ==> r == 0.0
    ensures |x| >= 2 * c.filterOrder && |k.welch(x).freqs| > 0 ==>
      var band := BandSelect(k.welch(x), lo, hi);
      r == Trapezoid(band.freqs, band.psd)
  {
    if |x| < 2 * c.filterOrder then 0.0
    else
      var sp := k.welch(x);
      if |sp.freqs| == 0 then 0.0
      else
        var band := BandSelect(sp, lo, hi);
        BandSelectWellFormed(sp, lo, hi);
        TrapezoidNonNegative(band);
        Trapezoid(band.freqs, band.psd)
  }

  /** A band whose upper edge lies below its lower edge has no power. */
  lemma BandPowerEmptyRange(k: Kernels, c: SignalConfig, x: seq<real>, lo: real, hi: real)
    requires k.Valid()
    requires hi < lo
    ensures BandPower(k, c, x, lo, hi) == 0.0
  {
    var sp := k.welch(x);
    BandSelectEmptyRange(sp, lo, hi);
  }

  /** `s[ix]`: the entries at the given positions, in the given order. */
  function Gather(s: seq<real>, ix: seq<nat>): (r: seq<real>)
    requires forall j :: 0 <= j < |ix| ==> ix[j] < |s|
    ensures |r| == |ix|
  {
    seq(|ix|, j requires 0 <= j < |ix| => s[ix[j]])
  }

  /** Band power integrates exactly the bins the boolean mask
      `lo <= f <= hi` selects, in their original order and each with its
      own density. */
  lemma BandPowerIntegratesMask(k: Kernels, c: SignalConfig, x: seq<real>, lo: real, hi: real)
    requires k.Valid()
    requires |x| >= 2 * c.filterOrder && |k.welch(x).freqs| > 0
    ensures var sp := k.welch(x);
      var ix := BandIndices(sp.freqs, lo, hi);
      BandPower(k, c, x, lo, hi) == Trapezoid(Gather(sp.freqs, ix), Gather(sp.psd, ix))
  {
    var sp := k.welch(x);
    BandSelectMatchesMask(sp, lo, hi);
    var band, ix := BandSelect(sp, lo, hi), BandIndices(sp.freqs, lo, hi);
    assert band.freqs == Gather(sp.freqs, ix);
    assert band.psd == Gather(sp.psd, ix);
  }

  /** `compute_alpha_power`: band power over the configured alpha edges. */
  function AlphaPower(k: Kernels, c: SignalConfig, x: seq<real>): (r: real)
    requires k.Valid()
    ensures r >= 0.0
    ensures r == BandPower(k, c, x, c.alphaLow, c.alphaHigh)
  {
    BandPower(k, c, x, c.alphaLow, c.alphaHigh)
  }

  /** `compute_beta_power`: band power over the configured beta edges. */
  function BetaPower(k: Kernels, c: SignalConfig, x: seq<real>): (r: real)
    requires k.Valid()
    ensures r >= 0.0
    ensures r == BandPower(k, c, x, c.betaLow, c.betaHigh)
  {
    BandPower(k, c, x, c.betaLow, c.betaHigh)
  }

  /** `detect_line_noise` of the filter: power within 2 Hz of the mains frequency. */
  function LineNoisePower(k: Kernels, c: SignalConfig, x: seq<real>): (r: real)
    requires k.Valid()
    ensures r >= 0.0
    ensures r == BandPower(k, c, x, c.notchFreq - 2.0, c.notchFreq + 2.0)
  {
    BandPower(k, c, x, c.notchFreq - 2.0, c.notchFreq + 2.0)
  }

  // ---------------------------------------------------------------------
  // Smoothing and drift removal.

  /** Output sample `i` of `np.convolve(x, ones(w) / w, mode='same')`: the
      full convolution is re-centred by `(w - 1) / 2`, and the samples of
      `x` under the kernel are summed and divided by `w`. */
  function SmoothAt(x: seq<real>, w: nat, i: nat): real
    requires 1 <= w && i < |x|
  {
    var off := (w - 1) / 2;
    var lo := if i + off >= w - 1 then i + off - (w - 1) else 0;
    var hi := if i + off + 1 <= |x| then i + off + 1 else |x|;
    Sum(x[lo..hi]) / (w as real)
  }

  /** `smooth_signal`: signals shorter than the window, and non-positive
      windows (for which numpy raises), are returned unchanged; otherwise the
      moving average keeps the length. */
  function SmoothSignal(x: seq<real>, w: int): (r: seq<real>)
    ensures |r| == |x|
    ensures |x| < w || w <= 0 ==> r == x
  {
    if |x| < w || w <= 0 then x
    else seq(|x|, i requires 0 <= i < |x| => SmoothAt(x, w, i))
  }

  lemma {:induction false} SumBounds(s: seq<real>, lo: real, hi: real)
    requires AllBetween(s, lo, hi)
    ensures (|s| as real) * lo <= Sum(s) <= (|s| as real) * hi
    decreases |s|
  {
    if |s| > 0 {
      var m := (|s| - 1) as real;
      var prefix := s[..|s| - 1];
      SumBounds(prefix, lo, hi);
      assert m * lo <= Sum(prefix) <= m * hi;
      assert Sum(s) == Sum(prefix) + s[|s| - 1];
      assert lo <= s[|s| - 1] <= hi;
      assert (|s| as real) == m + 1.0;
      assert (m + 1.0) * lo == m * lo + lo;
      assert (m + 1.0) * hi == m * hi + hi;
    }
  }

  lemma MulNonNegative(a: real, b: real)
    requires a >= 0.0 && b >= 0.0
    ensures a * b >= 0.0
  {
  }

  /** A product with a positive factor is non-negative only if the other factor is. */
  lemma NonNegativeFactor(a: real, w: real)
    requires w > 0.0 && a * w >= 0.0
    ensures a >= 0.0
  {
    if a < 0.0 {
      MulNonNegative(-a, w);
      assert false;
    }
  }

  /** A total between `m * lo` and `m * hi`, divided by some `w >= m`, stays
      within `[lo, hi]` when that interval contains zero. */
  lemma DivisionBounded(total: real, m: real, w: real, lo: real, hi: real)
    requires 0.0 <= m <= w && w > 0.0
    requires m * lo <= total <= m * hi
    requires lo <= 0.0 <= hi
    ensures lo <= total / w <= hi
  {
    MulNonNegative(w - m, hi);
    assert (w - m) * hi == w * hi - m * hi;
    MulNonNegative(w - m, -lo);
    assert (w - m) * -lo == m * lo - w * lo;
    var q := total / w;
    assert q * w == total;
    assert (hi - q) * w == hi * w - q * w;
    NonNegativeFactor(hi - q, w);
    assert (q - lo) * w == q * w - lo * w;
    NonNegativeFactor(q - lo, w);
  }

  /** One output sample of the moving average stays in a band containing zero. */
  lemma SmoothAtBounded(x: seq<real>, w: nat, i: nat, lo: real, hi: real)
    requires 1 <= w && i < |x|
    requires AllBetween(x, lo, hi)
    requires lo <= 0.0 <= hi
    ensures lo <= SmoothAt(x, w, i) <= hi
  {
    var off := (w - 1) / 2;
    var a := if i + off >= w - 1 then i + off - (w - 1) else 0;
    var b := if i + off + 1 <= |x| then i + off + 1 else |x|;
    assert b - a <= w;
    var s := x[a..b];
    assert (|s| as real) * lo <= Sum(s) <= (|s| as real) * hi by {
      SliceBetween(x, a, b, lo, hi);
      SumBounds(s, lo, hi);
    }
    AverageBounded(s, w, lo, hi);
  }

  /** Dividing a sum of at most `w` in-band samples by `w` stays in a band
      that contains zero. */
  lemma AverageBounded(s: seq<real>, w: nat, lo: real, hi: real)
    requires (|s| as real) * lo <= Sum(s) <= (|s| as real) * hi
    requires lo <= 0.0 <= hi
    requires 1 <= w && |s| <= w
    ensures lo <= Sum(s) / (w as real) <= hi
  {
    DivisionBounded(Sum(s), |s| as real, w as real, lo, hi);
  }

  /** A slice of an in-band sequence is in band. */
  lemma SliceBetween(x: seq<real>, a: nat, b: nat, lo: real, hi: real)
    requires a <= b <= |x|
    requires AllBetween(x, lo, hi)
    ensures AllBetween(x[a..b], lo, hi)
  {
    forall j | 0 <= j < b - a
      ensures lo <= x[a..b][j] <= hi
    {
      assert x[a..b][j] == x[a + j];
    }
  }

  /** A moving average never leaves an amplitude band that contains zero
      (the kernel's overhang at the edges adds zeros). */
  lemma SmoothSignalBounded(x: seq<real>, w: int, lo: real, hi: real)
    requires AllBetween(x, lo, hi)
    requires lo <= 0.0 <= hi
    ensures AllBetween(SmoothSignal(x, w), lo, hi)
  {
    if !(|x| < w || w <= 0) {
      var r := SmoothSignal(x, w);
      forall i | 0 <= i < |x|
        ensures lo <= r[i] <= hi
      {
        SmoothAtBounded(x, w, i, lo, hi);
      }
    }
  }

  /** `remove_baseline_drift`: too-short signals only lose their mean;
      longer ones go through the 0.5 Hz high-pass filter. */
  function RemoveBaselineDrift(k: Kernels, c: SignalConfig, x: seq<real>): (r: seq<real>)
    requires k.Valid()
    ensures |r| == |x|
    ensures |x| == 0 ==> r == x
    ensures 0 < |x| < MinFilterLength(c) ==> r == Shift(x, Mean(x)) && Mean(r) == 0.0
    ensures |x| >= MinFilterLength(c) ==> r == k.highpass(x)
  {
    if |x| < MinFilterLength(c) then
      if |x| == 0 then x
      else
        CenteredMeanIsZero(x);
        Shift(x, Mean(x))
    else k.highpass(x)
  }
}
