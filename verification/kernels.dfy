/** The numerical library routines the pipeline calls but does not define
    (scipy filter design and zero-phase filtering, Welch spectra, the Hilbert
    envelope, skewness/kurtosis, correlation, square root and logarithm).
    They are carried as function-valued fields of one record, so that every
    operation of the model is stated for ANY routines that satisfy the few
    facts in `Valid` and nothing else about them is assumed. */
module Kernels {
  import opened Wrappers

  /** A one-sided power spectrum: bin frequencies and their densities. */
  datatype Spectrum = Spectrum(freqs: seq<real>, psd: seq<real>)

  /** What Welch's method guarantees: one density per bin, densities are
      non-negative, frequencies ascend. */
  predicate WellFormedSpectrum(sp: Spectrum) {
    && |sp.freqs| == |sp.psd|
    && (forall i :: 0 <= i < |sp.psd| ==> 0.0 <= sp.psd[i])
    && (forall i, j :: 0 <= i < j < |sp.freqs| ==> sp.freqs[i] <= sp.freqs[j])
  }

  datatype Kernels = Kernels(
    notch: seq<real> -> seq<real>,          // filtfilt with the iirnotch design
    bandpass: seq<real> -> seq<real>,       // sosfiltfilt with the bandpass design
    alphaBand: seq<real> -> seq<real>,      // sosfiltfilt with the alpha design
    betaBand: seq<real> -> seq<real>,       // sosfiltfilt with the beta design
    highpass: seq<real> -> seq<real>,       // sosfiltfilt with the 0.5 Hz high-pass
    welch: seq<real> -> Spectrum,           // scipy.signal.welch, nperseg = min(n, fs)
    envelope: seq<real> -> seq<real>,       // |hilbert(x)|
    skew: seq<real> -> real,                // scipy.stats.skew
    kurtosis: seq<real> -> real,            // scipy.stats.kurtosis
    corrcoef: (seq<real>, seq<real>) -> Option<real>,  // Pearson r; None for NaN
    sqrt: real -> real,
    log10: real -> real)
  {
    /** Zero-phase filters and the envelope keep the signal length, spectra
        are well formed, square roots are non-negative, and the logarithm
        vanishes at one and increases strictly on the positive reals. */
    ghost predicate Valid() {
      && (forall x :: |notch(x)| == |x|)
      && (forall x :: |bandpass(x)| == |x|)
      && (forall x :: |alphaBand(x)| == |x|)
      && (forall x :: |betaBand(x)| == |x|)
      && (forall x :: |highpass(x)| == |x|)
      && (forall x :: WellFormedSpectrum(welch(x)))
      && (forall x :: |envelope(x)| == |x|)
      && (forall v :: 0.0 <= v ==> 0.0 <= sqrt(v))
      && log10(1.0) == 0.0
      && (forall a, b :: 0.0 < a < b ==> log10(a) < log10(b))
    }
  }
}
