# Alpha-lateralization attention decoder: a Dafny model

This project models the signal path of a two-channel EEG attention decoder.

- An Arduino streams `timestamp,left,right` lines over a serial port.
- The acquisition layer parses the lines into two bounded channel buffers.
- The real-time engine cuts overlapping windows out of the buffers and filters each window.
- The engine then assesses signal quality and rejects windows with artifacts.
- For a clean window it reduces each channel to its alpha-band power.
- The decision engine turns the two alpha powers into:
  - a lateralization index `(right - left) / (right + left)`;
  - a LEFT / RIGHT / NEUTRAL classification against fixed or adaptive thresholds;
  - a confidence, and a decision smoothed over recent history.
- The validation suite keeps a ledger of test outcomes. It declares the system ready for deployment when at least 80 percent of the tests passed.

One module per source file:

| module | models |
|---|---|
| `Config` (config.dfy) | the configuration dataclasses and their defaults; the window, overlap and hop arithmetic; `update_config` |
| `Filters` (filters.dfy) | the signal filter: filter guards, preprocessing, band power by trapezoidal integration, smoothing, drift removal |
| `Features` (features.dfy) | alpha power, spectral and time-domain features, the flat feature dictionary, minimal features |
| `Metrics` (metrics.dfy) | SNR, the five artifact detectors, the adaptive variance baseline, the quality score, channel quality |
| `Decision` (decision.dfy) | the lateralization index, classification, confidence, adaptive thresholds, smoothing, statistics |
| `Acquisition` (acquisition.dfy) | packet parsing, the sample buffers, batch reads, connect / reconnect, statistics |
| `Realtime` (realtime.dfy) | `process_window`, the buffer side of the `run` loop, the CSV row |
| `Validation` (validation.dfy) | the `ValidationResults` ledger, its summary and the 80 percent readiness rule |
| `Kernels` (kernels.dfy) | the numerical library routines the code calls, as parameters (see below) |
| `Seqs`, `Text`, `Wrappers` | sums, means, variance, bounded deques, sorting and median; `str.split`, `str.strip`, `float()` on a decimal subset; `Option` / `Result` |

The SciPy and NumPy routines become function-valued fields of a `Kernels` record. These are the filters, Welch's spectral estimate, the Hilbert envelope, skewness, kurtosis, the correlation coefficient, `sqrt` and `log10`. `Kernels.Valid()` states only what the code relies on:

- filters preserve length;
- Welch's method returns equally long, ascending, non-negative spectra;
- `sqrt` is non-negative;
- `log10` is positive exactly above 1 and negative exactly below it.

Clock readings and serial-port events are explicit parameters (`now`, `ReadEvent`, `ConnectOutcome`).

The model follows the code in three places where a reader might expect otherwise:

- The comment at decision.py:168 says that NEUTRAL confidence is lower in the middle of the neutral zone. The formula at decision.py:172 computes `1 - (width - 2 * min_dist) / width`, which is 0 at either threshold and 1 at the midpoint. `Decision.NeutralConfidenceShape` proves the shape the formula gives.
- Welch's method is called with `nperseg = min(len(x), int(fs))` (filters.py:238-243). The kernel is described that way.
- The engine's fields `li_left_threshold`, `li_right_threshold`, `adaptive_threshold` and `auto_calibration_samples` are not declared on the configuration file's `DecisionConfig` (config.py:45-61). The model passes them in an explicit `Decision.DecisionParams` record.

## Model

| member | source | states |
|---|---|---|
| Config.PostInit | config.py:122-135 | every sub-configuration left as `None` is replaced by its default and every given one is kept |
| Config.Trunc | config.py:137-150 | Python `int()` on a float truncates toward zero, for both signs |
| Config.DefaultWindowArithmetic | config.py:22-42 | with the defaults (250 Hz, 2 s, 0.5 overlap) a window is 500 samples, the overlap 250 and the hop 250 |
| Config.HopWithinWindow | config.py:137-150 | for any window of at least one sample and overlap in [0, 1), the overlap is smaller than the window and the hop lies in (0, window] |
| Config.ToStore | config.py:112-120 | the attribute view of a configuration has exactly the six section names |
| Config.UpdateKey | config.py:179-192 | a key is rejected as malformed exactly when `split("__")` does not give two parts; it succeeds exactly when the section and the parameter exist; on success exactly that parameter takes the new value and every other section and parameter is unchanged |
| Config.UpdateConfig | config.py:167-192 | applying `update_config` keeps every section with exactly its parameters: only values change |
| Config.UpdateConfigKeepsSections | config.py:167-192 | any sequence of updates keeps the set of sections |
| Config.UpdateConfigStopsAtFirstError | config.py:179-192 | the first failing key raises: later keys are not applied and earlier ones stay applied |
| Config.MalformedKeyRejected | config.py:180-192 | any key with no `__` in it, whatever the store and value, is reported as an invalid key format |
| Config.SplitWithoutDunder | config.py:180 | a key with no `__` splits into itself alone |
| Config.SplitAtDunder | config.py:180-181 | `section__param` splits into exactly `[section, param]` when the section has no underscore and the parameter contains no `__` |
| Config.UpdateSectionParameter | config.py:180-186 | `update_config(section__param=v)` on an existing parameter sets exactly that parameter |
| Filters.Zeros | filters.py:143-145 | `np.zeros_like`: a sequence of the given length holding only zeros |
| Filters.ApplyNotch | filters.py:91-110 | the notch filter keeps length; a signal too short for filtering is returned unchanged and any other goes through the notch design |
| Filters.ApplyBandpass | filters.py:112-131 | the band-pass filter keeps length; a too-short signal is returned unchanged and any other goes through the band-pass design |
| Filters.ExtractAlphaBand | filters.py:133-152 | the alpha band keeps length; a too-short signal gives all zeros and any other goes through the alpha filter |
| Filters.ExtractBetaBand | filters.py:154-174 | the beta band keeps length; a too-short signal gives all zeros and any other goes through the beta filter |
| Filters.Preprocess | filters.py:176-198 | preprocessing keeps the length; an empty signal is returned as is; a signal too short to filter is only centred and has mean zero; otherwise it is centred, notched, then band-passed, in that order |
| Filters.PreprocessCentres | filters.py:186-190 | subtracting the mean centres the signal; a signal too short for filtering comes out with mean zero |
| Filters.TrapezoidNonNegative | filters.py:277-280 | the trapezoidal integral of a well-formed spectrum is non-negative |
| Filters.BandSelect | filters.py:277 | the band mask keeps only bins inside `[low, high]`, drawn from the original spectrum |
| Filters.BandIndices | filters.py:277 | the indices the boolean mask selects: strictly increasing, each inside the band, and every in-band index is among them |
| Filters.BandSelectMatchesMask | filters.py:277 | `psd[mask]` and `freqs[mask]` are exactly the bins at the mask's indices, in order: nothing in the band is dropped and nothing is reordered |
| Filters.BandSelectWellFormed | filters.py:277 | masking a well-formed spectrum leaves a well-formed spectrum, its frequencies still in ascending order |
| Filters.BandSelectEmptyRange | filters.py:273-277 | an inverted band selects nothing |
| Filters.BandPower | filters.py:249-286 | band power is non-negative; it is zero for a signal shorter than twice the filter order or an empty spectrum; otherwise it is the trapezoid integral of the selected bins |
| Filters.BandPowerIntegratesMask | filters.py:276-280 | the integral runs over exactly the bins the mask `low <= f <= high` selects, in their original order, each frequency with its own density |
| Filters.BandPowerEmptyRange | filters.py:273-274 | the power of an inverted band is zero |
| Filters.AlphaPower | filters.py:288-302 | alpha power is the non-negative band power between the configured alpha edges |
| Filters.BetaPower | filters.py:304-318 | beta power is the non-negative band power between the configured beta edges |
| Filters.LineNoisePower | filters.py:377-391 | line-noise power is the non-negative band power within 2 Hz either side of the notch frequency |
| Filters.SmoothSignal | filters.py:320-340 | smoothing keeps length and leaves the signal alone when the window is non-positive or longer than the signal |
| Filters.SmoothSignalBounded | filters.py:320-340 | every smoothed value stays within any bounds that hold for all the input values and straddle zero; `mode='same'` pads with zeros |
| Filters.RemoveBaselineDrift | filters.py:342-375 | drift removal keeps length; an empty signal is returned as is; a too-short non-empty one is only centred and has mean zero; otherwise it is the high-pass filter's output |
| Features.FirstReaching | features.py:143-151 | the search returns the first bin whose cumulative power reaches the target, or reports that none does |
| Features.CumulativeSearchSucceeds | features.py:143-151 | with a non-negative density, any fraction up to one of the total is reached at some bin |
| Features.FirstReachingMonotone | features.py:143-151 | a larger target is reached no earlier |
| Features.CumulativeFrequency | features.py:143-151 | the result is the frequency of the first bin whose cumulative power reaches the target fraction of the total, and 0 when no bin reaches it |
| Features.MedianBelowEdge | features.py:143-151 | the median frequency never exceeds the 95 percent spectral edge |
| Features.PeakFrequency | features.py:153-157 | the peak alpha frequency is 0 for an empty band; otherwise it is the frequency of the first in-band bin of maximal power (`argmax` keeps the first maximum) |
| Features.Fraction | features.py:139-140 | a relative power lies in [0, 1]; it is the share of the total, or 0 when the total is 0 |
| Features.WithPowers | features.py:129-140 | the five band powers are kept; the total is their sum; the relative alpha and beta powers are their shares of it |
| Features.SpectralFeaturesOf | features.py:108-175 | an empty spectrum gives the all-zero features; otherwise the five band powers are those of bands 0.5-4, 4-8, alpha, beta and 30-40 Hz, the relative powers are 0 when the total is, the edge and median frequencies are the 95 and 50 percent cumulative frequencies, and the peak is the alpha-band peak |
| Features.ZeroCrossings | features.py:210-211 | a signal of n samples has at most n - 1 sign changes |
| Features.ConstantSignNoCrossings | features.py:210-211 | a strictly positive signal has no zero crossings |
| Features.AlternatingAllCrossings | features.py:210-211 | a signal alternating in sign crosses zero between every pair of neighbours |
| Features.CrossingRate | features.py:210-211 | the zero-crossing rate is crossings per sample, so it is below one |
| Features.MaxAmplitudeBounds | features.py:217 | every sample lies within plus or minus the maximum absolute amplitude, and some sample attains it |
| Features.EnergyIsScaledPower | features.py:203-214 | energy is the sample count times the mean square |
| Features.TimeFeaturesOf | features.py:177-234 | an empty signal gives the all-zero features; otherwise the mean is the mean, the variance is the mean square about it, peak-to-peak is maximum minus minimum, the maximum amplitude is attained, and energy is the sum of squares |
| Features.StatisticsDescribe | features.py:194-217 | field values computed as mean, population variance, max minus min and largest absolute value describe the signal |
| Features.TimeFeatureRates | features.py:196-214 | the standard deviation is the square root of the variance, skewness and kurtosis come from their kernels, and the crossing rate, energy and RMS match their definitions |
| Features.AlphaPowerPair | features.py:48-76 | each channel's alpha power times its length is the energy of its alpha-band signal, so it is the mean square; both are non-negative, and a channel too short for the band filter has power 0 |
| Features.ShortSignalNoAlpha | features.py:69-70 | the mean square of a too-short signal's alpha band is 0 |
| Features.CrossFeaturesOf | features.py:287-300 | asymmetry is left minus right; the ratio is their quotient, or 0 when the right power is not positive; for equal lengths above one the coherence is the correlation of the two alpha-band signals, or 0 when it is undefined, and otherwise 0 |
| Features.AllFeaturesOf | features.py:236-306 | the full set holds the alpha power pair, the envelope means of both alpha bands, each channel's spectral and time features, and the cross features of those alpha powers |
| Features.FeatureLookupByGroup | features.py:236-306 | reading a key of the flat feature dictionary gives the value of the last group of assignments that writes it |
| Features.LookupLast | features.py:236-306 | a dictionary built by assignments holds each key's last assigned value |
| Features.PrefixedKeys | features.py:269-284 | the prefixed dictionary has exactly the `left_`/`right_` keys of the merged fields |
| Features.AllKeysAssigned | features.py:236-306 | every feature key is present in the dictionary |
| Features.CrossFeaturesKept | features.py:287-300 | the three cross-hemisphere entries hold the cross features |
| Features.AlphaPowerOverwritten | features.py:255-275 | `left_alpha_power` and `right_alpha_power` end up holding the spectral alpha powers, which overwrite the first assignment |
| Features.MinimalFeaturesOf | features.py:308-357 | the minimal set holds the alpha powers of `extract_alpha_power`, each channel's population variance and its beta power; all six are non-negative |
| Features.MinimalAgreesWithAll | features.py:236-357 | the minimal set agrees with the full one: the same alpha powers, variances equal to the time-domain variances, and beta powers equal to the spectral ones whenever the spectrum has bins |
| Features.ChannelMeasuresAgree | features.py:123-197 | a channel's variance is its time-domain variance, and its beta power is its spectral beta power whenever the spectrum has bins |
| Metrics.ArtifactNamesDistinct | metrics.py:25-32 | the artifact type names are pairwise distinct |
| Metrics.Snr | metrics.py:67-110 | SNR is 0 dB for a signal shorter than one second or with no noise power; otherwise it is 10 log10 of alpha power over noise-band power, so its sign says whether the alpha power exceeds the noise power |
| Metrics.DefaultSaturationThresholds | metrics.py:129-130 | for the 10-bit ADC the saturation bands end at 51.15 and start at 971.85 |
| Metrics.SaturatedCount | metrics.py:133-135 | the count of near-rail samples is at most the length; it is 0 when all samples are in range and the length when all are railed |
| Metrics.DetectSaturation | metrics.py:112-148 | an empty signal is never saturated; otherwise saturation holds exactly when the railed fraction exceeds the threshold |
| Metrics.InRangeNotSaturated | metrics.py:112-148 | a signal entirely within the saturation bands is not saturated |
| Metrics.RailedSaturated | metrics.py:112-148 | a non-empty fully railed signal is saturated whenever the threshold is below one |
| Metrics.DetectMuscle | metrics.py:150-174 | a muscle artifact is reported exactly when the beta power exceeds the threshold; a signal too short to filter has power 0, so it is reported only for a negative threshold |
| Metrics.DetectLineNoise | metrics.py:223-245 | a line-noise artifact is reported exactly when the power within 2 Hz of the notch frequency exceeds the limit; a too-short signal is reported only for a negative limit |
| Metrics.DetectLowSignal | metrics.py:247-274 | an empty signal is not low; otherwise a signal is low exactly when its mean power is below the minimum expected power |
| Metrics.UnitAmplitudeNotLow | metrics.py:247-274 | a signal with every amplitude at least 1 is never flagged as low |
| Metrics.ZeroSignalLow | metrics.py:247-274 | an all-zero signal is always flagged as low |
| Metrics.UpdateVariance | metrics.py:176-221 | the variance is recorded in the bounded history; with fewer than 10 stored values nothing is flagged; otherwise the median is refreshed and the verdict is exactly "above multiplier times median" |
| Metrics.UpdateVariancePreserves | metrics.py:176-221 | the baseline invariant is kept: at most 100 non-negative values; a median exists exactly from 10 values on, and it is their median |
| Metrics.FeedKeepsLastHundred | metrics.py:192-194 | after any sequence of variances the history is exactly the last 100 of them |
| Metrics.WarmupNeverFlags | metrics.py:197-201 | the first nine variances never raise a high-variance artifact |
| Metrics.DetectArtifacts | metrics.py:276-312 | the detectors run in order (low signal, saturation, muscle, variance, line noise), the first that fires names the artifact, and the variance baseline changes only when the variance check is reached |
| Metrics.CleanIffNoDetector | metrics.py:276-312 | a signal is clean exactly when none of the five detectors fires |
| Metrics.DetectArtifactsPreserves | metrics.py:276-312 | artifact detection keeps the baseline invariant |
| Metrics.Clip | metrics.py:369 | the clipped score lies in [0, 100] and an in-range score is unchanged |
| Metrics.SnrPenalty | metrics.py:335-341 | the penalty is 0 when the average SNR meets the minimum, three points per dB below it, and capped at 30 from 10 dB below on |
| Metrics.ScoreValue | metrics.py:335-369 | the score is 100 minus the SNR penalty, 40 for an artifact, 15 for unstable variance and 15 for power asymmetry; it lies in [0, 100] |
| Metrics.QualityScore | metrics.py:314-375 | the score runs both channels' detections in order, averages their SNRs and compares against the median they leave; it is 100 minus exactly the deductions those flags earn |
| Metrics.QualityScorePreserves | metrics.py:314-375 | scoring keeps the baseline invariant |
| Metrics.ChannelQualityOf | metrics.py:377-426 | quality is OK exactly when the channel is clean and its SNR meets the minimum; `has_artifact` holds exactly when the type is not CLEAN; the report carries the mean-square power, the population variance and the alpha and beta band powers |
| Metrics.ChannelQualityExplains | metrics.py:247-312 | the reported powers explain the verdict: LOW_SIGNAL exactly when the mean power is below 1, MUSCLE only with beta power above the threshold, CLEAN only when neither holds |
| Metrics.Reset | metrics.py:428-431 | a reset empties the variance history and forgets the median |
| Decision.NewEngine | decision.py:40-68 | a new engine has empty histories, the configured thresholds, and no calibration |
| Decision.ResetCalibration | decision.py:370-377 | a reset empties both histories, restores the configured thresholds, clears calibration and keeps the parameters |
| Decision.ResetRestoresConstruction | decision.py:370-377 | resetting calibration gives exactly a freshly constructed engine, and resetting twice is the same as once |
| Decision.LateralizationIndex | decision.py:72-113 | the index lies in [-1, 1] and is 0 when the total power is 0 |
| Decision.LateralizationSign | decision.py:100-107 | for non-negative powers with a positive total, the index times the total is right minus left; it is 0, positive or negative exactly as the powers are equal, right-heavy or left-heavy |
| Decision.Classify | decision.py:115-145 | LEFT exactly below the left threshold; RIGHT exactly above the right threshold and not LEFT; NEUTRAL exactly between them inclusive |
| Decision.ClassifyMonotone | decision.py:115-145 | a larger index never moves the decision towards LEFT |
| Decision.Confidence | decision.py:147-196 | LEFT confidence is twice the distance past the left threshold over 1 + its magnitude, capped at 1. RIGHT confidence is twice the distance past the right threshold over 1 minus that threshold, capped at 1. UNKNOWN gives 0 and an empty neutral zone gives 0.5. Confidence is at most 1, and non-negative unless the decision is RIGHT with a right threshold above 1 |
| Decision.NeutralConfidenceShape | decision.py:163-175 | NEUTRAL confidence is twice the distance to the nearer threshold over the zone width: 0 at either threshold and 1 at the midpoint |
| Decision.LeftConfidenceGrows | decision.py:177-181 | further below the left threshold means no less confident |
| Decision.RightConfidenceGrows | decision.py:183-187 | further above a right threshold below 1 means no less RIGHT confidence |
| Decision.ClassifiedConfidenceBounded | decision.py:147-196 | for an index in [-1, 1], the confidence of its own classification lies in [0, 1] |
| Decision.Adapt | decision.py:295-351 | nothing changes below 20 stored indices. The first calibration sets the zone to mean ± std. Afterwards the midpoint and the width move a tenth of the way towards the new statistics, and the width never drops below 0.1 |
| Decision.MakeDecision | decision.py:198-244 | the index is recorded and classified against the adapted thresholds. A LEFT/RIGHT below the minimum confidence becomes NEUTRAL, and otherwise the classification stands. The pair is appended to the bounded decision history |
| Decision.MakeDecisionPreserves | decision.py:198-244 | deciding keeps the engine invariant: bounded histories, indices in [-1, 1], stored confidences in [0, 1], no stored UNKNOWN |
| Decision.SmallCapacityNeverCalibrates | decision.py:303-304 | when the history holds fewer than 20 indices the thresholds never move |
| Decision.CalibratedKeepsSeparation | decision.py:344-348 | once calibrated, the adaptive zone stays at least 0.1 wide |
| Decision.ScoresPartition | decision.py:260-270 | the per-class confidence scores add up to the total confidence of the history |
| Decision.SmoothedDecision | decision.py:246-293 | an empty history gives UNKNOWN. All-zero scores give NEUTRAL with 0. Otherwise the class with the greatest score wins, ties going to LEFT, then RIGHT, then NEUTRAL, and the confidence is the mean over the history |
| Decision.SmoothedConfidenceBounded | decision.py:286-287 | in a reachable engine the smoothed confidence lies in [0, 1] |
| Decision.CountsPartition | decision.py:381-436 | the decision counts per class add up to the history length |
| Decision.GetStatistics | decision.py:381-436 | all zero without indices; otherwise the mean and the standard deviation are those of the index history, minimum ≤ mean ≤ maximum with both extremes attained, the average confidence is the mean of the stored confidences, and the decision counts per class |
| Acquisition.NewAcquisition | acquisition.py:34-57 | a new acquisition keeps its configuration, is disconnected, with empty buffers and zero counters, and its last packet time is the construction time |
| Acquisition.ParsePacket | acquisition.py:181-219 | a line is accepted exactly when it has three numeric fields with both channel values in [0, 5000]; a rejected line adds one to the corruption count and changes nothing else |
| Acquisition.FormatParseRoundTrip | acquisition.py:181-219 | a packet printed from in-range whole numbers parses back to exactly those numbers without counting a corruption |
| Acquisition.StripNewline | acquisition.py:196 | stripping removes the trailing newline of a digit-bounded line |
| Acquisition.ReadSample | acquisition.py:221-261 | disconnected or no data: nothing happens. A port error disconnects. A rejected line only adds one corruption. A valid packet is appended to both bounded buffers, counted and time-stamped |
| Acquisition.BatchOf | acquisition.py:263-295 | a batch holds at most `max_samples` samples and no more than there were events; it stops at the first read without a sample |
| Acquisition.ReadBatch | acquisition.py:263-295 | the loop returns three equally long columns, which are exactly the reference batch's samples, and the same final state |
| Acquisition.PySuffix | acquisition.py:307-308 | `buffer[-n:]`: the newest `n` items; the whole buffer when `n` is 0 or exceeds the length |
| Acquisition.GetBufferData | acquisition.py:297-310 | both channels return their newest `n` samples, equally many |
| Acquisition.ClearBuffers | acquisition.py:337-340 | clearing empties both buffers and keeps everything else |
| Acquisition.Connect | acquisition.py:89-143 | connecting succeeds exactly when the port opens, and then resets the attempt counter; a failed open leaves the acquisition disconnected |
| Acquisition.Disconnect | acquisition.py:145-154 | disconnecting changes only the connection flag |
| Acquisition.Reconnect | acquisition.py:156-179 | nothing happens within the cooldown. After it, the attempt is stamped and counted; beyond the maximum it fails, otherwise it connects. The buffers are untouched |
| Acquisition.AttemptsExhausted | acquisition.py:172-174 | once the maximum number of attempts is used up, reconnection never succeeds again |
| Acquisition.FailedReconnectsCount | acquisition.py:166-171 | each failed reconnect after its cooldown adds exactly one attempt |
| Acquisition.CorruptionRate | acquisition.py:319-322 | the corrected corruption rate is the corrupted share of all packets in percent. It lies in [0, 100], is 100 exactly when no packet was good, and agrees with the code whenever a packet was received |
| Acquisition.GetStatistics | acquisition.py:312-335 | as written: the counters, buffer sizes, time, connection state and attempts are reported; the rate is the corrupted share of all packets in percent when a packet was received, and 0 otherwise |
| Acquisition.CorrectedStatistics | acquisition.py:312-335 | the corrected statistics differ from the code's only in the rate, which is the corrupted share of all packets in [0, 100], and equal them whenever a packet was received |
| Realtime.NewRuntime | realtime_engine.py:46-84 | a new engine has window and hop from the configuration, empty buffers, zero counters, no processing times, a fresh baseline and a fresh decision engine |
| Realtime.NewRuntimeInvariant | realtime_engine.py:46-84 | the initial state satisfies the runtime invariant |
| Realtime.Assess | realtime_engine.py:180-186 | the window is scored first; the left channel's quality is judged against the baseline the score leaves, and the right channel's against the one the left leaves; the score lies in [0, 100] and each flag matches its artifact type |
| Realtime.FourRecordsPerWindow | realtime_engine.py:180-186 | a window whose channels both reach the variance check records four variances: the score's two, then the channel-quality calls' two |
| Realtime.GatedWindowKeepsBaseline | realtime_engine.py:180-186 | a window stopped by an earlier detector on both channels leaves the variance baseline alone |
| Realtime.ProcessWindow | realtime_engine.py:158-260 | an artifact on either channel gives the degraded record and leaves the engine, the window count and the timings alone. Otherwise the engine decides, the record reports it with the smoothed direction, and the time and window are counted |
| Realtime.ProcessWindowPreserves | realtime_engine.py:158-260 | processing a window keeps the runtime invariant |
| Realtime.ArtifactWindowHidden | realtime_engine.py:197-222 | a window rejected for an artifact carries the UNKNOWN smoothed direction, so the display filter (line 355) never shows it |
| Realtime.CleanWindowShown | realtime_engine.py:225-252 | a clean window passes the display filter (line 355) exactly when the smoothing window can hold a decision |
| Realtime.Slide | realtime_engine.py:288-331 | an empty batch changes nothing. A non-empty one extends both bounded buffers and counts the samples. Once the buffers hold a window, the window is cut out and the hop dropped from the front |
| Realtime.SlideKeepsSuffix | realtime_engine.py:305-313 | the buffers stay the newest part of each channel's stream, and each window cut is exactly the newest `window_samples` received |
| Realtime.Pass | realtime_engine.py:288-331 | one loop pass processes a window exactly when the buffers yield one, and its buffer effect is that of `Slide`. When a window is cut, the record and the following state (engine, baseline, processing times, window count) are those of `ProcessWindow` on that window |
| Realtime.PassProcessesNewest | realtime_engine.py:305-324 | the window processed by a pass is the newest `window_samples` of each stream |
| Realtime.PassPreserves | realtime_engine.py:262-345 | a loop pass keeps the runtime invariant |
| Realtime.SlideAllCounts | realtime_engine.py:305-307 | after any sequence of batches the sample counter has grown by the number of samples received |
| Realtime.SlideAllKeepsSuffix | realtime_engine.py:305-331 | after any sequence of batches each buffer is a suffix of everything received on its channel |
| Realtime.Entries | realtime_engine.py:237-252 | a result row carries the thirteen CSV columns of lines 114-128 in order, plus `processing_time_ms` |
| Realtime.WriteRow | realtime_engine.py:130-149 | `DictWriter.writerow` refuses a row with a key outside the field names when extras raise; otherwise each column holds the row's value for it |
| Realtime.EveryRowRefused | realtime_engine.py:114-149 | as written, every result row is refused by the CSV writer |
| Realtime.EveryRowLogged | realtime_engine.py:114-149 | with extra keys ignored, every row is written and each column holds the record's value |
| Validation.NewLedger | validation.py:42-47 | a new ledger has zero counters, no results and no metrics |
| Validation.AddResult | validation.py:49-63 | the entry is stored under the test name and replaces an earlier one; other names are untouched; exactly the matching counter grows; the test's metrics are merged in and win |
| Validation.AddResultPreserves | validation.py:49-63 | there are never more stored results than tests added |
| Validation.ReplayCounts | validation.py:58-61 | after a run, the counters are the numbers of passing and failing tests |
| Validation.ReplayNames | validation.py:51-56 | after a run, the stored names are exactly the test names |
| Validation.ReplayLastWins | validation.py:51-56 | after a run, each name holds the outcome and metrics of its last report |
| Validation.ReplayInvariant | validation.py:49-63 | every run's ledger satisfies the invariant |
| Validation.GetSummary | validation.py:65-77 | the total is passed plus failed; the pass rate is 0 when nothing ran and otherwise the passed share in percent, within [0, 100] |
| Validation.Ready | validation.py:1378 | ready exactly when at least one test ran and at least four fifths of the tests passed |
| Validation.ReadyExtremes | validation.py:1378 | an empty run is never ready; a run in which every test passed always is |
| Validation.ReadyMonotone | validation.py:1378 | a further pass never withdraws readiness and a further failure never grants it |

## Left out

- Numerical library routines: the SciPy and NumPy filters, Welch's estimate, the Hilbert envelope, skewness, kurtosis and the correlation coefficient are `Kernels` parameters. Only the properties in `Kernels.Valid()` are assumed of them.
- `sqrt` and `log10` are `Kernels` parameters, because reals have no transcendental functions.
- Floating point: all arithmetic is exact real arithmetic.
  - NaN and infinities are not modelled.
  - NumPy's mean or variance of an empty array (NaN) is excluded by `|x| > 0` preconditions. These apply to the variance baseline, quality score, channel quality, features and `process_window`, which the model only reaches with windows of at least one sample (see `Realtime.NewRuntime` below).
- Exceptions: the catch-all handlers that log an error and return a default are not modelled, except where the failure is the point. The filter and feature fallbacks return their documented neutral values. `process_window` returning `None` is not modelled, because with total kernels nothing inside it raises.
- `Text.ParseFloat` accepts `[+-]digits[.digits]` with surrounding whitespace. Python's `float()` also takes exponents, `inf`, `nan` and underscores; lines using them are treated as corrupted.
- `Text.IsSpace` lists the ASCII and Latin-1 whitespace characters. Other Unicode spaces that `str.strip()` removes are not included.
- I/O is replaced by parameters:
  - serial port reads become a `ReadEvent` sequence;
  - port opening becomes a `ConnectOutcome`;
  - the clock becomes `now` and `elapsedMs`.
  - Logging calls, sleeps and the CSV file flush are left out.
- `detect_arduino_port` (acquisition.py:59-87) enumerates system ports; its result is folded into `ConnectOutcome`.
- `connect_and_start`, `stop`, `_display_status`, `run`'s idle and reconnect branch, and its duration check (realtime_engine.py:86-105, 262-302, 333-336, 371-436): these orchestrate I/O and printing and compute nothing beyond the modelled steps.
- Decision.Confidence: a RIGHT decision with a right threshold of exactly 1 is not given a value. The source divides the distance by `1.0 - threshold` = 0 (decision.py:185-186). Its index is a NumPy value from `np.clip`, so that gives infinity or NaN rather than an exception. The case cannot arise from `make_decision`: a clipped index never exceeds 1, so it is never classified RIGHT against that threshold. The model returns 0 there and states nothing about it.
- Realtime.NewRuntime: requires `WindowSamples(c) >= 1`, and so do the engine operations built on it. `window_samples` is `int(window_size * sampling_rate)` (config.py:137-140) with no lower bound, and `update_config` can change `window_size`. When the product is below 1, the buffers are `deque(maxlen=0)` (realtime_engine.py:68-69), the test `len(buffer) >= 0` at line 310 always holds, and `buffer[-0:]` hands an empty window to `process_window` on every pass, where NumPy's statistics give NaN. The model leaves that configuration out.
- Realtime.SlideAllCounts: run-level accounting is stated for the buffers and the sample counter only. Window counts over many passes follow from `Realtime.Pass` one pass at a time and are not folded into a whole-run lemma.
- `get_calibration_status` (decision.py:353-368) only reads out engine fields; no property is stated about it.
- `extract_alpha_envelope` (features.py:78-106) is the envelope kernel on the alpha band. `Features.AllFeaturesOf` states the envelope means; the envelope standard deviations carry no contract beyond being read from the same envelopes.
- `compute_envelope` and `compute_power_spectrum` (filters.py:200-247) are the `envelope` and `welch` kernels.
- Config.UpdateKey: sections and parameters are the dataclass fields held in a typed map. Python's `hasattr` would also accept properties and methods such as `window_samples`, and `setattr` stores values of any type; neither is modelled.
- Config changes made while the engine runs are not modelled; the engine reads its configuration once.
- `get_config` returns the module-level instance; the model passes configurations explicitly.
- Validation: `export_json`, `export_csv` and the report printing are file and console output. `pass_criteria` is initialised and never written. The individual validation tests run hardware and user interaction and are not modelled.
- Validation.GetSummary: a pass rate of integer `0` versus float `0.0` is not distinguished.
- The focus / relaxation engine and its suppression-ratio classification belong to a different pipeline and are not modelled.

## Findings

| source | as written | input that shows it | evidently intended | confidence | as-written member | corrected member |
|---|---|---|---|---|---|---|
| acquisition.py:319-322 | the corruption rate is computed only when `packets_received > 0`, otherwise it stays 0.0 | 0 packets received, 10 corrupted: the reported rate is 0 percent | the corrupted share of all packets, 100 percent for a fully corrupted stream, computed whenever any packet, good or corrupted, arrived | high; not executed | Acquisition.CorruptionRateAsWritten, Acquisition.AllCorruptedReportsZero, Acquisition.GetStatistics | Acquisition.CorruptionRate, Acquisition.CorrectedStatistics |
| realtime_engine.py:114-156 | the CSV `DictWriter` is created with 13 field names; every result also carries `processing_time_ms`, so `writerow` raises `ValueError`, which is caught and logged (lines 155-156) | any processed window, clean or with an artifact | every result row written under the 13 columns; alternatively the 14th column declared | high; not executed | Realtime.LogRowAsWritten, Realtime.EveryRowRefused | Realtime.LogRow, Realtime.EveryRowLogged |
