/** System configuration: the parameter records, the window/overlap/hop
    arithmetic derived from them, default filling for missing sections, and
    the `section__param` keyword updater. */
module Config {
  import opened Wrappers
  import Text

  datatype SerialConfig = SerialConfig(
    port: string,
    baudrate: int,
    timeout: real,
    reconnectDelay: real,
    maxReconnectAttempts: int)

  datatype SignalConfig = SignalConfig(
    samplingRate: real,
    windowSize: real,      // seconds
    windowOverlap: real,   // fraction of a window
    notchFreq: real,
    notchQuality: real,
    bandpassLow: real,
    bandpassHigh: real,
    filterOrder: int,
    alphaLow: real,
    alphaHigh: real,
    betaLow: real,
    betaHigh: real)

  /** The focus-detection section as the configuration file declares it. */
  datatype DecisionConfig = DecisionConfig(
    focusThreshold: real,
    relaxThreshold: real,
    decisionSmoothingWindow: int,
    suppressionHistorySize: int,
    minConfidence: real,
    calibrationDuration: real,
    minQualityScore: real,
    minSnrThreshold: real)

  datatype ArtifactConfig = ArtifactConfig(
    varianceThresholdMultiplier: real,
    betaPowerThreshold: real,
    minSnrDb: real,
    maxLineNoisePower: real,
    saturationThreshold: real)

  datatype LoggingConfig = LoggingConfig(
    enableCsvLogging: bool,
    csvFilename: string,
    logInterval: int,
    logRawSignal: bool,
    logFilteredSignal: bool,
    logBandPowers: bool,
    logLateralizationIndex: bool,
    logDecisions: bool,
    logQualityMetrics: bool)

  datatype VisualizationConfig = VisualizationConfig(
    enableVisualization: bool,
    plotUpdateInterval: real,
    displayWindowDuration: real,
    showRawSignal: bool,
    showFilteredSignal: bool,
    showAlphaPower: bool,
    showLateralizationIndex: bool,
    showDecisions: bool)

  datatype SystemConfig = SystemConfig(
    serial: SerialConfig,
    signal: SignalConfig,
    decision: DecisionConfig,
    artifact: ArtifactConfig,
    logging: LoggingConfig,
    visualization: VisualizationConfig)

  const DefaultSerial := SerialConfig("COM7", 115200, 1.0, 2.0, 10)
  const DefaultSignal := SignalConfig(250.0, 2.0, 0.5, 50.0, 30.0, 1.0, 40.0, 4, 8.0, 12.0, 13.0, 30.0)
  const DefaultDecision := DecisionConfig(0.7, 1.1, 5, 20, 0.6, 10.0, 50.0, 0.0)
  const DefaultArtifact := ArtifactConfig(3.0, 100.0, 5.0, 50.0, 0.95)
  const DefaultLogging := LoggingConfig(true, "eeg_data_log.csv", 1, true, true, true, true, true, true)
  const DefaultVisualization := VisualizationConfig(true, 0.1, 10.0, true, true, true, true, true)

  /** `SystemConfig(...)` followed by `__post_init__`: every section left as
      `None` is replaced by its default, every given section is kept. */
  function PostInit(
    serial: Option<SerialConfig>,
    signal: Option<SignalConfig>,
    decision: Option<DecisionConfig>,
    artifact: Option<ArtifactConfig>,
    logging: Option<LoggingConfig>,
    visualization: Option<VisualizationConfig>): (c: SystemConfig)
    ensures c.serial == if serial.Some? then serial.value else DefaultSerial
    ensures c.signal == if signal.Some? then signal.value else DefaultSignal
    ensures c.decision == if decision.Some? then decision.value else DefaultDecision
    ensures c.artifact == if artifact.Some? then artifact.value else DefaultArtifact
    ensures c.logging == if logging.Some? then logging.value else DefaultLogging
    ensures c.visualization == if visualization.Some? then visualization.value else DefaultVisualization
  {
    SystemConfig(
      serial.GetOr(DefaultSerial),
      signal.GetOr(DefaultSignal),
      decision.GetOr(DefaultDecision),
      artifact.GetOr(DefaultArtifact),
      logging.GetOr(DefaultLogging),
      visualization.GetOr(DefaultVisualization))
  }

  /** The module-level configuration instance, `SystemConfig()`. */
  function DefaultConfig(): SystemConfig {
    PostInit(None, None, None, None, None, None)
  }

  // ---------------------------------------------------------------------
  // Window arithmetic.

  /** Python `int(x)` on a float: truncation toward zero. */
  function Trunc(x: real): (n: int)
    ensures 0.0 <= x ==> 0 <= n && (n as real) <= x < (n as real) + 1.0
    ensures x < 0.0 ==> n <= 0 && (n as real) - 1.0 < x <= (n as real)
  {
    if x >= 0.0 then x.Floor else -((-x).Floor)
  }

  /** `window_samples = int(window_size * sampling_rate)`. */
  function WindowSamples(s: SignalConfig): int {
    Trunc(s.windowSize * s.samplingRate)
  }

  /** `overlap_samples = int(window_samples * window_overlap)`. */
  function OverlapSamples(s: SignalConfig): int {
    Trunc((WindowSamples(s) as real) * s.windowOverlap)
  }

  /** `hop_samples = window_samples - overlap_samples`: new samples per window. */
  function HopSamples(s: SignalConfig): int {
    WindowSamples(s) - OverlapSamples(s)
  }

  /** 250 Hz for 2 s gives 500-sample windows; half overlap gives a 250 hop. */
  lemma DefaultWindowArithmetic()
    ensures WindowSamples(DefaultSignal) == 500
    ensures OverlapSamples(DefaultSignal) == 250
    ensures HopSamples(DefaultSignal) == 250
  {
    assert DefaultSignal.windowSize * DefaultSignal.samplingRate == 500.0;
    assert (500 as real) * DefaultSignal.windowOverlap == 250.0;
  }

  /** With a non-empty window and an overlap fraction in [0, 1), every window
      brings at least one new sample and never more than a whole window. */
  lemma HopWithinWindow(s: SignalConfig)
    requires WindowSamples(s) >= 1
    requires 0.0 <= s.windowOverlap < 1.0
    ensures 0 <= OverlapSamples(s) < WindowSamples(s)
    ensures 0 < HopSamples(s) <= WindowSamples(s)
  {
    var w := WindowSamples(s) as real;
    assert 0.0 <= w * s.windowOverlap < w;
    assert (OverlapSamples(s) as real) <= w * s.windowOverlap;
  }

  // ---------------------------------------------------------------------
  // `update_config(**kwargs)`: the configuration seen as Python attribute
  // dictionaries, since `setattr` stores whatever value it is given.

  datatype Value = RealV(r: real) | IntV(i: int) | BoolV(b: bool) | StrV(s: string)

  type Section = map<string, Value>
  type Store = map<string, Section>

  datatype ConfigError =
    | InvalidKeyFormat(key: string)
    | UnknownSection(section: string)
    | UnknownParameter(param: string, section: string)

  function SerialSection(c: SerialConfig): Section {
    map["port" := StrV(c.port), "baudrate" := IntV(c.baudrate), "timeout" := RealV(c.timeout),
        "reconnect_delay" := RealV(c.reconnectDelay),
        "max_reconnect_attempts" := IntV(c.maxReconnectAttempts)]
  }

  function SignalSection(c: SignalConfig): Section {
    map["sampling_rate" := RealV(c.samplingRate), "window_size" := RealV(c.windowSize),
        "window_overlap" := RealV(c.windowOverlap), "notch_freq" := RealV(c.notchFreq),
        "notch_quality" := RealV(c.notchQuality), "bandpass_low" := RealV(c.bandpassLow),
        "bandpass_high" := RealV(c.bandpassHigh), "filter_order" := IntV(c.filterOrder),
        "alpha_low" := RealV(c.alphaLow), "alpha_high" := RealV(c.alphaHigh),
        "beta_low" := RealV(c.betaLow), "beta_high" := RealV(c.betaHigh)]
  }

  function DecisionSection(c: DecisionConfig): Section {
    map["focus_threshold" := RealV(c.focusThreshold), "relax_threshold" := RealV(c.relaxThreshold),
        "decision_smoothing_window" := IntV(c.decisionSmoothingWindow),
        "suppression_history_size" := IntV(c.suppressionHistorySize),
        "min_confidence" := RealV(c.minConfidence),
        "calibration_duration" := RealV(c.calibrationDuration),
        "min_quality_score" := RealV(c.minQualityScore),
        "min_snr_threshold" := RealV(c.minSnrThreshold)]
  }

  function ArtifactSection(c: ArtifactConfig): Section {
    map["variance_threshold_multiplier" := RealV(c.varianceThresholdMultiplier),
        "beta_power_threshold" := RealV(c.betaPowerThreshold),
        "min_snr_db" := RealV(c.minSnrDb),
        "max_line_noise_power" := RealV(c.maxLineNoisePower),
        "saturation_threshold" := RealV(c.saturationThreshold)]
  }

  function LoggingSection(c: LoggingConfig): Section {
    map["enable_csv_logging" := BoolV(c.enableCsvLogging), "csv_filename" := StrV(c.csvFilename),
        "log_interval" := IntV(c.logInterval), "log_raw_signal" := BoolV(c.logRawSignal),
        "log_filtered_signal" := BoolV(c.logFilteredSignal),
        "log_band_powers" := BoolV(c.logBandPowers),
        "log_lateralization_index" := BoolV(c.logLateralizationIndex),
        "log_decisions" := BoolV(c.logDecisions),
        "log_quality_metrics" := BoolV(c.logQualityMetrics)]
  }

  function VisualizationSection(c: VisualizationConfig): Section {
    map["enable_visualization" := BoolV(c.enableVisualization),
        "plot_update_interval" := RealV(c.plotUpdateInterval),
        "display_window_duration" := RealV(c.displayWindowDuration),
        "show_raw_signal" := BoolV(c.showRawSignal),
        "show_filtered_signal" := BoolV(c.showFilteredSignal),
        "show_alpha_power" := BoolV(c.showAlphaPower),
        "show_lateralization_index" := BoolV(c.showLateralizationIndex),
        "show_decisions" := BoolV(c.showDecisions)]
  }

  /** The attribute view of a configuration: one section per sub-configuration. */
  function ToStore(c: SystemConfig): (st: Store)
    ensures st.Keys == {"serial", "signal", "decision", "artifact", "logging", "visualization"}
  {
    map["serial" := SerialSection(c.serial), "signal" := SignalSection(c.signal),
        "decision" := DecisionSection(c.decision), "artifact" := ArtifactSection(c.artifact),
        "logging" := LoggingSection(c.logging), "visualization" := VisualizationSection(c.visualization)]
  }

  /** One `key=value` of `update_config`: the key must split on `"__"` into
      exactly a known section and a parameter that section already has; then
      exactly that parameter is set and nothing else changes. */
  function UpdateKey(st: Store, key: string, v: Value): (r: Result<Store, ConfigError>)
    ensures |Text.Split(key, "__")| != 2 <==> r == Err(InvalidKeyFormat(key))
    ensures r.Ok? <==>
      (var parts := Text.Split(key, "__");
       |parts| == 2 && parts[0] in st && parts[1] in st[parts[0]])
    ensures r.Ok? ==>
      (var parts := Text.Split(key, "__");
       && r.value.Keys == st.Keys
       && r.value[parts[0]].Keys == st[parts[0]].Keys
       && r.value[parts[0]][parts[1]] == v
       && (forall p :: p in st[parts[0]] && p != parts[1] ==> r.value[parts[0]][p] == st[parts[0]][p])
       && (forall s :: s in st && s != parts[0] ==> r.value[s] == st[s]))
  {
    var parts := Text.Split(key, "__");
    if |parts| != 2 then Err(InvalidKeyFormat(key))
    else
      var section := parts[0];
      var param := parts[1];
      if section !in st then Err(UnknownSection(section))
      else if param !in st[section] then Err(UnknownParameter(param, section))
      else Ok(st[section := st[section][param := v]])
  }

  /** `update_config(**kwargs)`: the keys are applied in order and the first
      bad key raises, so the keys before it stay applied. Returns the
      configuration as it is afterwards and the error raised, if any. Every
      section keeps exactly its parameters: updates change values only. */
  function UpdateConfig(st: Store, updates: seq<(string, Value)>): (r: (Store, Option<ConfigError>))
    ensures forall s :: s in st ==> s in r.0 && r.0[s].Keys == st[s].Keys
    decreases |updates|
  {
    if |updates| == 0 then (st, None)
    else
      match UpdateKey(st, updates[0].0, updates[0].1)
      case Err(e) => (st, Some(e))
      case Ok(st') => UpdateConfig(st', updates[1..])
  }

  /** An update never adds or removes sections. */
  lemma {:induction false} UpdateConfigKeepsSections(st: Store, updates: seq<(string, Value)>)
    ensures UpdateConfig(st, updates).0.Keys == st.Keys
    decreases |updates|
  {
    if |updates| > 0 {
      match UpdateKey(st, updates[0].0, updates[0].1)
      case Err(e) =>
      case Ok(st') => UpdateConfigKeepsSections(st', updates[1..]);
    }
  }

  /** Not atomic: when key `i` is the first bad one, the result is exactly the
      configuration after keys `0..i-1`, and the error is key `i`'s. */
  lemma {:induction false} UpdateConfigStopsAtFirstError(st: Store, updates: seq<(string, Value)>, i: nat)
    requires i < |updates|
    requires UpdateConfig(st, updates[..i]).1.None?
    requires UpdateKey(UpdateConfig(st, updates[..i]).0, updates[i].0, updates[i].1).Err?
    ensures UpdateConfig(st, updates).0 == UpdateConfig(st, updates[..i]).0
    ensures UpdateConfig(st, updates).1
         == Some(UpdateKey(UpdateConfig(st, updates[..i]).0, updates[i].0, updates[i].1).error)
    decreases i
  {
    if i == 0 {
    } else {
      assert updates[..i][0] == updates[0];
      match UpdateKey(st, updates[0].0, updates[0].1)
      case Err(e) =>
        assert false;
      case Ok(st') =>
        assert updates[..i][1..] == updates[1..][..i - 1];
        assert UpdateConfig(st, updates[..i]) == UpdateConfig(st', updates[1..][..i - 1]);
        UpdateConfigStopsAtFirstError(st', updates[1..], i - 1);
    }
  }

  /** Any key without the `__` separator (such as a bare `sampling_rate`)
      is rejected as malformed, whatever the configuration holds. */
  lemma MalformedKeyRejected(st: Store, key: string, v: Value)
    requires forall i :: 0 <= i < |key| - 1 ==> !(key[i] == '_' && key[i + 1] == '_')
    ensures UpdateKey(st, key, v) == Err(InvalidKeyFormat(key))
  {
    SplitWithoutDunder(key);
  }

  /** A string in which no two consecutive characters are both `_` is one part. */
  lemma {:induction false} SplitWithoutDunder(s: string)
    requires forall i :: 0 <= i < |s| - 1 ==> !(s[i] == '_' && s[i + 1] == '_')
    ensures Text.Split(s, "__") == [s]
    decreases |s|
  {
    if |s| >= 2 {
      assert s[..2] != "__" by { assert !(s[0] == '_' && s[1] == '_'); }
      SplitWithoutDunder(s[1..]);
      assert [s[0]] + s[1..] == s;
    }
  }

  /** A key of the documented form `section__param`, naming a parameter the
      section has, sets exactly that parameter. */
  lemma UpdateSectionParameter(st: Store, section: string, param: string, v: Value)
    requires forall i :: 0 <= i < |section| ==> section[i] != '_'
    requires forall i :: 0 <= i < |param| - 1 ==> !(param[i] == '_' && param[i + 1] == '_')
    requires |param| > 0 && param[0] != '_'
    requires section in st && param in st[section]
    ensures UpdateKey(st, section + "__" + param, v) == Ok(st[section := st[section][param := v]])
  {
    SplitAtDunder(section, param);
  }

  /** `a + "__" + b` splits into `[a, b]` when `a` has no underscore and `b`
      neither starts with one nor contains an underscore pair. */
  lemma {:induction false} SplitAtDunder(a: string, b: string)
    requires forall i :: 0 <= i < |a| ==> a[i] != '_'
    requires forall i :: 0 <= i < |b| - 1 ==> !(b[i] == '_' && b[i + 1] == '_')
    requires |b| > 0 && b[0] != '_'
    ensures Text.Split(a + "__" + b, "__") == [a, b]
    decreases |a|
  {
    var s := a + "__" + b;
    if |a| == 0 {
      assert s[..2] == "__";
      assert s[2..] == b;
      SplitWithoutDunder(b);
    } else {
      assert s[..2] != "__" by {
        assert s[0] == a[0];
      }
      assert s[1..] == a[1..] + "__" + b;
      SplitAtDunder(a[1..], b);
      assert [a[0]] + a[1..] == a;
    }
  }
}
