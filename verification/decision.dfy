/** The lateralization decision engine: the lateralization index of two
    alpha powers, its three-way classification against (possibly adaptive)
    thresholds, a distance-based confidence, demotion of weak decisions, the
    two bounded histories, the confidence-weighted vote over the decision
    history, the adaptive-threshold calibration and the statistics. */
module Decision {
  import opened Wrappers
  import opened Seqs
  import opened Kernels
  import opened Filters

  datatype Direction = Left | Right | Neutral | Unknown

  /** The enum's `.value`. */
  function DirectionName(d: Direction): (s: string)
    ensures |s| > 0
  {
    match d
    case Left => "LEFT"
    case Right => "RIGHT"
    case Neutral => "NEUTRAL"
    case Unknown => "UNKNOWN"
  }

  /** The parameters the engine reads from its configuration object: the
      fixed thresholds, the two history capacities, whether thresholds
      adapt, and the confidence below which a decision is demoted. */
  datatype DecisionParams = DecisionParams(
    liLeftThreshold: real,
    liRightThreshold: real,
    smoothingWindow: nat,
    calibrationSamples: nat,
    adaptiveThreshold: bool,
    minConfidence: real)

  /** The engine's state; histories are oldest first. */
  datatype Engine = Engine(
    params: DecisionParams,
    decisions: seq<(Direction, real)>,
    liHistory: seq<real>,
    leftThreshold: real,
    rightThreshold: real,
    calibrated: bool,
    calibrationCount: nat)

  /** The constructor's state, which `reset_calibration` also restores. */
  function NewEngine(p: DecisionParams): (e: Engine)
    ensures |e.decisions| == 0 && |e.liHistory| == 0
    ensures e.leftThreshold == p.liLeftThreshold && e.rightThreshold == p.liRightThreshold
    ensures !e.calibrated && e.calibrationCount == 0
  {
    Engine(p, [], [], p.liLeftThreshold, p.liRightThreshold, false, 0)
  }

  /** `reset_calibration`: both histories emptied, the configured
      thresholds restored, calibration cleared, parameters kept. */
  function ResetCalibration(e: Engine): (r: Engine)
    ensures r.params == e.params
    ensures |r.decisions| == 0 && |r.liHistory| == 0
    ensures r.leftThreshold == e.params.liLeftThreshold && r.rightThreshold == e.params.liRightThreshold
    ensures !r.calibrated && r.calibrationCount == 0
  {
    NewEngine(e.params)
  }

  /** Resetting restores the constructor state, and resetting twice is
      resetting once. */
  lemma ResetRestoresConstruction(e: Engine)
    ensures ResetCalibration(e) == NewEngine(e.params)
    ensures ResetCalibration(ResetCalibration(e)) == ResetCalibration(e)
  {
  }

  // ---------------------------------------------------------------------
  // Lateralization index.

  /** `compute_lateralization_index`: (right - left) / (right + left)
      clipped to [-1, 1], and 0 when the total is zero. */
  function LateralizationIndex(left: real, right: real): (li: real)
    ensures -1.0 <= li <= 1.0
    ensures left + right == 0.0 ==> li == 0.0
  {
    var total := left + right;
    if total == 0.0 then 0.0 else Clamp((right - left) / total, -1.0, 1.0)
  }

  /** For non-negative powers with a positive total no clipping happens: the
      index times the total is the difference of the powers, so its sign
      says which hemisphere carries more alpha and it is zero exactly for
      equal powers. */
  lemma LateralizationSign(left: real, right: real)
    requires 0.0 <= left && 0.0 <= right && left + right > 0.0
    ensures LateralizationIndex(left, right) * (left + right) == right - left
    ensures LateralizationIndex(left, right) == 0.0 <==> left == right
    ensures LateralizationIndex(left, right) > 0.0 <==> right > left
    ensures LateralizationIndex(left, right) < 0.0 <==> left > right
  {
    var total := left + right;
    var q := (right - left) / total;
    assert q * total == right - left;
    assert -1.0 <= q <= 1.0 by {
      RatioAbove(right - left, total, 1.0);
      RatioBelow(right - left, total, -1.0);
    }
    RatioAbove(right - left, total, 0.0);
    RatioBelow(right - left, total, 0.0);
  }

  // ---------------------------------------------------------------------
  // Classification and confidence.

  /** `classify_attention`: strictly below the left threshold is LEFT,
      otherwise strictly above the right threshold is RIGHT, otherwise
      NEUTRAL (equality with a threshold included). */
  function Classify(leftThreshold: real, rightThreshold: real, li: real): (d: Direction)
    ensures d != Unknown
    ensures d == Left <==> li < leftThreshold
    ensures d == Right <==> leftThreshold <= li && rightThreshold < li
    ensures d == Neutral <==> leftThreshold <= li <= rightThreshold
  {
    if li < leftThreshold then Left
    else if li > rightThreshold then Right
    else Neutral
  }

  /** Position of a direction on the LI axis. */
  function Rank(d: Direction): int {
    match d
    case Left => 0
    case Neutral => 1
    case Right => 2
    case Unknown => 1
  }

  /** Classification is monotone in the index, whatever the thresholds: a
      larger index never moves the decision towards LEFT. */
  lemma ClassifyMonotone(leftThreshold: real, rightThreshold: real, li1: real, li2: real)
    requires li1 <= li2
    ensures Rank(Classify(leftThreshold, rightThreshold, li1)) <= Rank(Classify(leftThreshold, rightThreshold, li2))
  {
  }

  /** `compute_confidence`. NEUTRAL: twice the distance to the nearer
      threshold over the zone width, clipped, or 0.5 for an empty zone.
      LEFT: distance past the left threshold, doubled, over 1 + |threshold|,
      capped at 1. RIGHT: the same over 1 - threshold; a threshold of exactly
      1 leaves no span to divide by and is given 0 here. UNKNOWN: 0. */
  function Confidence(leftThreshold: real, rightThreshold: real, li: real, d: Direction): (c: real)
    ensures c <= 1.0
    ensures d != Right ==> 0.0 <= c
    ensures d == Right && rightThreshold <= 1.0 ==> 0.0 <= c
    ensures d == Unknown ==> c == 0.0
    ensures d == Neutral && rightThreshold <= leftThreshold ==> c == 0.5
    ensures d == Left ==> c == MinReal(Abs(li - leftThreshold) / (1.0 + Abs(leftThreshold)) * 2.0, 1.0)
    ensures d == Right && rightThreshold != 1.0 ==>
      c == MinReal(Abs(li - rightThreshold) / (1.0 - rightThreshold) * 2.0, 1.0)
  {
    match d
    case Neutral =>
      var width := rightThreshold - leftThreshold;
      if width > 0.0 then
        var minDist := MinReal(Abs(li - leftThreshold), Abs(li - rightThreshold));
        Clamp(1.0 - (width - 2.0 * minDist) / width, 0.0, 1.0)
      else 0.5
    case Left =>
      var maxDistance := 1.0 + Abs(leftThreshold);
      MinReal(Abs(li - leftThreshold) / maxDistance * 2.0, 1.0)
    case Right =>
      var maxDistance := 1.0 - rightThreshold;
      if maxDistance == 0.0 then 0.0
      else
        assert maxDistance > 0.0 ==> Abs(li - rightThreshold) / maxDistance >= 0.0 by {
          if maxDistance > 0.0 { RatioBelow(Abs(li - rightThreshold), maxDistance, 0.0); }
        }
        MinReal(Abs(li - rightThreshold) / maxDistance * 2.0, 1.0)
    case Unknown => 0.0
  }

  /** Inside a non-empty neutral zone the confidence is twice the distance
      to the nearer threshold over the zone width: 0 on either threshold,
      rising to 1 at the midpoint. */
  lemma NeutralConfidenceShape(leftThreshold: real, rightThreshold: real, li: real)
    requires leftThreshold < rightThreshold
    requires leftThreshold <= li <= rightThreshold
    ensures Confidence(leftThreshold, rightThreshold, li, Neutral) * (rightThreshold - leftThreshold)
      == 2.0 * MinReal(li - leftThreshold, rightThreshold - li)
    ensures li == leftThreshold || li == rightThreshold ==> Confidence(leftThreshold, rightThreshold, li, Neutral) == 0.0
    ensures 2.0 * li == leftThreshold + rightThreshold ==> Confidence(leftThreshold, rightThreshold, li, Neutral) == 1.0
  {
    var width := rightThreshold - leftThreshold;
    var m := MinReal(li - leftThreshold, rightThreshold - li);
    assert MinReal(Abs(li - leftThreshold), Abs(li - rightThreshold)) == m;
    var c := Confidence(leftThreshold, rightThreshold, li, Neutral);
    assert c == Clamp(1.0 - (width - 2.0 * m) / width, 0.0, 1.0);
    ClampedShare(width, m);
    if li == leftThreshold || li == rightThreshold {
      assert m == 0.0;
      assert c * width == 0.0;
    }
    if 2.0 * li == leftThreshold + rightThreshold {
      assert 2.0 * m == width;
      assert c * width == 1.0 * width;
    }
  }

  /** The clamped neutral share is exactly twice the distance over the width. */
  lemma ClampedShare(width: real, m: real)
    requires 0.0 < width && 0.0 <= 2.0 * m <= width
    ensures Clamp(1.0 - (width - 2.0 * m) / width, 0.0, 1.0) * width == 2.0 * m
  {
    var q := (width - 2.0 * m) / width;
    assert q * width == width - 2.0 * m;
    assert 0.0 <= q <= 1.0 by {
      RatioBelow(width - 2.0 * m, width, 0.0);
      RatioAbove(width - 2.0 * m, width, 1.0);
    }
    assert (1.0 - q) * width == 2.0 * m;
  }

  /** Further below the left threshold never means less LEFT confidence. */
  lemma LeftConfidenceGrows(leftThreshold: real, rightThreshold: real, li1: real, li2: real)
    requires li1 <= li2 < leftThreshold
    ensures Confidence(leftThreshold, rightThreshold, li2, Left) <= Confidence(leftThreshold, rightThreshold, li1, Left)
  {
    var md := 1.0 + Abs(leftThreshold);
    var q1 := Abs(li1 - leftThreshold) / md;
    var q2 := Abs(li2 - leftThreshold) / md;
    assert q1 * md == leftThreshold - li1;
    assert q2 * md == leftThreshold - li2;
    assert (q1 - q2) * md == li2 - li1;
    NonNegativeFactor(q1 - q2, md);
  }

  /** Further above the right threshold never means less RIGHT confidence,
      as long as that threshold lies below 1 so the distance is divided by a
      positive span. */
  lemma RightConfidenceGrows(leftThreshold: real, rightThreshold: real, li1: real, li2: real)
    requires rightThreshold < 1.0
    requires rightThreshold < li1 <= li2
    ensures Confidence(leftThreshold, rightThreshold, li1, Right) <= Confidence(leftThreshold, rightThreshold, li2, Right)
  {
    var md := 1.0 - rightThreshold;
    var q1 := Abs(li1 - rightThreshold) / md;
    var q2 := Abs(li2 - rightThreshold) / md;
    assert q1 * md == li1 - rightThreshold;
    assert q2 * md == li2 - rightThreshold;
    assert (q2 - q1) * md == li2 - li1;
    NonNegativeFactor(q2 - q1, md);
  }

  /** A classified index in [-1, 1] always gets a confidence in [0, 1]:
      reaching RIGHT forces the right threshold below 1. */
  lemma ClassifiedConfidenceBounded(leftThreshold: real, rightThreshold: real, li: real)
    requires -1.0 <= li <= 1.0
    ensures 0.0 <= Confidence(leftThreshold, rightThreshold, li, Classify(leftThreshold, rightThreshold, li)) <= 1.0
  {
  }

  // ---------------------------------------------------------------------
  // Adaptive thresholds.

  const MinCalibrationHistory := 20
  const AdaptationRate := 0.1
  const MinSeparation := 0.1

  /** `np.std`: the square root of the population variance. */
  function StdDev(k: Kernels, s: seq<real>): (r: real)
    requires k.Valid() && |s| > 0
    ensures r >= 0.0
  {
    k.sqrt(Variance(s))
  }

  /** `_update_adaptive_thresholds`. Nothing happens below 20 stored
      indices. Before calibration, once the history holds the configured
      number of samples, the thresholds become mean -/+ std and the engine
      is calibrated. After calibration both thresholds move a tenth of the
      way towards mean -/+ std, and a zone narrower than 0.1 is re-centred
      at its midpoint with width exactly 0.1. So the midpoint follows an
      exponential average of the index mean, and the width afterwards is
      the larger of 0.1 and the averaged width. */
  function Adapt(k: Kernels, e: Engine): (r: Engine)
    requires k.Valid()
    ensures r.params == e.params && r.decisions == e.decisions && r.liHistory == e.liHistory
    ensures r.calibrationCount == e.calibrationCount
    ensures e.calibrated ==> r.calibrated
    ensures |e.liHistory| < MinCalibrationHistory ==> r == e
    ensures !e.calibrated && |e.liHistory| < e.params.calibrationSamples ==> r == e
    ensures !e.calibrated && |e.liHistory| >= MinCalibrationHistory && |e.liHistory| >= e.params.calibrationSamples ==>
      && r.calibrated
      && r.leftThreshold <= r.rightThreshold
      && r.leftThreshold + r.rightThreshold == 2.0 * Mean(e.liHistory)
      && r.rightThreshold - r.leftThreshold == 2.0 * StdDev(k, e.liHistory)
    ensures e.calibrated && |e.liHistory| >= MinCalibrationHistory ==>
      && r.leftThreshold + r.rightThreshold
           == (1.0 - AdaptationRate) * (e.leftThreshold + e.rightThreshold) + AdaptationRate * 2.0 * Mean(e.liHistory)
      && r.rightThreshold - r.leftThreshold
           == MaxReal((1.0 - AdaptationRate) * (e.rightThreshold - e.leftThreshold)
                      + AdaptationRate * 2.0 * StdDev(k, e.liHistory), MinSeparation)
      && r.rightThreshold - r.leftThreshold >= MinSeparation
  {
    if |e.liHistory| < MinCalibrationHistory then e
    else
      var mean := Mean(e.liHistory);
      var std := StdDev(k, e.liHistory);
      if !e.calibrated then
        if |e.liHistory| >= e.params.calibrationSamples then
          e.(leftThreshold := mean - std, rightThreshold := mean + std, calibrated := true)
        else e
      else
        var left := (1.0 - AdaptationRate) * e.leftThreshold + AdaptationRate * (mean - std);
        var right := (1.0 - AdaptationRate) * e.rightThreshold + AdaptationRate * (mean + std);
        if right - left < MinSeparation then
          var center := (left + right) / 2.0;
          e.(leftThreshold := center - MinSeparation / 2.0, rightThreshold := center + MinSeparation / 2.0)
        else e.(leftThreshold := left, rightThreshold := right)
  }

  // ---------------------------------------------------------------------
  // Making a decision.

  /** What a decision returns besides the new state. */
  datatype Outcome = Outcome(engine: Engine, direction: Direction, li: real, confidence: real)

  /** The engine after recording `li`, before thresholds adapt. */
  function RecordIndex(e: Engine, li: real): (r: Engine)
    ensures r.liHistory == DequeExtend(e.liHistory, [li], e.params.calibrationSamples)
    ensures r.calibrationCount == e.calibrationCount + 1
    ensures r.params == e.params && r.decisions == e.decisions
    ensures r.leftThreshold == e.leftThreshold && r.rightThreshold == e.rightThreshold
    ensures r.calibrated == e.calibrated
  {
    e.(liHistory := DequeExtend(e.liHistory, [li], e.params.calibrationSamples),
       calibrationCount := e.calibrationCount + 1)
  }

  /** The thresholds used for a decision: adapted when adaptation is on. */
  function Thresholded(k: Kernels, e: Engine, li: real): (r: Engine)
    requires k.Valid()
    ensures r.liHistory == RecordIndex(e, li).liHistory
    ensures r.decisions == e.decisions && r.params == e.params
    ensures r.calibrationCount == e.calibrationCount + 1
    ensures !e.params.adaptiveThreshold ==>
      r.leftThreshold == e.leftThreshold && r.rightThreshold == e.rightThreshold && r.calibrated == e.calibrated
  {
    var e1 := RecordIndex(e, li);
    if e.params.adaptiveThreshold then Adapt(k, e1) else e1
  }

  /** `make_decision`: the index is recorded (the oldest evicted at
      capacity) and the sample count incremented; thresholds adapt when
      enabled; the index is classified against the resulting thresholds and
      given a confidence; a LEFT or RIGHT decision whose confidence is below
      the minimum is demoted to NEUTRAL, with index and confidence
      unchanged; and the (direction, confidence) pair is recorded. */
  function MakeDecision(k: Kernels, e: Engine, left: real, right: real): (o: Outcome)
    requires k.Valid()
    ensures o.li == LateralizationIndex(left, right)
    ensures -1.0 <= o.li <= 1.0 && 0.0 <= o.confidence <= 1.0
    ensures o.engine.liHistory == DequeExtend(e.liHistory, [o.li], e.params.calibrationSamples)
    ensures o.engine.decisions == DequeExtend(e.decisions, [(o.direction, o.confidence)], e.params.smoothingWindow)
    ensures o.engine.calibrationCount == e.calibrationCount + 1
    ensures o.engine.params == e.params
    ensures o.engine == Thresholded(k, e, o.li).(decisions := o.engine.decisions)
    ensures o.direction != Unknown
    ensures o.confidence == Confidence(o.engine.leftThreshold, o.engine.rightThreshold, o.li,
                                       Classify(o.engine.leftThreshold, o.engine.rightThreshold, o.li))
    ensures o.direction != Neutral ==>
      o.direction == Classify(o.engine.leftThreshold, o.engine.rightThreshold, o.li)
      && o.confidence >= e.params.minConfidence
    ensures o.direction == Neutral <==>
      Classify(o.engine.leftThreshold, o.engine.rightThreshold, o.li) == Neutral
      || o.confidence < e.params.minConfidence
  {
    var li := LateralizationIndex(left, right);
    var e1 := Thresholded(k, e, li);
    var d := Classify(e1.leftThreshold, e1.rightThreshold, li);
    var conf := Confidence(e1.leftThreshold, e1.rightThreshold, li, d);
    ClassifiedConfidenceBounded(e1.leftThreshold, e1.rightThreshold, li);
    var d' := if conf < e.params.minConfidence && d != Neutral then Neutral else d;
    Outcome(e1.(decisions := DequeExtend(e.decisions, [(d', conf)], e.params.smoothingWindow)), d', li, conf)
  }

  /** What every engine reachable from its constructor satisfies: both
      histories within capacity, indices in [-1, 1], confidences in [0, 1],
      and no UNKNOWN decision stored. */
  predicate EngineInvariant(e: Engine) {
    && |e.decisions| <= e.params.smoothingWindow
    && |e.liHistory| <= e.params.calibrationSamples
    && AllBetween(e.liHistory, -1.0, 1.0)
    && (forall i :: 0 <= i < |e.decisions| ==> 0.0 <= e.decisions[i].1 <= 1.0 && e.decisions[i].0 != Unknown)
  }

  lemma NewEngineInvariant(p: DecisionParams)
    ensures EngineInvariant(NewEngine(p))
  {
  }

  /** A decision keeps the invariant. */
  lemma MakeDecisionPreserves(k: Kernels, e: Engine, left: real, right: real)
    requires k.Valid() && EngineInvariant(e)
    ensures EngineInvariant(MakeDecision(k, e, left, right).engine)
  {
    var o := MakeDecision(k, e, left, right);
    var t := e.liHistory + [o.li];
    assert forall i :: 0 <= i < |t| ==> -1.0 <= t[i] <= 1.0;
    var u := e.decisions + [(o.direction, o.confidence)];
    assert forall i :: 0 <= i < |u| ==> 0.0 <= u[i].1 <= 1.0 && u[i].0 != Unknown;
  }

  /** With a calibration capacity below 20 the history never reaches 20
      indices, so the thresholds never move and the engine never calibrates. */
  lemma SmallCapacityNeverCalibrates(k: Kernels, e: Engine, left: real, right: real)
    requires k.Valid() && EngineInvariant(e)
    requires e.params.calibrationSamples < MinCalibrationHistory
    ensures MakeDecision(k, e, left, right).engine.leftThreshold == e.leftThreshold
    ensures MakeDecision(k, e, left, right).engine.rightThreshold == e.rightThreshold
    ensures MakeDecision(k, e, left, right).engine.calibrated == e.calibrated
  {
  }

  /** Once calibrated, the engine stays calibrated until it is reset, and
      every adaptive decision leaves a neutral zone at least 0.1 wide. */
  lemma CalibratedKeepsSeparation(k: Kernels, e: Engine, left: real, right: real)
    requires k.Valid() && e.calibrated && e.params.adaptiveThreshold
    requires |e.liHistory| + 1 >= MinCalibrationHistory && e.params.calibrationSamples >= MinCalibrationHistory
    ensures MakeDecision(k, e, left, right).engine.calibrated
    ensures MakeDecision(k, e, left, right).engine.rightThreshold
      - MakeDecision(k, e, left, right).engine.leftThreshold >= MinSeparation
  {
  }

  // ---------------------------------------------------------------------
  // Smoothed decision.

  /** Summed confidence of the entries with direction `d`. */
  function ClassScore(h: seq<(Direction, real)>, d: Direction): real
    decreases |h|
  {
    if |h| == 0 then 0.0
    else ClassScore(h[..|h| - 1], d) + (if h[|h| - 1].0 == d then h[|h| - 1].1 else 0.0)
  }

  function Confidences(h: seq<(Direction, real)>): (cs: seq<real>)
    ensures |cs| == |h| && forall i :: 0 <= i < |h| ==> cs[i] == h[i].1
  {
    seq(|h|, i requires 0 <= i < |h| => h[i].1)
  }

  /** The four class scores partition the total confidence. */
  lemma {:induction false} ScoresPartition(h: seq<(Direction, real)>)
    ensures ClassScore(h, Left) + ClassScore(h, Right) + ClassScore(h, Neutral) + ClassScore(h, Unknown)
      == Sum(Confidences(h))
    decreases |h|
  {
    if |h| > 0 {
      var p := h[..|h| - 1];
      ScoresPartition(p);
      assert Confidences(h)[..|h| - 1] == Confidences(p);
    }
  }

  /** `get_smoothed_decision`: UNKNOWN for an empty history; NEUTRAL with
      zero confidence when the greatest class score is zero; otherwise the
      class with the greatest summed confidence, ties going to LEFT, then
      RIGHT, then NEUTRAL, with the mean confidence over the whole history. */
  function SmoothedDecision(e: Engine): (r: (Direction, real))
    ensures |e.decisions| == 0 ==> r == (Unknown, 0.0)
    ensures |e.decisions| > 0 ==>
      var l := ClassScore(e.decisions, Left);
      var rt := ClassScore(e.decisions, Right);
      var n := ClassScore(e.decisions, Neutral);
      if MaxReal(MaxReal(l, rt), n) == 0.0 then r == (Neutral, 0.0)
      else
        && r.1 == Sum(Confidences(e.decisions)) / (|e.decisions| as real)
        && (r.0 == Left <==> l >= rt && l >= n)
        && (r.0 == Right <==> rt > l && rt >= n)
        && (r.0 == Neutral <==> n > l && n > rt)
  {
    var h := e.decisions;
    if |h| == 0 then (Unknown, 0.0)
    else
      var l := ClassScore(h, Left);
      var rt := ClassScore(h, Right);
      var n := ClassScore(h, Neutral);
      var m := MaxReal(MaxReal(l, rt), n);
      if m == 0.0 then (Neutral, 0.0)
      else
        var winner := if l == m then Left else if rt == m then Right else Neutral;
        (winner, Sum(Confidences(h)) / (|h| as real))
  }

  /** In a reachable engine the smoothed confidence lies in [0, 1]. */
  lemma SmoothedConfidenceBounded(e: Engine)
    requires EngineInvariant(e)
    ensures 0.0 <= SmoothedDecision(e).1 <= 1.0
  {
    var h := e.decisions;
    if |h| > 0 {
      var cs := Confidences(h);
      assert AllBetween(cs, 0.0, 1.0);
      SumBounds(cs, 0.0, 1.0);
      DivisionBounded(Sum(cs), |h| as real, |h| as real, 0.0, 1.0);
    }
  }

  // ---------------------------------------------------------------------
  // Statistics.

  function CountOf(h: seq<(Direction, real)>, d: Direction): (n: nat)
    ensures n <= |h|
    decreases |h|
  {
    if |h| == 0 then 0
    else CountOf(h[..|h| - 1], d) + (if h[|h| - 1].0 == d then 1 else 0)
  }

  /** The per-direction counts add up to the history length. */
  lemma {:induction false} CountsPartition(h: seq<(Direction, real)>)
    ensures CountOf(h, Left) + CountOf(h, Right) + CountOf(h, Neutral) + CountOf(h, Unknown) == |h|
    decreases |h|
  {
    if |h| > 0 {
      CountsPartition(h[..|h| - 1]);
    }
  }

  datatype Statistics = Statistics(
    liMean: real,
    liStd: real,
    liMin: real,
    liMax: real,
    leftDecisions: nat,
    rightDecisions: nat,
    neutralDecisions: nat,
    avgConfidence: real)

  /** `get_statistics`: all zero while no index is stored; otherwise the
      mean, spread and extremes of the index history, the decision counts
      and the mean stored confidence (0 when no decision is stored). */
  function GetStatistics(k: Kernels, e: Engine): (s: Statistics)
    requires k.Valid()
    ensures |e.liHistory| == 0 ==> s == Statistics(0.0, 0.0, 0.0, 0.0, 0, 0, 0, 0.0)
    ensures |e.liHistory| > 0 ==>
      && s.liMin <= s.liMean <= s.liMax
      && s.liStd >= 0.0
      && s.liMin in e.liHistory && s.liMax in e.liHistory
      && (forall i :: 0 <= i < |e.liHistory| ==> s.liMin <= e.liHistory[i] <= s.liMax)
      && s.leftDecisions == CountOf(e.decisions, Left)
      && s.rightDecisions == CountOf(e.decisions, Right)
      && s.neutralDecisions == CountOf(e.decisions, Neutral)
      && s.leftDecisions + s.rightDecisions + s.neutralDecisions <= |e.decisions|
      && (|e.decisions| == 0 ==> s.avgConfidence == 0.0)
    ensures |e.liHistory| > 0 ==>
      && s.liMean == Seqs.Mean(e.liHistory)
      && s.liStd == k.sqrt(Variance(e.liHistory))
      && (|e.decisions| > 0 ==> s.avgConfidence == Seqs.Mean(Confidences(e.decisions)))
  {
    var h := e.liHistory;
    if |h| == 0 then Statistics(0.0, 0.0, 0.0, 0.0, 0, 0, 0, 0.0)
    else
      var avg := if |e.decisions| > 0 then Seqs.Mean(Confidences(e.decisions)) else 0.0;
      MeanWithin(h);
      CountsPartition(e.decisions);
      Statistics(Seqs.Mean(h), StdDev(k, h), MinOf(h), MaxOf(h),
                 CountOf(e.decisions, Left), CountOf(e.decisions, Right), CountOf(e.decisions, Neutral), avg)
  }

  /** The mean lies between the least and the greatest element. */
  lemma MeanWithin(s: seq<real>)
    requires |s| > 0
    ensures MinOf(s) <= Seqs.Mean(s) <= MaxOf(s)
  {
    assert AllBetween(s, MinOf(s), MaxOf(s));
    MeanBounds(s, MinOf(s), MaxOf(s));
  }

  /** The mean of values within [lo, hi] is within [lo, hi]. */
  lemma MeanBounds(s: seq<real>, lo: real, hi: real)
    requires |s| > 0 && AllBetween(s, lo, hi)
    ensures lo <= Seqs.Mean(s) <= hi
  {
    var n := |s| as real;
    SumBounds(s, lo, hi);
    var q := Sum(s) / n;
    assert q * n == Sum(s);
    assert (q - lo) * n == Sum(s) - n * lo;
    NonNegativeFactor(q - lo, n);
    assert (hi - q) * n == n * hi - Sum(s);
    NonNegativeFactor(hi - q, n);
  }
}
