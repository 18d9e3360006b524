/** The real-time engine's orchestration: the two bounded channel buffers
    fed by each batch read, the sliding window cut from their newest
    samples, the hop removed after every window, and `process_window`
    with its artifact short-circuit and its clean decision path. Serial
    I/O, the sleeps and the status timer are left to the caller: a pass of
    the loop receives the batch, the clock reading and the processing time
    as parameters. */
module Realtime {
  import opened Wrappers
  import opened Seqs
  import opened Kernels
  import opened Config
  import opened Filters
  import Features
  import opened Metrics
  import opened Decision

  /** The performance monitor keeps the last 100 processing times. */
  const TimingCapacity := 100

  /** The engine's mutable state; the configuration and the numerical
      routines are parameters of every operation. */
  datatype Runtime = Runtime(
    leftBuffer: seq<real>,
    rightBuffer: seq<real>,
    samplesProcessed: nat,
    windowsProcessed: nat,
    processingTimes: seq<real>,
    baseline: Baseline,
    engine: Engine,
    window: nat,
    hop: int)

  /** The constructor's state; the window and hop sizes are read from the
      signal configuration. */
  function NewRuntime(c: SignalConfig, p: DecisionParams): (rt: Runtime)
    requires WindowSamples(c) >= 1
    ensures rt.window == WindowSamples(c) && rt.hop == HopSamples(c)
    ensures |rt.leftBuffer| == 0 && |rt.rightBuffer| == 0
    ensures rt.samplesProcessed == 0 && rt.windowsProcessed == 0
    ensures rt.baseline == InitialBaseline && rt.engine == NewEngine(p)
    ensures rt.processingTimes == []
  {
    Runtime([], [], 0, 0, [], InitialBaseline, NewEngine(p), WindowSamples(c), HopSamples(c))
  }

  /** Each channel buffer holds two windows. */
  function Capacity(rt: Runtime): nat {
    2 * rt.window
  }

  /** What every reachable state satisfies: equally long buffers within
      capacity, a bounded timing history, and the invariants of the
      variance baseline and of the decision engine. */
  predicate RuntimeInvariant(rt: Runtime) {
    && Buffered(rt)
    && |rt.processingTimes| <= TimingCapacity
    && BaselineInvariant(rt.baseline)
    && EngineInvariant(rt.engine)
  }

  lemma NewRuntimeInvariant(c: SignalConfig, p: DecisionParams)
    requires WindowSamples(c) >= 1
    ensures RuntimeInvariant(NewRuntime(c, p))
  {
    NewEngineInvariant(p);
  }

  // ---------------------------------------------------------------------
  // One window.

  /** The dictionary `process_window` returns. */
  datatype WindowRecord = WindowRecord(
    timestamp: real,
    sampleCount: nat,
    leftAlphaPower: real,
    rightAlphaPower: real,
    li: real,
    direction: Direction,
    confidence: real,
    smoothedDirection: Direction,
    qualityScore: real,
    leftSnrDb: real,
    rightSnrDb: real,
    leftArtifact: bool,
    rightArtifact: bool,
    processingTimeMs: real)

  /** The quality verdicts of one filtered window pair and the variance
      baseline they leave behind. */
  datatype Assessment = Assessment(score: Score, left: ChannelQuality, right: ChannelQuality, baseline: Baseline)

  /** Step 2 of `process_window`: the quality score over both channels and
      then the quality of each channel. Each of the four artifact
      detections this runs sees the baseline the previous one left. */
  function Assess(k: Kernels, c: SignalConfig, a: ArtifactConfig, b: Baseline, lf: seq<real>, rf: seq<real>)
    : (q: Assessment)
    requires k.Valid() && |lf| > 0 && |rf| > 0
    ensures 0.0 <= q.score.value <= 100.0
    ensures q.left.hasArtifact <==> q.left.artifactType != Clean
    ensures q.right.hasArtifact <==> q.right.artifactType != Clean
    ensures q.score == QualityScore(k, c, a, b, lf, rf)
    ensures var (lq, b3) := ChannelQualityOf(k, c, a, q.score.baseline, lf);
      && q.left == lq
      && q.right == ChannelQualityOf(k, c, a, b3, rf).0
      && q.baseline == ChannelQualityOf(k, c, a, b3, rf).1
  {
    var s := QualityScore(k, c, a, b, lf, rf);
    var (lq, b3) := ChannelQualityOf(k, c, a, s.baseline, lf);
    var (rq, b4) := ChannelQualityOf(k, c, a, b3, rf);
    Assessment(s, lq, rq, b4)
  }

  /** The first three detectors let the window through, so its variance is
      recorded. */
  predicate ReachesVarianceCheck(k: Kernels, c: SignalConfig, a: ArtifactConfig, x: seq<real>)
    requires k.Valid()
  {
    !DetectLowSignal(x) && !DetectSaturation(a, x, AdcMin, AdcMax) && !DetectMuscle(k, c, a, x)
  }

  /** A window pair that passes the first three detectors on both channels
      records four variances: the left one, the right one, and both again,
      so each channel's own verdict is judged against a history that
      already holds its variance. */
  lemma FourRecordsPerWindow(k: Kernels, c: SignalConfig, a: ArtifactConfig, b: Baseline, lf: seq<real>, rf: seq<real>)
    requires k.Valid() && |lf| > 0 && |rf| > 0
    requires ReachesVarianceCheck(k, c, a, lf) && ReachesVarianceCheck(k, c, a, rf)
    ensures Assess(k, c, a, b, lf, rf).baseline.history ==
      Record(Record(Record(Record(b.history, Variance(lf)), Variance(rf)), Variance(lf)), Variance(rf))
  {
  }

  /** A window pair stopped before the variance check on both channels
      leaves the baseline as it was. */
  lemma GatedWindowKeepsBaseline(k: Kernels, c: SignalConfig, a: ArtifactConfig, b: Baseline, lf: seq<real>, rf: seq<real>)
    requires k.Valid() && |lf| > 0 && |rf| > 0
    requires !ReachesVarianceCheck(k, c, a, lf) && !ReachesVarianceCheck(k, c, a, rf)
    ensures Assess(k, c, a, b, lf, rf).baseline == b
  {
  }

  /** Assessment keeps the baseline invariant. */
  lemma AssessPreserves(k: Kernels, c: SignalConfig, a: ArtifactConfig, b: Baseline, lf: seq<real>, rf: seq<real>)
    requires k.Valid() && |lf| > 0 && |rf| > 0 && BaselineInvariant(b)
    ensures BaselineInvariant(Assess(k, c, a, b, lf, rf).baseline)
  {
    QualityScorePreserves(k, c, a, b, lf, rf);
    var s := QualityScore(k, c, a, b, lf, rf);
    DetectArtifactsPreserves(k, c, a, s.baseline, lf);
    DetectArtifactsPreserves(k, c, a, DetectArtifacts(k, c, a, s.baseline, lf).2, rf);
  }

  /** Whether the window takes the short-circuit: either channel's own
      quality check found an artifact. */
  predicate HasArtifact(q: Assessment) {
    q.left.hasArtifact || q.right.hasArtifact
  }

  /** The degraded record of the artifact branch: index 0, both directions
      UNKNOWN, confidence 0, both artifact flags set, no processing time. */
  predicate Degraded(r: WindowRecord) {
    && r.li == 0.0 && r.direction == Unknown && r.confidence == 0.0
    && r.smoothedDirection == Unknown
    && r.leftArtifact && r.rightArtifact
    && r.processingTimeMs == 0.0
  }

  /** The record of the clean branch reports the decision `o`, the smoothed
      direction of the engine it leaves, and no artifact. */
  predicate Decided(r: WindowRecord, o: Outcome, elapsedMs: real) {
    && r.li == o.li && r.direction == o.direction && r.confidence == o.confidence
    && r.smoothedDirection == SmoothedDecision(o.engine).0
    && !r.leftArtifact && !r.rightArtifact
    && r.processingTimeMs == elapsedMs
  }

  /** What `process_window` promises about its record `rec` and the state
      `rt'` it leaves, given the raw windows `left` and `right`. Both
      channels are preprocessed, assessed and reduced to alpha powers, and
      the baseline is the one the four detections leave. If either channel
      shows an artifact the record is the degraded one and the decision
      engine, the window count and the timing history are left alone;
      otherwise the engine decides, the record reports that decision, the
      processing time is recorded and the window counted. */
  predicate WindowProcessed(k: Kernels, c: SignalConfig, a: ArtifactConfig, rt: Runtime,
                            left: seq<real>, right: seq<real>, elapsedMs: real, rec: WindowRecord, rt': Runtime)
    requires k.Valid() && |left| > 0 && |right| > 0
  {
    var lf := Preprocess(k, c, left);
    var rf := Preprocess(k, c, right);
    var q := Assess(k, c, a, rt.baseline, lf, rf);
    && rt'.baseline == q.baseline
    && rec.qualityScore == q.score.value
    && rec.leftSnrDb == q.left.snrDb && rec.rightSnrDb == q.right.snrDb
    && (rec.leftAlphaPower, rec.rightAlphaPower) == Features.AlphaPowerPair(k, c, lf, rf)
    && (HasArtifact(q) ==>
          && Degraded(rec)
          && rt'.engine == rt.engine
          && rt'.windowsProcessed == rt.windowsProcessed
          && rt'.processingTimes == rt.processingTimes)
    && (!HasArtifact(q) ==>
          var o := MakeDecision(k, rt.engine, rec.leftAlphaPower, rec.rightAlphaPower);
          && Decided(rec, o, elapsedMs)
          && rt'.engine == o.engine
          && rt'.windowsProcessed == rt.windowsProcessed + 1
          && rt'.processingTimes == DequeExtend(rt.processingTimes, [elapsedMs], TimingCapacity))
  }

  /** `process_window` on the raw windows `left` and `right`, at clock
      reading `now`, taking `elapsedMs` milliseconds: the outcome above,
      stamped with `now` and the sample count; the buffers and the sample
      count are not touched. */
  function ProcessWindow(k: Kernels, c: SignalConfig, a: ArtifactConfig, rt: Runtime,
                         left: seq<real>, right: seq<real>, now: real, elapsedMs: real)
    : (r: (WindowRecord, Runtime))
    requires k.Valid() && |left| > 0 && |right| > 0
    ensures WindowProcessed(k, c, a, rt, left, right, elapsedMs, r.0, r.1)
    ensures r.0.timestamp == now && r.0.sampleCount == rt.samplesProcessed
    ensures r.1.leftBuffer == rt.leftBuffer && r.1.rightBuffer == rt.rightBuffer
    ensures r.1.samplesProcessed == rt.samplesProcessed
    ensures r.1.window == rt.window && r.1.hop == rt.hop
    ensures r.1.windowsProcessed == rt.windowsProcessed + (if r.0.leftArtifact then 0 else 1)
  {
    var lf := Preprocess(k, c, left);
    var rf := Preprocess(k, c, right);
    var q := Assess(k, c, a, rt.baseline, lf, rf);
    var f := Features.MinimalFeaturesOf(k, c, lf, rf);
    var lp, rp := f.leftAlphaPower, f.rightAlphaPower;
    if HasArtifact(q) then
      (WindowRecord(now, rt.samplesProcessed, lp, rp, 0.0, Unknown, 0.0, Unknown, q.score.value,
                    q.left.snrDb, q.right.snrDb, true, true, 0.0),
       rt.(baseline := q.baseline))
    else
      var o := MakeDecision(k, rt.engine, lp, rp);
      var (smoothed, _) := SmoothedDecision(o.engine);
      (WindowRecord(now, rt.samplesProcessed, lp, rp, o.li, o.direction, o.confidence, smoothed, q.score.value,
                    q.left.snrDb, q.right.snrDb, q.left.hasArtifact, q.right.hasArtifact, elapsedMs),
       rt.(baseline := q.baseline, engine := o.engine, windowsProcessed := rt.windowsProcessed + 1,
           processingTimes := DequeExtend(rt.processingTimes, [elapsedMs], TimingCapacity)))
  }

  /** Processing a window keeps the state invariant. */
  lemma ProcessWindowPreserves(k: Kernels, c: SignalConfig, a: ArtifactConfig, rt: Runtime,
                               left: seq<real>, right: seq<real>, now: real, elapsedMs: real)
    requires k.Valid() && |left| > 0 && |right| > 0 && RuntimeInvariant(rt)
    ensures RuntimeInvariant(ProcessWindow(k, c, a, rt, left, right, now, elapsedMs).1)
  {
    ProcessWindowKeepsBaseline(k, c, a, rt, left, right, now, elapsedMs);
    ProcessWindowKeepsEngine(k, c, a, rt, left, right, now, elapsedMs);
  }

  lemma ProcessWindowKeepsBaseline(k: Kernels, c: SignalConfig, a: ArtifactConfig, rt: Runtime,
                                   left: seq<real>, right: seq<real>, now: real, elapsedMs: real)
    requires k.Valid() && |left| > 0 && |right| > 0 && BaselineInvariant(rt.baseline)
    ensures BaselineInvariant(ProcessWindow(k, c, a, rt, left, right, now, elapsedMs).1.baseline)
  {
    AssessPreserves(k, c, a, rt.baseline, Preprocess(k, c, left), Preprocess(k, c, right));
  }

  lemma ProcessWindowKeepsEngine(k: Kernels, c: SignalConfig, a: ArtifactConfig, rt: Runtime,
                                 left: seq<real>, right: seq<real>, now: real, elapsedMs: real)
    requires k.Valid() && |left| > 0 && |right| > 0
    requires EngineInvariant(rt.engine) && |rt.processingTimes| <= TimingCapacity
    ensures EngineInvariant(ProcessWindow(k, c, a, rt, left, right, now, elapsedMs).1.engine)
    ensures |ProcessWindow(k, c, a, rt, left, right, now, elapsedMs).1.processingTimes| <= TimingCapacity
  {
    var r := ProcessWindow(k, c, a, rt, left, right, now, elapsedMs);
    var q := Assess(k, c, a, rt.baseline, Preprocess(k, c, left), Preprocess(k, c, right));
    if HasArtifact(q) {
      assert r.1.engine == rt.engine && r.1.processingTimes == rt.processingTimes;
    } else {
      MakeDecisionPreserves(k, rt.engine, r.0.leftAlphaPower, r.0.rightAlphaPower);
      assert r.1.engine == MakeDecision(k, rt.engine, r.0.leftAlphaPower, r.0.rightAlphaPower).engine;
      assert r.1.processingTimes == DequeExtend(rt.processingTimes, [elapsedMs], TimingCapacity);
    }
  }

  // ---------------------------------------------------------------------
  // Display.

  /** `_display_result` prints a record exactly when its smoothed direction
      is known. */
  predicate Displayed(r: WindowRecord) {
    r.smoothedDirection != Unknown
  }

  /** A window rejected for an artifact is never displayed. */
  lemma ArtifactWindowHidden(k: Kernels, c: SignalConfig, a: ArtifactConfig, rt: Runtime,
                             left: seq<real>, right: seq<real>, now: real, elapsedMs: real)
    requires k.Valid() && |left| > 0 && |right| > 0
    requires HasArtifact(Assess(k, c, a, rt.baseline, Preprocess(k, c, left), Preprocess(k, c, right)))
    ensures !Displayed(ProcessWindow(k, c, a, rt, left, right, now, elapsedMs).0)
  {
  }

  /** A clean window is displayed exactly when the decision history can
      hold an entry: the decision just made is then in it, so the vote is
      never UNKNOWN; with a zero-length history it always is. */
  lemma CleanWindowShown(k: Kernels, c: SignalConfig, a: ArtifactConfig, rt: Runtime,
                         left: seq<real>, right: seq<real>, now: real, elapsedMs: real)
    requires k.Valid() && |left| > 0 && |right| > 0
    requires !HasArtifact(Assess(k, c, a, rt.baseline, Preprocess(k, c, left), Preprocess(k, c, right)))
    ensures Displayed(ProcessWindow(k, c, a, rt, left, right, now, elapsedMs).0)
        <==> rt.engine.params.smoothingWindow > 0
  {
    var lf := Preprocess(k, c, left);
    var rf := Preprocess(k, c, right);
    var p := Features.AlphaPowerPair(k, c, lf, rf);
    var o := MakeDecision(k, rt.engine, p.0, p.1);
    SmoothedKnown(o.engine);
  }

  /** The vote is UNKNOWN exactly when the decision history is empty. */
  lemma SmoothedKnown(e: Engine)
    ensures SmoothedDecision(e).0 != Unknown <==> |e.decisions| > 0
  {
  }

  // ---------------------------------------------------------------------
  // The loop.

  /** Buffers of equal length within capacity, as the bounded deques keep
      them, for a window of at least one sample. */
  predicate Buffered(rt: Runtime) {
    1 <= rt.window && |rt.leftBuffer| == |rt.rightBuffer| <= Capacity(rt)
  }

  /** Everything but the buffers and the sample count agrees. */
  predicate SameProcessing(r1: Runtime, r2: Runtime) {
    && r1.baseline == r2.baseline && r1.engine == r2.engine
    && r1.windowsProcessed == r2.windowsProcessed && r1.processingTimes == r2.processingTimes
    && r1.window == r2.window && r1.hop == r2.hop
  }

  /** The buffer side of one pass of the `run` loop, after `read_batch`
      returned the channel columns `lefts` and `rights`. An empty batch
      changes nothing. A non-empty one is appended to both buffers (the
      oldest samples falling out beyond two windows) and counted; once the
      buffers hold a window, the newest `window_samples` of each are cut
      out and up to `hop_samples` of the oldest are dropped from both. */
  function Slide(rt: Runtime, lefts: seq<real>, rights: seq<real>)
    : (r: (Option<(seq<real>, seq<real>)>, Runtime))
    requires |lefts| == |rights| && Buffered(rt)
    ensures |lefts| == 0 ==> r == (None, rt)
    ensures Buffered(r.1) && SameProcessing(r.1, rt)
    ensures |lefts| > 0 ==> r.1.samplesProcessed == rt.samplesProcessed + |lefts|
    ensures r.0.Some? <==> |lefts| > 0 && |DequeExtend(rt.leftBuffer, lefts, Capacity(rt))| >= rt.window
    ensures r.0.Some? ==>
      && |r.0.value.0| == |r.0.value.1| == rt.window
      && r.1.leftBuffer == DropFront(DequeExtend(rt.leftBuffer, lefts, Capacity(rt)), rt.hop)
      && r.1.rightBuffer == DropFront(DequeExtend(rt.rightBuffer, rights, Capacity(rt)), rt.hop)
    ensures r.0.None? && |lefts| > 0 ==>
      && r.1.leftBuffer == DequeExtend(rt.leftBuffer, lefts, Capacity(rt))
      && r.1.rightBuffer == DequeExtend(rt.rightBuffer, rights, Capacity(rt))
  {
    if |lefts| == 0 then (None, rt)
    else
      var lb := DequeExtend(rt.leftBuffer, lefts, Capacity(rt));
      var rb := DequeExtend(rt.rightBuffer, rights, Capacity(rt));
      var rt1 := rt.(leftBuffer := lb, rightBuffer := rb, samplesProcessed := rt.samplesProcessed + |lefts|);
      if |lb| >= rt.window then
        (Some((PyTail(lb, rt.window), PyTail(rb, rt.window))),
         rt1.(leftBuffer := DropFront(lb, rt.hop), rightBuffer := DropFront(rb, rt.hop)))
      else (None, rt1)
  }

  /** `b` is what remains of the stream `s` after dropping some of its
      oldest items. */
  predicate SuffixOf(b: seq<real>, s: seq<real>) {
    |b| <= |s| && b == s[|s| - |b|..]
  }

  /** If each buffer is the newest part of everything received on its
      channel, it stays so once the batch is received, and the window cut
      out is exactly the newest `window_samples` items of each stream. */
  lemma SlideKeepsSuffix(rt: Runtime, lefts: seq<real>, rights: seq<real>, ls: seq<real>, rs: seq<real>)
    requires |lefts| == |rights| && Buffered(rt)
    requires SuffixOf(rt.leftBuffer, ls) && SuffixOf(rt.rightBuffer, rs)
    ensures var r := Slide(rt, lefts, rights);
      && SuffixOf(r.1.leftBuffer, ls + lefts) && SuffixOf(r.1.rightBuffer, rs + rights)
      && (r.0.Some? ==>
            && rt.window <= |ls + lefts| && rt.window <= |rs + rights|
            && r.0.value.0 == (ls + lefts)[|ls + lefts| - rt.window..]
            && r.0.value.1 == (rs + rights)[|rs + rights| - rt.window..])
  {
    var r := Slide(rt, lefts, rights);
    if |lefts| > 0 {
      var cap := Capacity(rt);
      var lb := DequeExtend(rt.leftBuffer, lefts, cap);
      var rb := DequeExtend(rt.rightBuffer, rights, cap);
      ExtendSuffix(rt.leftBuffer, ls, lefts, cap);
      ExtendSuffix(rt.rightBuffer, rs, rights, cap);
      if r.0.Some? {
        DropSuffix(lb, ls + lefts, rt.hop);
        DropSuffix(rb, rs + rights, rt.hop);
        WindowIsNewest(lb, ls + lefts, rt.window);
        WindowIsNewest(rb, rs + rights, rt.window);
      }
    } else {
      assert ls + lefts == ls && rs + rights == rs;
    }
  }

  /** Extending a tail of `s` by `xs` into a bounded deque gives a tail of `s + xs`. */
  lemma ExtendSuffix(b: seq<real>, s: seq<real>, xs: seq<real>, cap: nat)
    requires SuffixOf(b, s)
    ensures SuffixOf(DequeExtend(b, xs, cap), s + xs)
  {
    var r := DequeExtend(b, xs, cap);
    var t := s + xs;
    forall i | 0 <= i < |r|
      ensures r[i] == t[|t| - |r| + i]
    {
      var j := |b| + |xs| - |r| + i;
      assert r[i] == (b + xs)[j];
      if j < |b| {
        assert (b + xs)[j] == b[j] == s[|s| - |b| + j];
      } else {
        assert (b + xs)[j] == xs[j - |b|];
      }
    }
  }

  /** Dropping oldest items from a tail of `s` leaves a tail of `s`. */
  lemma DropSuffix(b: seq<real>, s: seq<real>, n: int)
    requires SuffixOf(b, s)
    ensures SuffixOf(DropFront(b, n), s)
  {
    var r := DropFront(b, n);
    forall i | 0 <= i < |r|
      ensures r[i] == s[|s| - |r| + i]
    {
      assert r[i] == b[|b| - |r| + i];
    }
  }

  /** The newest `w` items of a tail of `s` holding at least `w` items are
      the newest `w` items of `s`. */
  lemma WindowIsNewest(b: seq<real>, s: seq<real>, w: nat)
    requires SuffixOf(b, s) && 1 <= w <= |b|
    ensures PyTail(b, w) == s[|s| - w..]
  {
  }

  /** One pass of the `run` loop: the buffers slide, and a window cut out is
      processed. Only the clean branch counts the window. */
  function Pass(k: Kernels, c: SignalConfig, a: ArtifactConfig, rt: Runtime,
                lefts: seq<real>, rights: seq<real>, now: real, elapsedMs: real)
    : (r: (Option<WindowRecord>, Runtime))
    requires k.Valid() && |lefts| == |rights| && Buffered(rt)
    ensures Buffered(r.1)
    ensures var s := Slide(rt, lefts, rights);
      && (r.0.Some? <==> s.0.Some?)
      && (s.0.None? ==> r.1 == s.1)
      && r.1.leftBuffer == s.1.leftBuffer && r.1.rightBuffer == s.1.rightBuffer
      && r.1.samplesProcessed == s.1.samplesProcessed
      && r.1.window == rt.window && r.1.hop == rt.hop
      && (r.0.Some? ==> r.1.windowsProcessed == rt.windowsProcessed + (if r.0.value.leftArtifact then 0 else 1))
    ensures var s := Slide(rt, lefts, rights);
      s.0.Some? ==> r == (Some(ProcessWindow(k, c, a, s.1, s.0.value.0, s.0.value.1, now, elapsedMs).0),
                          ProcessWindow(k, c, a, s.1, s.0.value.0, s.0.value.1, now, elapsedMs).1)
  {
    var (win, rt1) := Slide(rt, lefts, rights);
    if win.None? then (None, rt1)
    else
      var (rec, rt2) := ProcessWindow(k, c, a, rt1, win.value.0, win.value.1, now, elapsedMs);
      (Some(rec), rt2)
  }

  /** The record a pass produces is the processing of the newest
      `window_samples` samples received on each channel. */
  lemma PassProcessesNewest(k: Kernels, c: SignalConfig, a: ArtifactConfig, rt: Runtime,
                            lefts: seq<real>, rights: seq<real>, now: real, elapsedMs: real,
                            ls: seq<real>, rs: seq<real>)
    requires k.Valid() && |lefts| == |rights| && Buffered(rt)
    requires SuffixOf(rt.leftBuffer, ls) && SuffixOf(rt.rightBuffer, rs)
    ensures var r := Pass(k, c, a, rt, lefts, rights, now, elapsedMs);
      var w := rt.window;
      r.0.Some? ==>
        && w <= |ls + lefts| && w <= |rs + rights|
        && r.0.value == ProcessWindow(k, c, a, Slide(rt, lefts, rights).1,
             (ls + lefts)[|ls + lefts| - w..], (rs + rights)[|rs + rights| - w..], now, elapsedMs).0
  {
    SlideKeepsSuffix(rt, lefts, rights, ls, rs);
  }

  /** A pass keeps the state invariant. */
  lemma PassPreserves(k: Kernels, c: SignalConfig, a: ArtifactConfig, rt: Runtime,
                      lefts: seq<real>, rights: seq<real>, now: real, elapsedMs: real)
    requires k.Valid() && |lefts| == |rights| && RuntimeInvariant(rt)
    ensures RuntimeInvariant(Pass(k, c, a, rt, lefts, rights, now, elapsedMs).1)
  {
    var (win, rt1) := Slide(rt, lefts, rights);
    if win.Some? {
      ProcessWindowPreserves(k, c, a, rt1, win.value.0, win.value.1, now, elapsedMs);
    }
  }

  /** The buffer side of the loop over a sequence of batches, each a pair
      of equally long channel columns; every pass leaves the buffers as
      `Slide` does, whatever the window processing decides. */
  function SlideAll(rt: Runtime, batches: seq<(seq<real>, seq<real>)>): (r: Runtime)
    requires Buffered(rt)
    requires forall i :: 0 <= i < |batches| ==> |batches[i].0| == |batches[i].1|
    ensures Buffered(r) && SameProcessing(r, rt)
    decreases |batches|
  {
    if |batches| == 0 then rt
    else SlideAll(Slide(rt, batches[0].0, batches[0].1).1, batches[1..])
  }

  /** All left samples of the batches, in arrival order. */
  function LeftStream(batches: seq<(seq<real>, seq<real>)>): seq<real>
    decreases |batches|
  {
    if |batches| == 0 then [] else batches[0].0 + LeftStream(batches[1..])
  }

  /** Over any sequence of batches the sample count grows by exactly the
      samples received. */
  lemma {:induction false} SlideAllCounts(rt: Runtime, batches: seq<(seq<real>, seq<real>)>)
    requires Buffered(rt)
    requires forall i :: 0 <= i < |batches| ==> |batches[i].0| == |batches[i].1|
    ensures SlideAll(rt, batches).samplesProcessed == rt.samplesProcessed + |LeftStream(batches)|
    decreases |batches|
  {
    if |batches| > 0 {
      RearBatches(batches);
      SlideAllCounts(Slide(rt, batches[0].0, batches[0].1).1, batches[1..]);
    }
  }

  /** Over any sequence of batches the left buffer remains the newest part
      of everything received on that channel. */
  lemma {:induction false} SlideAllKeepsSuffix(rt: Runtime, batches: seq<(seq<real>, seq<real>)>, ls: seq<real>)
    requires Buffered(rt)
    requires forall i :: 0 <= i < |batches| ==> |batches[i].0| == |batches[i].1|
    requires SuffixOf(rt.leftBuffer, ls)
    ensures SuffixOf(SlideAll(rt, batches).leftBuffer, ls + LeftStream(batches))
    decreases |batches|
  {
    if |batches| > 0 {
      var b := batches[0];
      SlideKeepsSuffix(rt, b.0, b.1, ls, rt.rightBuffer);
      RearBatches(batches);
      SlideAllKeepsSuffix(Slide(rt, b.0, b.1).1, batches[1..], ls + b.0);
      StreamAssociates(ls, b.0, LeftStream(batches[1..]));
    } else {
      assert ls + LeftStream(batches) == ls;
    }
  }

  lemma StreamAssociates(ls: seq<real>, xs: seq<real>, rest: seq<real>)
    ensures ls + xs + rest == ls + (xs + rest)
  {
  }

  lemma RearBatches(batches: seq<(seq<real>, seq<real>)>)
    requires |batches| > 0
    requires forall i :: 0 <= i < |batches| ==> |batches[i].0| == |batches[i].1|
    ensures forall i :: 0 <= i < |batches| - 1 ==> |batches[1..][i].0| == |batches[1..][i].1|
  {
    forall i | 0 <= i < |batches| - 1
      ensures |batches[1..][i].0| == |batches[1..][i].1|
    {
      assert batches[1..][i] == batches[i + 1];
    }
  }

  // ---------------------------------------------------------------------
  // CSV logging.

  /** A value written to a CSV cell. */
  datatype Cell = Number(x: real) | Count(n: nat) | Label(s: string) | Flag(b: bool)

  /** The thirteen field names the CSV writer is created with. */
  const CsvColumns: seq<string> := [
    "timestamp", "sample_count", "left_alpha_power", "right_alpha_power",
    "lateralization_index", "attention_direction", "confidence", "smoothed_direction",
    "quality_score", "left_snr_db", "right_snr_db", "left_artifact", "right_artifact"]

  /** The record as the dictionary both branches build: the thirteen
      columns in header order, then `processing_time_ms`. */
  function Entries(r: WindowRecord): (es: seq<(string, Cell)>)
    ensures |es| == |CsvColumns| + 1
    ensures forall i :: 0 <= i < |CsvColumns| ==> es[i].0 == CsvColumns[i]
    ensures es[|CsvColumns|].0 == "processing_time_ms"
  {
    [("timestamp", Number(r.timestamp)), ("sample_count", Count(r.sampleCount)),
     ("left_alpha_power", Number(r.leftAlphaPower)), ("right_alpha_power", Number(r.rightAlphaPower)),
     ("lateralization_index", Number(r.li)), ("attention_direction", Label(DirectionName(r.direction))),
     ("confidence", Number(r.confidence)), ("smoothed_direction", Label(DirectionName(r.smoothedDirection))),
     ("quality_score", Number(r.qualityScore)), ("left_snr_db", Number(r.leftSnrDb)),
     ("right_snr_db", Number(r.rightSnrDb)), ("left_artifact", Flag(r.leftArtifact)),
     ("right_artifact", Flag(r.rightArtifact)), ("processing_time_ms", Number(r.processingTimeMs))]
  }

  /** The value a dictionary built from `row` holds under `key`; a later
      entry overwrites an earlier one. */
  function CellOf(row: seq<(string, Cell)>, key: string): (v: Option<Cell>)
    ensures v.None? <==> forall i :: 0 <= i < |row| ==> row[i].0 != key
    decreases |row|
  {
    if |row| == 0 then None
    else if row[|row| - 1].0 == key then Some(row[|row| - 1].1)
    else CellOf(row[..|row| - 1], key)
  }

  /** `csv.DictWriter`'s `extrasaction`. */
  datatype ExtraAction = Raise | Ignore

  /** `DictWriter.writerow`: under `Raise` (the default) a row holding a key
      outside the field names raises `ValueError`; otherwise the cells in
      field-name order, a missing key written as an empty cell. */
  function WriteRow(fieldnames: seq<string>, extra: ExtraAction, row: seq<(string, Cell)>)
    : (r: Result<seq<Option<Cell>>, string>)
    ensures r.Err? <==> extra == Raise && exists i :: 0 <= i < |row| && row[i].0 !in fieldnames
    ensures r.Ok? ==> |r.value| == |fieldnames|
    ensures r.Ok? ==> forall j :: 0 <= j < |fieldnames| ==> r.value[j] == CellOf(row, fieldnames[j])
  {
    if extra == Raise && exists i :: 0 <= i < |row| && row[i].0 !in fieldnames
    then Err("dict contains fields not in fieldnames")
    else Ok(seq(|fieldnames|, j requires 0 <= j < |fieldnames| => CellOf(row, fieldnames[j])))
  }

  /** `_log_to_csv` as written: the default writer over the thirteen
      columns. */
  function LogRowAsWritten(r: WindowRecord): Result<seq<Option<Cell>>, string> {
    WriteRow(CsvColumns, Raise, Entries(r))
  }

  /** Every record carries `processing_time_ms`, which is not a column, so
      every row is refused and the log never gets past its header. */
  lemma EveryRowRefused(r: WindowRecord)
    ensures LogRowAsWritten(r).Err?
  {
    var es := Entries(r);
    assert es[13].0 == "processing_time_ms";
    assert "processing_time_ms" !in CsvColumns;
  }

  /** `_log_to_csv` with a writer that leaves the extra key out of the row. */
  function LogRow(r: WindowRecord): Result<seq<Option<Cell>>, string> {
    WriteRow(CsvColumns, Ignore, Entries(r))
  }

  /** Every record is logged, each column holding the record's own value. */
  lemma EveryRowLogged(r: WindowRecord)
    ensures LogRow(r).Ok?
    ensures forall j :: 0 <= j < |CsvColumns| ==> LogRow(r).value[j] == Some(Entries(r)[j].1)
  {
    var es := Entries(r);
    forall j | 0 <= j < |CsvColumns|
      ensures CellOf(es, CsvColumns[j]) == Some(es[j].1)
    {
      DistinctKeys(r);
      CellOfDistinct(es, j);
    }
  }

  /** No two entries of a record share a key. */
  lemma DistinctKeys(r: WindowRecord)
    ensures forall i, j :: 0 <= i < j < |Entries(r)| ==> Entries(r)[i].0 != Entries(r)[j].0
  {
  }

  /** In a row with distinct keys, looking up an entry's key finds that entry. */
  lemma {:induction false} CellOfDistinct(row: seq<(string, Cell)>, j: nat)
    requires j < |row|
    requires forall i, i' :: 0 <= i < i' < |row| ==> row[i].0 != row[i'].0
    ensures CellOf(row, row[j].0) == Some(row[j].1)
    decreases |row|
  {
    if j < |row| - 1 {
      var p := row[..|row| - 1];
      assert p[j] == row[j];
      CellOfDistinct(p, j);
    }
  }
}
