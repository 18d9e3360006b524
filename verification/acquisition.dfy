/** Serial acquisition: the `timestamp,left,right` packet parser with its
    corruption counter, the bounded per-channel sample buffers, single and
    batched reads, the cooldown- and attempt-capped reconnect gate, and the
    acquisition statistics. The serial port itself is not modelled: what it
    delivers is a `ReadEvent`, what opening it yields is a `ConnectOutcome`,
    and the clock is a `now` parameter. */
module Acquisition {
  import opened Wrappers
  import opened Seqs
  import opened Text
  import opened Config

  /** Each channel buffer keeps the most recent 10000 samples. */
  const BufferCapacity := 10000
  const MaxAdcValue := 5000.0

  type Sample = (real, real, real)   // (timestamp, left, right)

  datatype Acquisition = Acquisition(
    config: SerialConfig,
    connected: bool,
    reconnectAttempts: nat,
    lastReconnectTime: real,
    bufferLeft: seq<real>,
    bufferRight: seq<real>,
    packetsReceived: nat,
    packetsCorrupted: nat,
    lastPacketTime: real)

  /** The constructor's state; `now` is the clock reading at construction. */
  function NewAcquisition(config: SerialConfig, now: real): (a: Acquisition)
    ensures !a.connected && a.reconnectAttempts == 0 && a.lastReconnectTime == 0.0
    ensures |a.bufferLeft| == 0 && |a.bufferRight| == 0
    ensures a.packetsReceived == 0 && a.packetsCorrupted == 0
    ensures a.config == config && a.lastPacketTime == now
  {
    Acquisition(config, false, 0, 0.0, [], [], 0, 0, now)
  }

  /** Buffers within capacity and of equal length: every accepted packet
      feeds both channels. */
  predicate BuffersInvariant(a: Acquisition) {
    |a.bufferLeft| == |a.bufferRight| <= BufferCapacity
  }

  // ---------------------------------------------------------------------
  // Packet parsing.

  /** The comma-separated fields of a stripped line. */
  function Fields(line: string): (parts: seq<string>)
    ensures |parts| >= 1
  {
    Split(Strip(line), ",")
  }

  predicate InAdcRange(v: real) {
    0.0 <= v <= MaxAdcValue
  }

  /** The sample a line denotes, if it has exactly three numeric fields with
      both channel values in [0, 5000]; the timestamp is not range-checked. */
  function PacketValue(line: string): Option<Sample> {
    var parts := Fields(line);
    if |parts| != 3 then None
    else
      match (ParseFloat(parts[0]), ParseFloat(parts[1]), ParseFloat(parts[2]))
      case (Some(t), Some(l), Some(r)) =>
        if InAdcRange(l) && InAdcRange(r) then Some((t, l, r)) else None
      case _ => None
  }

  /** `parse_data_packet`: a line is accepted exactly when it has three
      numeric fields and both channel values lie in [0, 5000] inclusive;
      every rejected line, for whichever reason, adds exactly one to the
      corruption count, and nothing else changes. */
  function ParsePacket(a: Acquisition, line: string): (r: (Option<Sample>, Acquisition))
    ensures r.0 == PacketValue(line)
    ensures r.0.None? ==> r.1 == a.(packetsCorrupted := a.packetsCorrupted + 1)
    ensures r.0.Some? ==> r.1 == a
    ensures |Fields(line)| != 3 ==> r.0.None?
    ensures r.0.Some? ==> InAdcRange(r.0.value.1) && InAdcRange(r.0.value.2)
    ensures r.0.Some? <==>
      && |Fields(line)| == 3
      && ParseFloat(Fields(line)[0]).Some?
      && ParseFloat(Fields(line)[1]).Some? && InAdcRange(ParseFloat(Fields(line)[1]).value)
      && ParseFloat(Fields(line)[2]).Some? && InAdcRange(ParseFloat(Fields(line)[2]).value)
  {
    var v := PacketValue(line);
    if v.None? then (None, a.(packetsCorrupted := a.packetsCorrupted + 1)) else (v, a)
  }

  /** The three numbers of a packet joined by commas. */
  function PacketBody(t: nat, left: nat, right: nat): string {
    NatToString(t) + "," + (NatToString(left) + "," + NatToString(right))
  }

  /** The line an Arduino sends for whole-number readings. */
  function FormatPacket(t: nat, left: nat, right: nat): string {
    PacketBody(t, left, right) + "\n"
  }

  /** A packet printed from in-range whole numbers parses back to exactly
      those numbers and leaves the corruption count alone. */
  lemma FormatParseRoundTrip(a: Acquisition, t: nat, left: nat, right: nat)
    requires left <= 5000 && right <= 5000
    ensures ParsePacket(a, FormatPacket(t, left, right)) == (Some((t as real, left as real, right as real)), a)
  {
    FormattedFields(t, left, right);
    ParseFloatNat(t);
    ParseFloatNat(left);
    ParseFloatNat(right);
  }

  /** The fields of a printed packet are the three printed numbers. */
  lemma FormattedFields(t: nat, left: nat, right: nat)
    ensures Fields(FormatPacket(t, left, right)) == [NatToString(t), NatToString(left), NatToString(right)]
  {
    var body := PacketBody(t, left, right);
    StripNewline(body);
    BodyFields(NatToString(t), NatToString(left), NatToString(right));
  }

  /** Three digit strings joined by commas split back into those three. */
  lemma BodyFields(st: string, sl: string, sr: string)
    requires AllDigits(st) && AllDigits(sl) && AllDigits(sr)
    ensures Split(st + "," + (sl + "," + sr), ",") == [st, sl, sr]
  {
    NoComma(st);
    NoComma(sl);
    NoComma(sr);
    SplitAfterField(st, ",", sl + "," + sr);
    SplitAfterField(sl, ",", sr);
    SplitNoSeparator(sr, ",");
  }

  lemma NoComma(s: string)
    requires AllDigits(s)
    ensures ',' !in s
  {
  }

  /** A trailing newline is stripped from a line that starts and ends with
      a digit. */
  lemma StripNewline(body: string)
    requires |body| > 0 && IsDigit(body[0]) && IsDigit(body[|body| - 1])
    ensures Strip(body + "\n") == body
  {
    var s := body + "\n";
    StripLeftKeeps(s);
    StripRightDrops(s);
    assert s[..|s| - 1] == body;
    StripRightKeeps(body);
  }

  lemma StripLeftKeeps(s: string)
    requires |s| > 0 && IsDigit(s[0])
    ensures StripLeft(s) == s
  {
    assert !IsSpace(s[0]);
  }

  lemma StripRightKeeps(s: string)
    requires |s| > 0 && IsDigit(s[|s| - 1])
    ensures StripRight(s) == s
  {
    assert !IsSpace(s[|s| - 1]);
  }

  lemma StripRightDrops(s: string)
    requires |s| > 0 && s[|s| - 1] == '\n'
    ensures StripRight(s) == StripRight(s[..|s| - 1])
  {
    assert IsSpace(s[|s| - 1]);
  }

  // ---------------------------------------------------------------------
  // Reading.

  /** What the port delivers to one `read_sample` call: nothing waiting,
      a line, or a serial error. */
  datatype ReadEvent = NoData | Line(text: string) | PortError

  /** `read_sample`: nothing while disconnected; a serial error disconnects;
      a line is parsed, and an accepted sample is appended to both buffers
      (oldest evicted at capacity), counted as received, and stamps the
      packet time. */
  function ReadSample(a: Acquisition, ev: ReadEvent, now: real): (r: (Option<Sample>, Acquisition))
    requires BuffersInvariant(a)
    ensures BuffersInvariant(r.1)
    ensures !a.connected ==> r == (None, a)
    ensures ev.PortError? ==> r.0.None? && !r.1.connected
    ensures a.connected && ev.Line? ==> r.0 == PacketValue(ev.text)
    ensures r.0.Some? ==>
      && r.1.bufferLeft == DequeAppend(a.bufferLeft, r.0.value.1, BufferCapacity)
      && r.1.bufferRight == DequeAppend(a.bufferRight, r.0.value.2, BufferCapacity)
      && r.1.packetsReceived == a.packetsReceived + 1
      && r.1.packetsCorrupted == a.packetsCorrupted
    ensures r.0.None? ==>
      && r.1.bufferLeft == a.bufferLeft && r.1.bufferRight == a.bufferRight
      && r.1.packetsReceived == a.packetsReceived
    ensures r.1.config == a.config && r.1.reconnectAttempts == a.reconnectAttempts
    ensures ev.NoData? ==> r == (None, a)
    ensures a.connected && ev.Line? && r.0.None? ==> r.1 == a.(packetsCorrupted := a.packetsCorrupted + 1)
    ensures r.0.Some? ==> r.1.lastPacketTime == now && r.1.connected
  {
    if !a.connected then (None, a)
    else
      match ev
      case NoData => (None, a)
      case PortError => (None, a.(connected := false))
      case Line(text) =>
        var (v, a1) := ParsePacket(a, text);
        if v.None? then (None, a1)
        else
          (v, a1.(bufferLeft := DequeAppend(a1.bufferLeft, v.value.1, BufferCapacity),
                  bufferRight := DequeAppend(a1.bufferRight, v.value.2, BufferCapacity),
                  packetsReceived := a1.packetsReceived + 1,
                  lastPacketTime := now))
  }

  /** The reference meaning of `read_batch`: read until a read yields
      nothing or `maxSamples` samples are collected; a run out of events
      reads as no data. */
  function BatchOf(a: Acquisition, evs: seq<ReadEvent>, maxSamples: int, now: real): (r: (seq<Sample>, Acquisition))
    requires BuffersInvariant(a)
    ensures BuffersInvariant(r.1)
    ensures |r.0| <= |evs| && (maxSamples <= 0 ==> |r.0| == 0) && (maxSamples > 0 ==> |r.0| <= maxSamples)
    decreases |evs|
  {
    if maxSamples <= 0 then ([], a)
    else
      var ev := if |evs| == 0 then NoData else evs[0];
      var (v, a1) := ReadSample(a, ev, now);
      if v.None? || |evs| == 0 then ([], a1)
      else
        var (rest, a2) := BatchOf(a1, evs[1..], maxSamples - 1, now);
        ([v.value] + rest, a2)
  }

  /** `read_batch`: the loop of the source, returning the three columns;
      they have equal length, never more than `maxSamples`, and spell out
      exactly the samples of the reference reading, which also gives the
      final state. */
  method ReadBatch(a: Acquisition, evs: seq<ReadEvent>, maxSamples: int, now: real)
    returns (timestamps: seq<real>, lefts: seq<real>, rights: seq<real>, a': Acquisition)
    requires BuffersInvariant(a)
    ensures |timestamps| == |lefts| == |rights|
    ensures maxSamples > 0 ==> |timestamps| <= maxSamples
    ensures maxSamples <= 0 ==> |timestamps| == 0
    ensures BatchOf(a, evs, maxSamples, now) == (Collected(timestamps, lefts, rights), a')
  {
    timestamps, lefts, rights := [], [], [];
    a' := a;
    ghost var whole := BatchOf(a, evs, maxSamples, now);
    assert Collected([], [], []) + whole.0 == whole.0;
    var read := 0;
    var rest := evs;
    ghost var remaining := maxSamples;
    while read < maxSamples
      invariant 0 <= read == |timestamps| == |lefts| == |rights|
      invariant remaining == maxSamples - read
      invariant BuffersInvariant(a')
      invariant whole == (Collected(timestamps, lefts, rights) + BatchOf(a', rest, remaining, now).0,
                          BatchOf(a', rest, remaining, now).1)
      decreases maxSamples - read
    {
      ghost var before := BatchOf(a', rest, remaining, now);
      var ev := if |rest| == 0 then NoData else rest[0];
      BatchStep(a', rest, remaining, now);
      var v;
      v, a' := ReadSampleStep(a', ev, now);
      if v.None? || |rest| == 0 {
        assert before == ([], a');
        EmptyTail(timestamps, lefts, rights);
        return;
      }
      var (t, l, r) := v.value;
      ghost var after := BatchOf(a', rest[1..], remaining - 1, now);
      assert before == ([(t, l, r)] + after.0, after.1);
      AppendStep(timestamps, lefts, rights, t, l, r, after.0);
      timestamps, lefts, rights := timestamps + [t], lefts + [l], rights + [r];
      rest := rest[1..];
      read := read + 1;
      remaining := remaining - 1;
    }
    assert BatchOf(a', rest, remaining, now) == ([], a');
    EmptyTail(timestamps, lefts, rights);
  }

  lemma EmptyTail(ts: seq<real>, ls: seq<real>, rs: seq<real>)
    requires |ts| == |ls| == |rs|
    ensures Collected(ts, ls, rs) + [] == Collected(ts, ls, rs)
  {
  }

  /** Moving one sample from the pending tail to the collected columns. */
  lemma AppendStep(ts: seq<real>, ls: seq<real>, rs: seq<real>, t: real, l: real, r: real, tail: seq<Sample>)
    requires |ts| == |ls| == |rs|
    ensures Collected(ts + [t], ls + [l], rs + [r]) + tail == Collected(ts, ls, rs) + ([(t, l, r)] + tail)
  {
    assert Collected(ts + [t], ls + [l], rs + [r]) == Collected(ts, ls, rs) + [(t, l, r)];
  }

  /** One unfolding of the reference reading. */
  lemma BatchStep(a: Acquisition, evs: seq<ReadEvent>, maxSamples: int, now: real)
    requires BuffersInvariant(a) && maxSamples > 0
    ensures var ev := if |evs| == 0 then NoData else evs[0];
      var r := ReadSample(a, ev, now);
      BatchOf(a, evs, maxSamples, now)
        == if r.0.None? || |evs| == 0 then ([], r.1)
           else ([r.0.value] + BatchOf(r.1, evs[1..], maxSamples - 1, now).0,
                 BatchOf(r.1, evs[1..], maxSamples - 1, now).1)
  {
  }

  /** One `read_sample` call, as a statement. */
  method ReadSampleStep(a: Acquisition, ev: ReadEvent, now: real) returns (v: Option<Sample>, a': Acquisition)
    requires BuffersInvariant(a)
    ensures (v, a') == ReadSample(a, ev, now)
    ensures BuffersInvariant(a')
  {
    var r := ReadSample(a, ev, now);
    v, a' := r.0, r.1;
  }

  /** The samples the three columns spell out. */
  function Collected(ts: seq<real>, ls: seq<real>, rs: seq<real>): (s: seq<Sample>)
    requires |ts| == |ls| == |rs|
    ensures |s| == |ts| && forall i :: 0 <= i < |ts| ==> s[i] == (ts[i], ls[i], rs[i])
  {
    seq(|ts|, i requires 0 <= i < |ts| => (ts[i], ls[i], rs[i]))
  }

  /** Python's `list(d)[-n:]`: the last `n` items for positive `n`, the
      whole list for `n == 0` (since `-0 == 0`), and all but the first `-n`
      for negative `n`. */
  function PySuffix(d: seq<real>, n: int): (r: seq<real>)
    ensures 0 < n <= |d| ==> |r| == n
    ensures n == 0 || n >= |d| ==> r == d
    ensures |r| <= |d| && forall i :: 0 <= i < |r| ==> r[i] == d[|d| - |r| + i]
  {
    if n >= 0 then PyTail(d, n)
    else if -n >= |d| then []
    else d[-n..]
  }

  /** `get_buffer_data`: the most recent `n` samples of each channel. */
  function GetBufferData(a: Acquisition, n: int): (r: (seq<real>, seq<real>))
    requires BuffersInvariant(a)
    ensures |r.0| == |r.1| <= |a.bufferLeft|
    ensures 0 < n <= |a.bufferLeft| ==> |r.0| == n
    ensures r.0 == PySuffix(a.bufferLeft, n) && r.1 == PySuffix(a.bufferRight, n)
  {
    (PySuffix(a.bufferLeft, n), PySuffix(a.bufferRight, n))
  }

  /** `clear_buffers`. */
  function ClearBuffers(a: Acquisition): (r: Acquisition)
    ensures |r.bufferLeft| == 0 && |r.bufferRight| == 0
    ensures r == a.(bufferLeft := [], bufferRight := [])
  {
    a.(bufferLeft := [], bufferRight := [])
  }

  // ---------------------------------------------------------------------
  // Connection management.

  /** What trying to open the port yields: opened; the open failed; or no
      port was named and auto-detection found none. */
  datatype ConnectOutcome = Opened | OpenFailed | NoPortFound

  /** `connect`: an opened port marks the link connected and clears the
      attempt counter; a failed open marks it disconnected; when no port can
      be found nothing changes. */
  function Connect(a: Acquisition, outcome: ConnectOutcome): (r: (bool, Acquisition))
    ensures r.0 <==> outcome == Opened
    ensures outcome == Opened ==> r.1 == a.(connected := true, reconnectAttempts := 0)
    ensures outcome == OpenFailed ==> r.1 == a.(connected := false)
    ensures outcome == NoPortFound ==> r.1 == a
  {
    match outcome
    case Opened => (true, a.(connected := true, reconnectAttempts := 0))
    case OpenFailed => (false, a.(connected := false))
    case NoPortFound => (false, a)
  }

  /** `disconnect`. */
  function Disconnect(a: Acquisition): (r: Acquisition)
    ensures !r.connected && r == a.(connected := false)
  {
    a.(connected := false)
  }

  /** `reconnect` at clock reading `now`: refused without any change while
      the cooldown since the last attempt has not elapsed; otherwise the
      attempt is stamped and counted, refused once the count exceeds the
      maximum, and only then handed to `connect`. */
  function Reconnect(a: Acquisition, now: real, outcome: ConnectOutcome): (r: (bool, Acquisition))
    ensures now - a.lastReconnectTime < a.config.reconnectDelay ==> r == (false, a)
    ensures !(now - a.lastReconnectTime < a.config.reconnectDelay) ==>
      && r.1.lastReconnectTime == now
      && (a.reconnectAttempts + 1 > a.config.maxReconnectAttempts ==>
            !r.0 && r.1 == a.(lastReconnectTime := now, reconnectAttempts := a.reconnectAttempts + 1))
      && (a.reconnectAttempts + 1 <= a.config.maxReconnectAttempts ==>
            r == Connect(a.(lastReconnectTime := now, reconnectAttempts := a.reconnectAttempts + 1), outcome))
    ensures r.0 ==> r.1.connected && r.1.reconnectAttempts == 0
    ensures r.1.bufferLeft == a.bufferLeft && r.1.bufferRight == a.bufferRight
  {
    if now - a.lastReconnectTime < a.config.reconnectDelay then (false, a)
    else
      var a1 := a.(lastReconnectTime := now, reconnectAttempts := a.reconnectAttempts + 1);
      if a1.reconnectAttempts > a1.config.maxReconnectAttempts then (false, a1)
      else Connect(a1, outcome)
  }

  /** Once the attempt count has reached the maximum, no reconnect succeeds,
      whatever the port would do, and the count only grows. */
  lemma AttemptsExhausted(a: Acquisition, now: real, outcome: ConnectOutcome)
    requires a.reconnectAttempts >= a.config.maxReconnectAttempts
    ensures !Reconnect(a, now, outcome).0
    ensures Reconnect(a, now, outcome).1.reconnectAttempts >= a.reconnectAttempts
  {
  }

  /** Failed reconnects at the clock readings `times`. */
  function FailedReconnects(a: Acquisition, times: seq<real>): Acquisition
    decreases |times|
  {
    if |times| == 0 then a
    else FailedReconnects(Reconnect(a, times[0], OpenFailed).1, times[1..])
  }

  /** Every reading comes at least the cooldown after the one before it,
      the first after `last`. */
  predicate CooledDown(delay: real, last: real, times: seq<real>)
    decreases |times|
  {
    |times| == 0 || (delay <= times[0] - last && CooledDown(delay, times[0], times[1..]))
  }

  /** Failed reconnects spaced by at least the cooldown each count as an
      attempt: after `n` of them the count has grown by exactly `n`, so the
      cap is reached after finitely many. */
  lemma {:induction false} FailedReconnectsCount(a: Acquisition, times: seq<real>)
    requires CooledDown(a.config.reconnectDelay, a.lastReconnectTime, times)
    ensures FailedReconnects(a, times).reconnectAttempts == a.reconnectAttempts + |times|
    decreases |times|
  {
    if |times| > 0 {
      var a1 := Reconnect(a, times[0], OpenFailed).1;
      assert a1.lastReconnectTime == times[0] && a1.config == a.config;
      assert a1.reconnectAttempts == a.reconnectAttempts + 1;
      FailedReconnectsCount(a1, times[1..]);
    }
  }

  // ---------------------------------------------------------------------
  // Statistics.

  datatype Statistics = Statistics(
    connected: bool,
    packetsReceived: nat,
    packetsCorrupted: nat,
    corruptionRatePercent: real,
    bufferLeftSize: nat,
    bufferRightSize: nat,
    timeSinceLastPacket: real,
    reconnectAttempts: nat)

  /** The corruption rate exactly as computed: guarded on the number of
      packets received, so a stream in which every packet was corrupted
      reports 0 %. */
  function CorruptionRateAsWritten(received: nat, corrupted: nat): (r: real)
    ensures received > 0 ==> 0.0 <= r < 100.0
    ensures received > 0 ==> r * ((received + corrupted) as real) == (corrupted as real) * 100.0
    ensures received == 0 ==> r == 0.0
  {
    if received > 0 then
      var total := (received + corrupted) as real;
      assert (corrupted as real) < total;
      assert (corrupted as real) / total * total == corrupted as real;
      RatioBelow(corrupted as real, total, 1.0);
      RatioAbove(corrupted as real, total, 0.0);
      (corrupted as real) / total * 100.0
    else 0.0
  }

  /** An all-corrupted stream shows the discrepancy: 10 corrupted packets
      and none received report 0 %. */
  lemma AllCorruptedReportsZero()
    ensures CorruptionRateAsWritten(0, 10) == 0.0
    ensures CorruptionRate(0, 10) == 100.0
  {
  }

  /** The corruption rate as the percentage of all packets seen that were
      corrupted, guarded on there being any packet at all: 0 for none,
      100 exactly when every packet was corrupted, and equal to the
      as-written rate whenever some packet was received. */
  function CorruptionRate(received: nat, corrupted: nat): (r: real)
    ensures 0.0 <= r <= 100.0
    ensures received + corrupted == 0 ==> r == 0.0
    ensures received + corrupted > 0 ==> (r == 100.0 <==> received == 0)
    ensures r * ((received + corrupted) as real) == (corrupted as real) * 100.0
    ensures received > 0 ==> r == CorruptionRateAsWritten(received, corrupted)
  {
    var total := (received + corrupted) as real;
    if total > 0.0 then
      RatioBelow(corrupted as real, total, 1.0);
      RatioAbove(corrupted as real, total, 0.0);
      RatioAbove(corrupted as real, total, 1.0);
      assert (corrupted as real) / total * total == corrupted as real;
      (corrupted as real) / total * 100.0
    else 0.0
  }

  /** `get_statistics` at clock reading `now`, exactly as computed: the
      counters, buffer sizes, connection state and elapsed time, with the
      corruption rate guarded on the number of packets received. */
  function GetStatistics(a: Acquisition, now: real): (s: Statistics)
    ensures s.packetsReceived == a.packetsReceived && s.packetsCorrupted == a.packetsCorrupted
    ensures s.bufferLeftSize == |a.bufferLeft| && s.bufferRightSize == |a.bufferRight|
    ensures s.timeSinceLastPacket == now - a.lastPacketTime
    ensures s.connected == a.connected && s.reconnectAttempts == a.reconnectAttempts
    ensures a.packetsReceived == 0 ==> s.corruptionRatePercent == 0.0
    ensures a.packetsReceived > 0 ==>
      && 0.0 <= s.corruptionRatePercent < 100.0
      && s.corruptionRatePercent * ((a.packetsReceived + a.packetsCorrupted) as real)
         == (a.packetsCorrupted as real) * 100.0
  {
    WithRate(a, now, CorruptionRateAsWritten(a.packetsReceived, a.packetsCorrupted))
  }

  /** The statistics with the corruption rate counted over all packets
      seen, so that a stream in which every packet was corrupted reports
      100 %; they differ from the computed ones only in that rate, and only
      while no packet has been received. */
  function CorrectedStatistics(a: Acquisition, now: real): (s: Statistics)
    ensures 0.0 <= s.corruptionRatePercent <= 100.0
    ensures s.corruptionRatePercent * ((a.packetsReceived + a.packetsCorrupted) as real)
      == (a.packetsCorrupted as real) * 100.0
    ensures a.packetsReceived > 0 ==> s == GetStatistics(a, now)
    ensures s == GetStatistics(a, now).(corruptionRatePercent := s.corruptionRatePercent)
  {
    WithRate(a, now, CorruptionRate(a.packetsReceived, a.packetsCorrupted))
  }

  /** The statistics record for a given corruption rate. */
  function WithRate(a: Acquisition, now: real, rate: real): Statistics {
    Statistics(a.connected, a.packetsReceived, a.packetsCorrupted, rate,
               |a.bufferLeft|, |a.bufferRight|, now - a.lastPacketTime, a.reconnectAttempts)
  }
}
