/** The validation result ledger: test outcomes keyed by name, pass and
    fail counters, merged metrics, the summary and the deployment verdict. */
module Validation {
  import opened Config
  import opened Seqs

  /** One stored test outcome. */
  datatype Entry = Entry(passed: bool, metrics: map<string, Value>, criteria: string, timestamp: real)

  /** `ValidationResults`: the two counters, the results keyed by test
      name, and every metric reported so far. */
  datatype Ledger = Ledger(
    testsPassed: nat,
    testsFailed: nat,
    results: map<string, Entry>,
    metrics: map<string, Value>)

  /** The empty ledger of the constructor. */
  function NewLedger(): (l: Ledger)
    ensures l.testsPassed == 0 && l.testsFailed == 0
    ensures |l.results| == 0 && |l.metrics| == 0
  {
    Ledger(0, 0, map[], map[])
  }

  /** A test report as passed to `add_result`, with the clock reading. */
  datatype Test = Test(name: string, passed: bool, metrics: map<string, Value>, criteria: string, timestamp: real)

  /** `add_result`: the entry is stored under the test name, replacing any
      earlier entry of that name and leaving every other name alone;
      exactly one counter grows, the one matching the outcome; the test's
      metrics are merged in and win over earlier metrics of the same name. */
  function AddResult(l: Ledger, t: Test): (r: Ledger)
    ensures t.passed ==> r.testsPassed == l.testsPassed + 1 && r.testsFailed == l.testsFailed
    ensures !t.passed ==> r.testsFailed == l.testsFailed + 1 && r.testsPassed == l.testsPassed
    ensures r.results.Keys == l.results.Keys + {t.name}
    ensures t.name in r.results && r.results[t.name] == Entry(t.passed, t.metrics, t.criteria, t.timestamp)
    ensures forall n :: n in l.results && n != t.name ==> r.results[n] == l.results[n]
    ensures r.metrics.Keys == l.metrics.Keys + t.metrics.Keys
    ensures forall m :: m in t.metrics ==> r.metrics[m] == t.metrics[m]
    ensures forall m :: m in l.metrics && m !in t.metrics ==> r.metrics[m] == l.metrics[m]
  {
    var e := Entry(t.passed, t.metrics, t.criteria, t.timestamp);
    Ledger(
      if t.passed then l.testsPassed + 1 else l.testsPassed,
      if t.passed then l.testsFailed else l.testsFailed + 1,
      l.results[t.name := e],
      l.metrics + t.metrics)
  }

  /** Every test counted at least once: there are never more stored
      results than tests added. */
  predicate LedgerInvariant(l: Ledger) {
    |l.results| <= l.testsPassed + l.testsFailed
  }

  lemma NewLedgerInvariant()
    ensures LedgerInvariant(NewLedger())
  {
  }

  /** Adding a result keeps the invariant: the map grows by at most one
      key while the counters grow by exactly one. */
  lemma AddResultPreserves(l: Ledger, t: Test)
    requires LedgerInvariant(l)
    ensures LedgerInvariant(AddResult(l, t))
  {
    var r := AddResult(l, t);
    if t.name in l.results {
      assert r.results.Keys == l.results.Keys;
    } else {
      assert r.results.Keys == l.results.Keys + {t.name};
      assert |r.results.Keys| == |l.results.Keys| + 1;
    }
    assert |r.results| == |r.results.Keys|;
  }

  // ---------------------------------------------------------------------
  // A whole validation run.

  /** The ledger after adding the tests in order to a fresh one. */
  function Replay(ts: seq<Test>): Ledger
    decreases |ts|
  {
    if |ts| == 0 then NewLedger() else AddResult(Replay(ts[..|ts| - 1]), ts[|ts| - 1])
  }

  /** How many of the tests passed. */
  function Passes(ts: seq<Test>): (n: nat)
    ensures n <= |ts|
    decreases |ts|
  {
    if |ts| == 0 then 0 else Passes(ts[..|ts| - 1]) + (if ts[|ts| - 1].passed then 1 else 0)
  }

  /** The names of the tests. */
  function Names(ts: seq<Test>): (s: set<string>)
    ensures forall i :: 0 <= i < |ts| ==> ts[i].name in s
    ensures forall n :: n in s ==> exists i :: 0 <= i < |ts| && ts[i].name == n
    decreases |ts|
  {
    if |ts| == 0 then {} else Names(ts[..|ts| - 1]) + {ts[|ts| - 1].name}
  }

  /** Index of the last test carrying `name`. */
  function LastIndex(ts: seq<Test>, name: string): (i: int)
    ensures -1 <= i < |ts|
    ensures i >= 0 ==> ts[i].name == name
    ensures forall j :: i < j < |ts| ==> ts[j].name != name
    decreases |ts|
  {
    if |ts| == 0 then -1
    else if ts[|ts| - 1].name == name then |ts| - 1
    else LastIndex(ts[..|ts| - 1], name)
  }

  /** After a run the counters count the passing and the failing tests. */
  lemma {:induction false} ReplayCounts(ts: seq<Test>)
    ensures Replay(ts).testsPassed == Passes(ts)
    ensures Replay(ts).testsFailed == |ts| - Passes(ts)
    decreases |ts|
  {
    if |ts| > 0 {
      ReplayCounts(ts[..|ts| - 1]);
    }
  }

  /** After a run the names stored are exactly the test names. */
  lemma {:induction false} ReplayNames(ts: seq<Test>)
    ensures Replay(ts).results.Keys == Names(ts)
    decreases |ts|
  {
    if |ts| > 0 {
      ReplayNames(ts[..|ts| - 1]);
    }
  }

  /** After a run each name holds the outcome of its LAST report: a re-run
      test replaces the earlier one, although both remain counted. */
  lemma {:induction false} ReplayLastWins(ts: seq<Test>, n: string)
    requires n in Names(ts)
    ensures LastIndex(ts, n) >= 0 && n in Replay(ts).results
    ensures Replay(ts).results[n].passed == ts[LastIndex(ts, n)].passed
    ensures Replay(ts).results[n].metrics == ts[LastIndex(ts, n)].metrics
    decreases |ts|
  {
    var p := ts[..|ts| - 1];
    var t := ts[|ts| - 1];
    if n != t.name {
      assert n in Names(p);
      ReplayLastWins(p, n);
      assert p[LastIndex(p, n)] == ts[LastIndex(p, n)];
    }
  }

  /** A ledger built by any run satisfies the invariant. */
  lemma {:induction false} ReplayInvariant(ts: seq<Test>)
    ensures LedgerInvariant(Replay(ts))
    decreases |ts|
  {
    if |ts| == 0 {
      NewLedgerInvariant();
    } else {
      ReplayInvariant(ts[..|ts| - 1]);
      AddResultPreserves(Replay(ts[..|ts| - 1]), ts[|ts| - 1]);
    }
  }

  // ---------------------------------------------------------------------
  // Summary and readiness.

  /** `get_summary`'s dictionary. */
  datatype Summary = Summary(
    totalTests: nat,
    testsPassed: nat,
    testsFailed: nat,
    passRatePercent: real,
    allMetrics: map<string, Value>,
    individualResults: map<string, Entry>)

  /** `get_summary`: the total is passed plus failed; the pass rate is the
      passed share in percent, 0 when nothing ran, and never leaves
      [0, 100]. */
  function GetSummary(l: Ledger): (s: Summary)
    ensures s.totalTests == l.testsPassed + l.testsFailed
    ensures s.testsPassed == l.testsPassed && s.testsFailed == l.testsFailed
    ensures s.totalTests == 0 ==> s.passRatePercent == 0.0
    ensures s.totalTests > 0 ==> s.passRatePercent * s.totalTests as real == 100.0 * l.testsPassed as real
    ensures 0.0 <= s.passRatePercent <= 100.0
    ensures s.allMetrics == l.metrics && s.individualResults == l.results
  {
    var total := l.testsPassed + l.testsFailed;
    var rate := if total > 0 then l.testsPassed as real / total as real * 100.0 else 0.0;
    assert total > 0 ==> 0.0 <= rate <= 100.0 && rate * total as real == 100.0 * l.testsPassed as real by {
      if total > 0 {
        var q := l.testsPassed as real / total as real;
        assert q * total as real == l.testsPassed as real;
        RatioAbove(l.testsPassed as real, total as real, 1.0);
        RatioBelow(l.testsPassed as real, total as real, 0.0);
      }
    }
    Summary(total, l.testsPassed, l.testsFailed, rate, l.metrics, l.results)
  }

  /** The verdict of `generate_report`: ready for deployment when the pass
      rate reaches 80 percent. */
  function Ready(l: Ledger): (ready: bool)
    ensures ready <==> l.testsPassed + l.testsFailed > 0 && 5 * l.testsPassed >= 4 * (l.testsPassed + l.testsFailed)
  {
    var s := GetSummary(l);
    assert s.totalTests > 0 ==> (s.passRatePercent >= 80.0 <==> 5 * l.testsPassed >= 4 * s.totalTests) by {
      if s.totalTests > 0 {
        RateThreshold(s.passRatePercent, s.totalTests as real, l.testsPassed as real);
      }
    }
    s.passRatePercent >= 80.0
  }

  /** With `rate * total == 100 * passed` and a positive total, the rate
      reaches 80 exactly when passed is at least four fifths of the total. */
  lemma RateThreshold(rate: real, total: real, passed: real)
    requires total > 0.0 && rate * total == 100.0 * passed
    ensures rate >= 80.0 <==> 5.0 * passed >= 4.0 * total
  {
    if rate >= 80.0 {
      assert rate * total >= 80.0 * total;
    } else {
      assert rate * total < 80.0 * total;
    }
  }

  /** A run with no tests is never ready, and one in which every test
      passed always is. */
  lemma ReadyExtremes(ts: seq<Test>)
    ensures |ts| == 0 ==> !Ready(Replay(ts))
    ensures |ts| > 0 && Passes(ts) == |ts| ==> Ready(Replay(ts))
  {
    ReplayCounts(ts);
  }

  /** A further pass never withdraws readiness, and a further failure
      never grants it. */
  lemma ReadyMonotone(l: Ledger, t: Test)
    ensures t.passed && Ready(l) ==> Ready(AddResult(l, t))
    ensures !t.passed && !Ready(l) ==> !Ready(AddResult(l, t))
  {
  }
}
