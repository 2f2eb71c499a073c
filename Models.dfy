/** Record shapes of the test-reporting system: one test result, one session
    run against a device under test (DUT), and the three structures the
    aggregation engine produces. Durations and rates are exact reals; counts
    are natural numbers. */
module Models {

  /** The result of one test case. `status` is kept as the ingested string;
      only "passed" and "failed" (case-insensitively) are recognised, anything
      else counts as skipped. */
  datatype TestResult = TestResult(name: string, status: string, duration: real)

  /** One session of tests run against a single DUT configuration. */
  datatype TestSession = TestSession(dut: string, sessionId: string, tests: seq<TestResult>)

  /** Aggregated statistics for one DUT; `passRate` is a percentage. */
  datatype PerDutSummary = PerDutSummary(
    dut: string,
    total: nat,
    passed: nat,
    failed: nat,
    skipped: nat,
    totalDuration: real,
    avgDuration: real,
    passRate: real)

  /** Aggregated statistics across all DUTs, with the per-DUT breakdown. */
  datatype OverallSummary = OverallSummary(
    totalTests: nat,
    totalPassed: nat,
    totalFailed: nat,
    totalSkipped: nat,
    totalDuration: real,
    avgDuration: real,
    overallPassRate: real,
    perDut: seq<PerDutSummary>)

  /** One entry of the slowest-tests list: the test's fields together with the
      DUT and session it ran in. */
  datatype SlowTest = SlowTest(name: string, dut: string, sessionId: string, duration: real, status: string)

  /** Metrics derived beside the summaries. */
  datatype ExtraMetrics = ExtraMetrics(
    slowestTests: seq<SlowTest>,
    testsPerDut: map<string, nat>,
    uniqueTestNames: nat)
}
