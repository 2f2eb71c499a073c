/** The aggregation engine of src/aggregator.py: per-DUT summaries, the
    slowest tests, and the overall summary with its extra metrics. Each
    operation follows the steps of aggregator.py and is proved against the
    specifications in Stats and Ranking. */
module Aggregator {
  import opened Models
  import opened Strings
  import opened Stats
  import opened Ranking

  /** Sorts rows with distinct DUTs ascending by DUT. */
  method SortByDut(rows: seq<PerDutSummary>) returns (sorted: seq<PerDutSummary>)
    requires forall i, j :: 0 <= i < j < |rows| ==> rows[i].dut != rows[j].dut
    ensures RowsSorted(sorted) && |sorted| == |rows|
    ensures forall r :: r in sorted <==> r in rows
  {
    sorted := [];
    for i := 0 to |rows|
      invariant RowsSorted(sorted) && |sorted| == i
      invariant forall r :: r in sorted <==> r in rows[..i]
    {
      var row := rows[i];
      var p := 0;
      while p < |sorted| && Less(sorted[p].dut, row.dut)
        invariant 0 <= p <= |sorted|
        invariant forall k :: 0 <= k < p ==> Less(sorted[k].dut, row.dut)
      {
        p := p + 1;
      }
      if p < |sorted| {
        assert sorted[p] in rows[..i];
        LessTotal(sorted[p].dut, row.dut);
      }
      forall k | p < k < |sorted| ensures Less(row.dut, sorted[k].dut) {
        LessTransitive(row.dut, sorted[p].dut, sorted[k].dut);
      }
      sorted := sorted[..p] + [row] + sorted[p..];
      assert rows[..i + 1] == rows[..i] + [row];
    }
    assert rows[..|rows|] == rows;
  }

  /** The inner loop of the accumulation pass: every test of one session is
      added, in order, to the running totals of the session's DUT; no other
      entry changes. */
  method AddTests(m: map<string, Acc>, dut: string, tests: seq<TestResult>, ghost before: seq<TestResult>)
    returns (m': map<string, Acc>)
    requires dut in m && m[dut] == AccOf(before)
    ensures m' == m[dut := AccOf(before + tests)]
  {
    // `stats` stands for the dictionary entry the loop mutates through its alias
    var stats := m[dut];
    assert before + tests[..0] == before;
    for j := 0 to |tests|
      invariant stats == AccOf(before + tests[..j])
    {
      var test := tests[j];
      AccOfSnoc(before + tests[..j], test);
      assert before + tests[..j + 1] == (before + tests[..j]) + [test];
      stats := Add(stats, test);
    }
    assert tests[..|tests|] == tests;
    m' := m[dut := stats];
  }

  /** `m` holds the running totals of exactly the DUTs of `ss`, and `order`
      lists its keys in the order the dictionary received them. */
  ghost predicate Accumulated(ss: seq<TestSession>, m: map<string, Acc>, order: seq<string>) {
    && m.Keys == Duts(ss)
    && (forall d :: d in m ==> m[d] == AccOf(TestsOf(ss, d)))
    && order == FirstSeen(ss)
  }

  /** `per_dut_map.setdefault(dut, zeros)`: a new DUT gets zero totals and is
      appended to the key order; an existing one is left as it is. */
  method SetDefault(m: map<string, Acc>, order: seq<string>, dut: string) returns (m': map<string, Acc>, order': seq<string>)
    requires forall d :: d in order <==> d in m
    requires Distinct(order)
    ensures m'.Keys == m.Keys + {dut}
    ensures forall d :: d in m ==> m'[d] == m[d]
    ensures dut !in m ==> m'[dut] == Zero
    ensures order' == if dut in m then order else order + [dut]
    ensures forall d :: d in order' <==> d in m'
    ensures Distinct(order')
  {
    m', order' := m, order;
    if dut !in m {
      m' := m[dut := Zero];
      order' := order + [dut];
      DistinctSnoc(order, dut);
    }
  }

  /** One step of the accumulation pass: `setdefault` the session's DUT, then
      add the session's tests to it. */
  method AddSession(m: map<string, Acc>, order: seq<string>, ghost done: seq<TestSession>, session: TestSession)
    returns (m': map<string, Acc>, order': seq<string>)
    requires Accumulated(done, m, order)
    ensures Accumulated(done + [session], m', order')
  {
    var dut := session.dut;
    assert (forall d :: d in order <==> d in m) && Distinct(order) by {
      FirstSeenKeys(done);
    }
    var m1;
    m1, order' := SetDefault(m, order, dut);
    assert order' == FirstSeen(done + [session]) by {
      FirstSeenSnoc(done, session);
    }
    if dut !in m {
      TestsOfAbsent(done, dut);
    }
    m' := AddTests(m1, dut, session.tests, TestsOf(done, dut));
    TestsOfSnoc(done, session, dut);
    assert m'.Keys == Duts(done + [session]);
    AddSessionValues(m, m1, m', done, session);
  }

  /** After adding a session's tests to its DUT, every DUT again holds the
      totals of its own tests. */
  lemma AddSessionValues(m: map<string, Acc>, m1: map<string, Acc>, m': map<string, Acc>,
                         done: seq<TestSession>, session: TestSession)
    requires forall d :: d in m ==> m[d] == AccOf(TestsOf(done, d))
    requires m1.Keys == m.Keys + {session.dut} && forall d :: d in m ==> m1[d] == m[d]
    requires m' == m1[session.dut := AccOf(TestsOf(done, session.dut) + session.tests)]
    ensures forall d :: d in m' ==> m'[d] == AccOf(TestsOf(done + [session], d))
  {
    forall d | d in m' ensures m'[d] == AccOf(TestsOf(done + [session], d)) {
      TestsOfSnoc(done, session, d);
      if d != session.dut {
        assert TestsOf(done + [session], d) == TestsOf(done, d) + [] == TestsOf(done, d);
        assert d in m && m'[d] == m1[d] == m[d];
      }
    }
  }

  /** The accumulation pass of aggregate_per_dut: running totals per DUT in a
      map, with the DUTs in the order a dict would iterate them (first seen
      first, `Stats.FirstSeenOrder`). Every DUT of any session gets an entry,
      even one whose sessions hold no tests, and its totals are those of
      exactly its own tests. */
  method AccumulatePerDut(sessions: seq<TestSession>) returns (perDutMap: map<string, Acc>, order: seq<string>)
    ensures perDutMap.Keys == Duts(sessions)
    ensures forall d :: d in perDutMap ==> perDutMap[d] == AccOf(TestsOf(sessions, d))
    ensures order == FirstSeen(sessions)
    ensures forall d :: d in order <==> d in perDutMap
    ensures Distinct(order)
  {
    perDutMap, order := map[], [];
    for i := 0 to |sessions|
      invariant Accumulated(sessions[..i], perDutMap, order)
    {
      assert sessions[..i + 1] == sessions[..i] + [sessions[i]];
      perDutMap, order := AddSession(perDutMap, order, sessions[..i], sessions[i]);
    }
    assert sessions[..|sessions|] == sessions;
    FirstSeenKeys(sessions);
  }

  /** The finalizing pass of aggregate_per_dut: one summary row per DUT, in
      the map's key order, each the DUT's summary. */
  method FinalizeRows(perDutMap: map<string, Acc>, order: seq<string>, ghost ss: seq<TestSession>)
    returns (rows: seq<PerDutSummary>)
    requires forall d :: d in order ==> d in perDutMap && perDutMap[d] == AccOf(TestsOf(ss, d))
    ensures |rows| == |order|
    ensures forall m :: 0 <= m < |order| ==> rows[m].dut == order[m] && rows[m] == SummaryOf(ss, order[m])
  {
    rows := [];
    for k := 0 to |order|
      invariant |rows| == k
      invariant forall m :: 0 <= m < k ==> rows[m].dut == order[m] && rows[m] == SummaryOf(ss, order[m])
    {
      var dut := order[k];
      rows := rows + [Finalize(dut, perDutMap[dut])];
    }
  }

  /** aggregate_per_dut: accumulate, then one finalized row per DUT in map
      order, then sort by DUT. The result is the per-DUT report: strictly
      ascending, one row for each DUT of any session, each row partitioned and
      with a percentage pass rate. */
  method AggregatePerDut(sessions: seq<TestSession>) returns (summaries: seq<PerDutSummary>)
    ensures IsPerDutReport(sessions, summaries)
    ensures forall k :: 0 <= k < |summaries| ==>
      && summaries[k].passed + summaries[k].failed + summaries[k].skipped == summaries[k].total
      && 0.0 <= summaries[k].passRate <= 100.0
  {
    var perDutMap, order := AccumulatePerDut(sessions);

    var rows := FinalizeRows(perDutMap, order, sessions);
    assert forall i, j :: 0 <= i < j < |rows| ==> rows[i].dut != rows[j].dut by {
      DistinctAt(order);
    }
    summaries := SortByDut(rows);
    SortedRowsAreReport(sessions, order, rows, summaries);
  }

  /** Sorting one summary per DUT, each DUT listed once, gives the report. */
  lemma SortedRowsAreReport(ss: seq<TestSession>, order: seq<string>, rows: seq<PerDutSummary>, sorted: seq<PerDutSummary>)
    requires forall d :: d in order <==> d in Duts(ss)
    requires |rows| == |order| && forall m :: 0 <= m < |order| ==> rows[m] == SummaryOf(ss, order[m])
    requires RowsSorted(sorted) && forall r :: r in sorted <==> r in rows
    ensures IsPerDutReport(ss, sorted)
    ensures forall k :: 0 <= k < |sorted| ==>
      && sorted[k].passed + sorted[k].failed + sorted[k].skipped == sorted[k].total
      && 0.0 <= sorted[k].passRate <= 100.0
  {
    forall d | d in Duts(ss) ensures d in DutsOf(sorted) {
      var m :| 0 <= m < |order| && order[m] == d;
      assert rows[m] in sorted;
    }
    forall k | 0 <= k < |sorted|
      ensures sorted[k] == SummaryOf(ss, sorted[k].dut)
      ensures sorted[k].passed + sorted[k].failed + sorted[k].skipped == sorted[k].total
      ensures 0.0 <= sorted[k].passRate <= 100.0
    {
      assert sorted[k] in rows;
      SummaryOfFacts(ss, sorted[k].dut);
    }
  }

  /** Where the stable descending sort puts `x` among the already sorted
      `ys`: after every element at least as slow as `x`. */
  method FindInsertionPoint(ys: seq<Flat>, x: Flat) returns (p: nat)
    ensures InsertionPoint(ys, p, x)
  {
    p := 0;
    while p < |ys| && ys[p].test.duration >= x.test.duration
      invariant p <= |ys|
      invariant forall k :: 0 <= k < p ==> ys[k].test.duration >= x.test.duration
    {
      p := p + 1;
    }
  }

  /** The in-place `sort(key=duration, reverse=True)` of the flattened tests:
      a stable sort by descending duration, done by insertion. `perm` records
      where each sorted element came from. */
  method SortByDurationDescending(xs: seq<Flat>) returns (ys: seq<Flat>, ghost perm: seq<nat>)
    ensures IsStableDescending(xs, ys, perm)
  {
    ys, perm := [], [];
    for i := 0 to |xs|
      invariant IsStableDescending(xs[..i], ys, perm)
    {
      var p := FindInsertionPoint(ys, xs[i]);
      InsertKeepsStable(xs, i, ys, perm, p);
      ys, perm := ys[..p] + [xs[i]] + ys[p..], perm[..p] + [i] + perm[p..];
    }
    assert xs[..|xs|] == xs;
  }

  /** _get_slowest_tests: flatten every test with its DUT and session id,
      sort stably by descending duration, and report the first `topN`. */
  method GetSlowestTests(sessions: seq<TestSession>, topN: nat) returns (result: seq<SlowTest>, ghost picked: seq<nat>)
    ensures IsSlowest(Flatten(sessions), topN, result, picked)
  {
    var allTests: seq<Flat> := [];
    for i := 0 to |sessions|
      invariant allTests == Flatten(sessions[..i])
    {
      var session := sessions[i];
      for j := 0 to |session.tests|
        invariant allTests == Flatten(sessions[..i]) + Tag(session)[..j]
      {
        allTests := allTests + [Flat(session.dut, session.sessionId, session.tests[j])];
        assert Tag(session)[..j + 1] == Tag(session)[..j] + [Tag(session)[j]];
      }
      assert Tag(session)[..|session.tests|] == Tag(session);
      assert sessions[..i + 1][..i] == sessions[..i];
    }
    assert sessions[..|sessions|] == sessions;

    var sorted;
    ghost var perm;
    sorted, perm := SortByDurationDescending(allTests);

    var top := Min(topN, |sorted|);
    result := [];
    for k := 0 to top
      invariant |result| == k
      invariant forall m :: 0 <= m < k ==> result[m] == Entry(sorted[m])
    {
      var f := sorted[k];
      result := result + [SlowTest(f.test.name, f.dut, f.sessionId, f.test.duration, f.test.status)];
    }
    PrefixIsSlowest(allTests, sorted, perm, topN, result);
    picked := perm[..top];
  }

  /** aggregate_overall: the per-DUT report, the overall figures summed from
      its rows, and the extra metrics. */
  method AggregateOverall(sessions: seq<TestSession>) returns (overall: OverallSummary, extras: ExtraMetrics)
    ensures IsPerDutReport(sessions, overall.perDut)
    ensures Totals(overall.perDut) == Acc(overall.totalTests, overall.totalPassed, overall.totalFailed, overall.totalSkipped, overall.totalDuration)
    ensures overall.totalTests == |AllTests(sessions)|
    ensures overall.totalPassed == CountOf(AllTests(sessions), Passed)
    ensures overall.totalFailed == CountOf(AllTests(sessions), Failed)
    ensures overall.totalSkipped == CountOf(AllTests(sessions), Skipped)
    ensures overall.totalDuration == SumDurations(AllTests(sessions))
    ensures overall.totalPassed + overall.totalFailed + overall.totalSkipped == overall.totalTests
    ensures overall.avgDuration == Average(overall.totalDuration, overall.totalTests)
    ensures overall.overallPassRate == PassRate(overall.totalPassed, overall.totalTests)
    ensures 0.0 <= overall.overallPassRate <= 100.0
    ensures sessions == [] ==> overall == OverallSummary(0, 0, 0, 0, 0.0, 0.0, 0.0, [])
    ensures exists picked :: IsSlowest(Flatten(sessions), 5, extras.slowestTests, picked)
    ensures |extras.slowestTests| == Min(5, overall.totalTests)
    ensures extras.testsPerDut.Keys == Duts(sessions)
    ensures forall d :: d in extras.testsPerDut ==> extras.testsPerDut[d] == |TestsOf(sessions, d)|
    ensures extras.uniqueTestNames == |NameSet(sessions)| <= overall.totalTests
  {
    var perDut := AggregatePerDut(sessions);

    var totals := Totals(perDut);
    var avgDuration := Average(totals.duration, totals.total);
    var overallPassRate := PassRate(totals.passed, totals.total);
    OverallTotals(sessions, perDut);

    var slowest;
    ghost var picked;
    slowest, picked := GetSlowestTests(sessions, 5);
    FlattenMatchesAllTests(sessions);

    var testsPerDut := TestsPerDut(perDut);
    TestsPerDutOfReport(sessions, perDut);

    var uniqueTestNames := |set s, t | s in sessions && t in s.tests :: t.name|;
    NamesAtMostTests(sessions);

    extras := ExtraMetrics(slowest, testsPerDut, uniqueTestNames);
    overall := OverallSummary(totals.total, totals.passed, totals.failed, totals.skipped, totals.duration,
                              avgDuration, overallPassRate, perDut);
    if sessions == [] {
      DutsOfEmpty(perDut);
    }
  }
}
