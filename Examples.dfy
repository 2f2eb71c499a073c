/** Worked examples of the aggregation engine, stated against the
    specifications every result of it satisfies. */
module Examples {
  import opened Models
  import opened Strings
  import opened Stats
  import opened Ranking

  /** "boardA" runs a passing 1.0s test and a failing 3.0s test, "boardB" a
      passing 2.0s test. */
  function BoardSessions(): seq<TestSession> {
    [TestSession("boardA", "s1", [TestResult("t1", "passed", 1.0), TestResult("t2", "failed", 3.0)]),
     TestSession("boardB", "s2", [TestResult("t3", "passed", 2.0)])]
  }

  lemma PassedAndFailed()
    ensures Classify("passed") == Passed && Classify("failed") == Failed
  {
    LowerMatches("passed", "passed");
    LowerMatches("failed", "failed");
  }

  lemma BoardATotals()
    ensures AccOf(BoardSessions()[0].tests) == Acc(2, 1, 1, 0, 4.0)
  {
    PassedAndFailed();
    var ta := BoardSessions()[0].tests;
    AccOfSnoc([ta[0]], ta[1]);
    AccOfSnoc([], ta[0]);
    assert ta == [ta[0]] + [ta[1]] && [ta[0]] == [] + [ta[0]];
  }

  lemma BoardBTotals()
    ensures AccOf(BoardSessions()[1].tests) == Acc(1, 1, 0, 0, 2.0)
  {
    PassedAndFailed();
    assert BoardSessions()[1].tests[..0] == [];
  }

  lemma BoardTests()
    ensures AllTests(BoardSessions()) == BoardSessions()[0].tests + BoardSessions()[1].tests
    ensures TestsOf(BoardSessions(), "boardA") == BoardSessions()[0].tests
    ensures TestsOf(BoardSessions(), "boardB") == BoardSessions()[1].tests
  {
    var ss := BoardSessions();
    assert ss[..1][..0] == [] && ss[..1] == [ss[0]];
  }

  lemma BoardTotals()
    ensures AccOf(AllTests(BoardSessions())) == Acc(3, 2, 1, 0, 6.0)
  {
    BoardATotals();
    BoardBTotals();
    BoardTests();
    AccOfAppend(BoardSessions()[0].tests, BoardSessions()[1].tests);
  }

  lemma BoardsInOrder()
    ensures Less("boardA", "boardB")
  {
    assert "boardA"[1..] == "oardA" && "boardB"[1..] == "oardB";
    assert "oardA"[1..] == "ardA" && "oardB"[1..] == "ardB";
    assert "ardA"[1..] == "rdA" && "ardB"[1..] == "rdB";
    assert "rdA"[1..] == "dA" && "rdB"[1..] == "dB";
    assert "dA"[1..] == "A" && "dB"[1..] == "B";
  }

  lemma BoardRows()
    ensures SummaryOf(BoardSessions(), "boardA") == PerDutSummary("boardA", 2, 1, 1, 0, 4.0, 2.0, 50.0)
    ensures SummaryOf(BoardSessions(), "boardB") == PerDutSummary("boardB", 1, 1, 0, 0, 2.0, 2.0, 100.0)
  {
    BoardATotals();
    BoardBTotals();
    BoardTests();
  }

  /** Two sessions on DUTs in ascending order: their report is the summary
      of the first DUT followed by that of the second. */
  lemma TwoDutReport(ss: seq<TestSession>, r0: PerDutSummary, r1: PerDutSummary)
    requires |ss| == 2 && Less(ss[0].dut, ss[1].dut)
    requires r0 == SummaryOf(ss, ss[0].dut) && r1 == SummaryOf(ss, ss[1].dut)
    ensures IsPerDutReport(ss, [r0, r1])
  {
    assert DutsOf([r0, r1]) == Duts(ss) by {
      assert ss == [ss[0], ss[1]];
      PairKeys(ss[0], ss[1], r0, r1);
    }
  }

  lemma PairKeys(s0: TestSession, s1: TestSession, r0: PerDutSummary, r1: PerDutSummary)
    ensures Duts([s0, s1]) == {s0.dut, s1.dut}
    ensures DutsOf([r0, r1]) == {r0.dut, r1.dut}
  {
    assert [s0, s1][0] == s0 && [s0, s1][1] == s1;
    assert [r0, r1][0] == r0 && [r0, r1][1] == r1;
  }

  lemma BoardsReport()
    ensures IsPerDutReport(BoardSessions(),
      [PerDutSummary("boardA", 2, 1, 1, 0, 4.0, 2.0, 50.0),
       PerDutSummary("boardB", 1, 1, 0, 0, 2.0, 2.0, 100.0)])
  {
    var ss := BoardSessions();
    BoardsInOrder();
    BoardRows();
    TwoDutReport(ss, PerDutSummary("boardA", 2, 1, 1, 0, 4.0, 2.0, 50.0),
                 PerDutSummary("boardB", 1, 1, 0, 0, 2.0, 2.0, 100.0));
  }

  /** The only per-DUT report of the two boards is the one below, and the
      overall figures are three tests, two passed, one failed, 6.0s, an
      average of 2.0s and a pass rate of 200/3 percent. */
  lemma BoardsExample()
    ensures forall rows :: IsPerDutReport(BoardSessions(), rows) ==>
      rows == [PerDutSummary("boardA", 2, 1, 1, 0, 4.0, 2.0, 50.0),
               PerDutSummary("boardB", 1, 1, 0, 0, 2.0, 2.0, 100.0)]
    ensures AccOf(AllTests(BoardSessions())) == Acc(3, 2, 1, 0, 6.0)
    ensures Average(6.0, 3) == 2.0 && PassRate(2, 3) == 200.0 / 3.0
  {
    BoardTotals();
    BoardsReport();
    forall rows | IsPerDutReport(BoardSessions(), rows)
      ensures rows == [PerDutSummary("boardA", 2, 1, 1, 0, 4.0, 2.0, 50.0),
                       PerDutSummary("boardB", 1, 1, 0, 0, 2.0, 2.0, 100.0)]
    {
      PerDutReportUnique(BoardSessions(), rows,
        [PerDutSummary("boardA", 2, 1, 1, 0, 4.0, 2.0, 50.0),
         PerDutSummary("boardB", 1, 1, 0, 0, 2.0, 2.0, 100.0)]);
    }
  }

  /** Seven tests of one session with durations 5, 3, 5, 1, 2, 5, 4. */
  function TieSession(): TestSession {
    TestSession("d", "s", [TestResult("t0", "passed", 5.0), TestResult("t1", "passed", 3.0),
                           TestResult("t2", "passed", 5.0), TestResult("t3", "passed", 1.0),
                           TestResult("t4", "passed", 2.0), TestResult("t5", "passed", 5.0),
                           TestResult("t6", "passed", 4.0)])
  }

  lemma TieDurations()
    ensures var flat := Flatten([TieSession()]);
      && |flat| == 7
      && flat[0].test.duration == 5.0 && flat[1].test.duration == 3.0 && flat[2].test.duration == 5.0
      && flat[3].test.duration == 1.0 && flat[4].test.duration == 2.0 && flat[5].test.duration == 5.0
      && flat[6].test.duration == 4.0
      && flat[0].test.name == "t0" && flat[2].test.name == "t2" && flat[5].test.name == "t5"
  {
    var s := TieSession();
    assert [s][..0] == [];
    assert Flatten([s]) == Flatten([s][..0]) + Tag(s);
  }

  /** Seven tests timed 5, 3, 5, 1, 2, 5, 4. */
  ghost predicate TimedSeven(flat: seq<Flat>) {
    && |flat| == 7
    && flat[0].test.duration == 5.0 && flat[1].test.duration == 3.0 && flat[2].test.duration == 5.0
    && flat[3].test.duration == 1.0 && flat[4].test.duration == 2.0 && flat[5].test.duration == 5.0
    && flat[6].test.duration == 4.0
  }

  function TopFive(flat: seq<Flat>): seq<SlowTest>
    requires |flat| == 7
  {
    [Entry(flat[0]), Entry(flat[2]), Entry(flat[5]), Entry(flat[6]), Entry(flat[1])]
  }

  lemma TopFiveEntries(flat: seq<Flat>)
    requires TimedSeven(flat)
    ensures forall k :: 0 <= k < 5 ==>
      && TopFive(flat)[k] == Entry(flat[[0, 2, 5, 6, 1][k]])
      && TopFive(flat)[k].duration == [5.0, 5.0, 5.0, 4.0, 3.0][k]
  {
    forall k | 0 <= k < 5
      ensures TopFive(flat)[k] == Entry(flat[[0, 2, 5, 6, 1][k]])
      ensures TopFive(flat)[k].duration == [5.0, 5.0, 5.0, 4.0, 3.0][k]
    {
      if k == 0 {} else if k == 1 {} else if k == 2 {} else if k == 3 {} else {}
    }
  }

  lemma TopFiveOrdered()
    ensures forall k, l :: 0 <= k < l < 5 ==>
      && [0, 2, 5, 6, 1][k] != [0, 2, 5, 6, 1][l]
      && [5.0, 5.0, 5.0, 4.0, 3.0][k] >= [5.0, 5.0, 5.0, 4.0, 3.0][l]
      && ([5.0, 5.0, 5.0, 4.0, 3.0][k] == [5.0, 5.0, 5.0, 4.0, 3.0][l] ==> [0, 2, 5, 6, 1][k] < [0, 2, 5, 6, 1][l])
  {
    forall k, l | 0 <= k < l < 5
      ensures [0, 2, 5, 6, 1][k] != [0, 2, 5, 6, 1][l]
      ensures [5.0, 5.0, 5.0, 4.0, 3.0][k] >= [5.0, 5.0, 5.0, 4.0, 3.0][l]
      ensures [5.0, 5.0, 5.0, 4.0, 3.0][k] == [5.0, 5.0, 5.0, 4.0, 3.0][l] ==> [0, 2, 5, 6, 1][k] < [0, 2, 5, 6, 1][l]
    {
      if k == 0 {} else if k == 1 {} else if k == 2 {} else {}
    }
  }

  lemma RestAreFaster(flat: seq<Flat>)
    requires TimedSeven(flat)
    ensures forall j :: 0 <= j < 7 && j !in [0, 2, 5, 6, 1] ==> flat[j].test.duration < 3.0
  {
  }

  /** Any seven tests timed 5, 3, 5, 1, 2, 5, 4: positions 0, 2, 5, 6, 1 are
      their five slowest. */
  lemma SlowestOfSeven(flat: seq<Flat>)
    requires TimedSeven(flat)
    ensures IsSlowest(flat, 5, TopFive(flat), [0, 2, 5, 6, 1])
  {
    TopFiveEntries(flat);
    TopFiveOrdered();
    RestAreFaster(flat);
  }

  /** The five slowest of 5, 3, 5, 1, 2, 5, 4 are the three 5s in their input
      order, then the 4 and the 3; no other selection meets the specification. */
  lemma TieExample(result: seq<SlowTest>, picked: seq<nat>)
    requires IsSlowest(Flatten([TieSession()]), 5, result, picked)
    ensures picked == [0, 2, 5, 6, 1]
    ensures |result| == 5
    ensures result[0].duration == 5.0 && result[1].duration == 5.0 && result[2].duration == 5.0
    ensures result[3].duration == 4.0 && result[4].duration == 3.0
    ensures result[0].name == "t0" && result[1].name == "t2" && result[2].name == "t5"
  {
    var flat := Flatten([TieSession()]);
    TieDurations();
    SlowestOfSeven(flat);
    SlowestIsUnique(flat, 5, result, picked, TopFive(flat), [0, 2, 5, 6, 1]);
  }
}

