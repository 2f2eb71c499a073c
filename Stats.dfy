/** The specification side of per-DUT aggregation: status classification,
    the fixed-shape accumulator that stands for the per-DUT running totals,
    the summary each DUT must receive, and the facts the overall summary is
    built on. */
module Stats {
  import opened Models
  import opened Strings

  /** The three buckets a test falls into. */
  datatype Outcome = Passed | Failed | Skipped

  /** Status classification: after lower-casing, exactly "passed" and "failed"
      are recognised; every other string, "" included, is skipped. */
  function Classify(status: string): (o: Outcome)
    ensures o == Passed <==> Lower(status) == "passed"
    ensures o == Failed <==> Lower(status) == "failed"
    ensures o == Skipped <==> Lower(status) != "passed" && Lower(status) != "failed"
  {
    var s := Lower(status);
    if s == "passed" then Passed else if s == "failed" then Failed else Skipped
  }

  /** Classification does not depend on letter case. */
  lemma ClassifyIgnoresCase(status: string)
    ensures Classify(Lower(status)) == Classify(status)
  {
    LowerIdempotent(status);
  }

  /** Upper- and mixed-case spellings are recognised. */
  lemma ClassifyMixedCase()
    ensures Classify("PASSED") == Passed && Classify("Failed") == Failed
  {
    LowerMatches("PASSED", "passed");
    LowerMatches("Failed", "failed");
  }

  /** Unrecognised strings, the empty one included, are skipped. */
  lemma ClassifyCatchAll()
    ensures Classify("SKIPPED") == Skipped && Classify("blocked") == Skipped && Classify("") == Skipped
  {
    LowerMatches("SKIPPED", "skipped");
    LowerMatches("blocked", "blocked");
  }

  /** Running totals of one DUT. */
  datatype Acc = Acc(total: nat, passed: nat, failed: nat, skipped: nat, duration: real)

  const Zero := Acc(0, 0, 0, 0, 0.0)

  /** One test added to the running totals: the total grows by one, the
      duration sum by the test's duration, and exactly the bucket its status
      selects grows by one. */
  function Add(a: Acc, t: TestResult): (r: Acc)
    ensures r.total == a.total + 1 && r.duration == a.duration + t.duration
    ensures r.passed + r.failed + r.skipped == a.passed + a.failed + a.skipped + 1
    ensures r.passed == a.passed + (if Classify(t.status) == Passed then 1 else 0)
    ensures r.failed == a.failed + (if Classify(t.status) == Failed then 1 else 0)
    ensures r.skipped == a.skipped + (if Classify(t.status) == Skipped then 1 else 0)
  {
    var a' := a.(total := a.total + 1, duration := a.duration + t.duration);
    match Classify(t.status)
    case Passed => a'.(passed := a.passed + 1)
    case Failed => a'.(failed := a.failed + 1)
    case Skipped => a'.(skipped := a.skipped + 1)
  }

  /** The totals after adding the tests of `ts` in order. */
  function AccOf(ts: seq<TestResult>): Acc {
    if ts == [] then Zero else Add(AccOf(ts[..|ts| - 1]), ts[|ts| - 1])
  }

  lemma AccOfSnoc(ts: seq<TestResult>, t: TestResult)
    ensures AccOf(ts + [t]) == Add(AccOf(ts), t)
  {
    assert (ts + [t])[..|ts|] == ts;
  }

  /** Field-wise sum of two accumulators. */
  function Merge(a: Acc, b: Acc): (r: Acc)
    ensures r.total == a.total + b.total && r.duration == a.duration + b.duration
    ensures r.passed == a.passed + b.passed && r.failed == a.failed + b.failed && r.skipped == a.skipped + b.skipped
  {
    Acc(a.total + b.total, a.passed + b.passed, a.failed + b.failed, a.skipped + b.skipped, a.duration + b.duration)
  }

  /** Accumulating two runs one after the other equals merging their totals. */
  lemma {:induction false} AccOfAppend(xs: seq<TestResult>, ys: seq<TestResult>)
    ensures AccOf(xs + ys) == Merge(AccOf(xs), AccOf(ys))
  {
    if ys == [] {
      assert xs + ys == xs;
    } else {
      var ys', y := ys[..|ys| - 1], ys[|ys| - 1];
      assert ys == ys' + [y];
      assert xs + ys == (xs + ys') + [y];
      AccOfSnoc(xs + ys', y);
      AccOfAppend(xs, ys');
      AccOfSnoc(ys', y);
      MergeAdd(AccOf(xs), AccOf(ys'), y);
    }
  }

  /** Adding a test after a merge is adding it to the second operand. */
  lemma MergeAdd(a: Acc, b: Acc, t: TestResult)
    ensures Add(Merge(a, b), t) == Merge(a, Add(b, t))
  {
  }

  /** Reference count: the tests of `ts` whose status falls in bucket `o`. */
  function CountOf(ts: seq<TestResult>, o: Outcome): nat {
    if ts == [] then 0 else (if Classify(ts[0].status) == o then 1 else 0) + CountOf(ts[1..], o)
  }

  /** Reference sum of the durations of `ts`. */
  function SumDurations(ts: seq<TestResult>): real {
    if ts == [] then 0.0 else ts[0].duration + SumDurations(ts[1..])
  }

  /** The accumulator counts every test once, each in the bucket its status
      selects, and sums every duration. */
  lemma {:induction false} AccOfCounts(ts: seq<TestResult>)
    ensures AccOf(ts).total == |ts|
    ensures AccOf(ts).passed == CountOf(ts, Passed)
    ensures AccOf(ts).failed == CountOf(ts, Failed)
    ensures AccOf(ts).skipped == CountOf(ts, Skipped)
    ensures AccOf(ts).duration == SumDurations(ts)
  {
    if ts != [] {
      assert ts == [ts[0]] + ts[1..];
      AccOfAppend([ts[0]], ts[1..]);
      assert [ts[0]][..0] == [];
      AccOfCounts(ts[1..]);
    }
  }

  /** Passed, failed and skipped partition the total. */
  lemma {:induction false} AccOfPartition(ts: seq<TestResult>)
    ensures AccOf(ts).passed + AccOf(ts).failed + AccOf(ts).skipped == AccOf(ts).total == |ts|
  {
    if ts != [] {
      AccOfPartition(ts[..|ts| - 1]);
    }
  }

  /** Zero-guarded average: `sum / count`, or 0.0 when there is nothing to average. */
  function Average(sum: real, count: nat): (r: real)
    ensures count == 0 ==> r == 0.0
    ensures count > 0 ==> r * (count as real) == sum
  {
    if count > 0 then sum / count as real else 0.0
  }

  /** Zero-guarded pass rate: `passed / total * 100`, or 0.0 when total is 0;
      a percentage whenever passed does not exceed total. */
  function PassRate(passed: nat, total: nat): (r: real)
    ensures total == 0 ==> r == 0.0
    ensures total > 0 ==> r * (total as real) == (passed as real) * 100.0
    ensures passed <= total ==> 0.0 <= r <= 100.0
  {
    if total > 0 then (passed as real) / (total as real) * 100.0 else 0.0
  }

  /** The summary row made from one DUT's running totals. */
  function Finalize(dut: string, a: Acc): (r: PerDutSummary)
    ensures r.dut == dut && r.total == a.total && r.totalDuration == a.duration
    ensures r.passed == a.passed && r.failed == a.failed && r.skipped == a.skipped
    ensures r.avgDuration == Average(a.duration, a.total) && r.passRate == PassRate(a.passed, a.total)
  {
    PerDutSummary(dut, a.total, a.passed, a.failed, a.skipped, a.duration,
                  Average(a.duration, a.total), PassRate(a.passed, a.total))
  }

  /** The DUTs of any session. */
  function Duts(ss: seq<TestSession>): set<string> {
    set s | s in ss :: s.dut
  }

  /** The tests of all sessions run against `dut`, in input order. */
  function TestsOf(ss: seq<TestSession>, dut: string): seq<TestResult> {
    if ss == [] then []
    else TestsOf(ss[..|ss| - 1], dut) + (if ss[|ss| - 1].dut == dut then ss[|ss| - 1].tests else [])
  }

  /** The tests of all sessions, session by session. */
  function AllTests(ss: seq<TestSession>): seq<TestResult> {
    if ss == [] then [] else AllTests(ss[..|ss| - 1]) + ss[|ss| - 1].tests
  }

  lemma TestsOfSnoc(ss: seq<TestSession>, s: TestSession, dut: string)
    ensures TestsOf(ss + [s], dut) == TestsOf(ss, dut) + (if s.dut == dut then s.tests else [])
    ensures AllTests(ss + [s]) == AllTests(ss) + s.tests
    ensures Duts(ss + [s]) == Duts(ss) + {s.dut}
  {
    assert (ss + [s])[..|ss|] == ss;
  }

  /** A DUT with no session has no tests. */
  lemma {:induction false} TestsOfAbsent(ss: seq<TestSession>, dut: string)
    requires dut !in Duts(ss)
    ensures TestsOf(ss, dut) == []
  {
    if ss != [] {
      var ss' := ss[..|ss| - 1];
      assert ss == ss' + [ss[|ss| - 1]];
      TestsOfSnoc(ss', ss[|ss| - 1], dut);
      TestsOfAbsent(ss', dut);
    }
  }

  /** The DUTs of `ss` in the order a dictionary keyed by DUT first receives
      them: a DUT joins the end when its first session comes. */
  function FirstSeen(ss: seq<TestSession>): seq<string> {
    if ss == [] then []
    else
      var ks := FirstSeen(ss[..|ss| - 1]);
      if ss[|ss| - 1].dut in ks then ks else ks + [ss[|ss| - 1].dut]
  }

  lemma FirstSeenSnoc(ss: seq<TestSession>, s: TestSession)
    ensures FirstSeen(ss + [s]) == if s.dut in FirstSeen(ss) then FirstSeen(ss) else FirstSeen(ss) + [s.dut]
  {
    assert (ss + [s])[..|ss|] == ss;
  }

  /** The first-seen order lists every DUT of a session, and each once. */
  lemma {:induction false} FirstSeenKeys(ss: seq<TestSession>)
    ensures forall d :: d in FirstSeen(ss) <==> d in Duts(ss)
    ensures Distinct(FirstSeen(ss))
  {
    if ss != [] {
      var ss', s := ss[..|ss| - 1], ss[|ss| - 1];
      assert ss == ss' + [s];
      FirstSeenKeys(ss');
      FirstSeenSnoc(ss', s);
      TestsOfSnoc(ss', s, s.dut);
      if s.dut !in FirstSeen(ss') {
        DistinctSnoc(FirstSeen(ss'), s.dut);
      }
    }
  }

  /** Of two DUTs in first-seen order, the earlier one has a session before
      any session of the later one. */
  lemma {:induction false} FirstSeenOrder(ss: seq<TestSession>, a: nat, b: nat)
    requires a < b < |FirstSeen(ss)|
    ensures exists j :: 0 <= j < |ss| && ss[j].dut == FirstSeen(ss)[a]
                        && forall i :: 0 <= i <= j ==> ss[i].dut != FirstSeen(ss)[b]
  {
    var ss', s := ss[..|ss| - 1], ss[|ss| - 1];
    assert ss == ss' + [s];
    FirstSeenSnoc(ss', s);
    var ks := FirstSeen(ss');
    if b < |ks| {
      FirstSeenOrder(ss', a, b);
      var j :| 0 <= j < |ss'| && ss'[j].dut == ks[a] && forall i :: 0 <= i <= j ==> ss'[i].dut != ks[b];
      assert ss[j] == ss'[j];
      assert forall i :: 0 <= i <= j ==> ss[i] == ss'[i];
    } else {
      FirstSeenKeys(ss');
      assert ks[a] in Duts(ss');
      var t :| t in ss' && t.dut == ks[a];
      var j :| 0 <= j < |ss'| && ss'[j] == t;
      forall i | 0 <= i <= j ensures ss[i].dut != FirstSeen(ss)[b] {
        assert ss[i] == ss'[i] && ss'[i] in ss';
      }
    }
  }

  /** The row the DUT `dut` must receive. */
  function SummaryOf(ss: seq<TestSession>, dut: string): (r: PerDutSummary)
    ensures r.dut == dut
  {
    Finalize(dut, AccOf(TestsOf(ss, dut)))
  }

  /** What every row promises: the partition, the counts over the DUT's own
      tests, a percentage pass rate, and all zeros for a DUT without tests. */
  lemma SummaryOfFacts(ss: seq<TestSession>, dut: string)
    ensures var r := SummaryOf(ss, dut);
      && r.dut == dut
      && r.passed + r.failed + r.skipped == r.total == |TestsOf(ss, dut)|
      && r.passed == CountOf(TestsOf(ss, dut), Passed)
      && r.failed == CountOf(TestsOf(ss, dut), Failed)
      && r.skipped == CountOf(TestsOf(ss, dut), Skipped)
      && r.totalDuration == SumDurations(TestsOf(ss, dut))
      && 0.0 <= r.passRate <= 100.0
      && (r.total == 0 ==> r.avgDuration == 0.0 && r.passRate == 0.0)
  {
    AccOfPartition(TestsOf(ss, dut));
    AccOfCounts(TestsOf(ss, dut));
  }

  /** Rows strictly ascending by DUT: sorted and free of duplicates. */
  predicate RowsSorted(rows: seq<PerDutSummary>) {
    forall i, j :: 0 <= i < j < |rows| ==> Less(rows[i].dut, rows[j].dut)
  }

  function DutsOf(rows: seq<PerDutSummary>): set<string> {
    set r | r in rows :: r.dut
  }

  /** The per-DUT report of `ss`: one row per DUT of any session and no
      other, strictly ascending by DUT, each row the DUT's summary. */
  ghost predicate IsPerDutReport(ss: seq<TestSession>, rows: seq<PerDutSummary>) {
    && RowsSorted(rows)
    && DutsOf(rows) == Duts(ss)
    && forall k :: 0 <= k < |rows| ==> rows[k] == SummaryOf(ss, rows[k].dut)
  }

  /** A DUT seen only in sessions without tests still has a row, all zeros;
      a DUT of no session has none. */
  lemma ReportRowOfIdleDut(ss: seq<TestSession>, rows: seq<PerDutSummary>, dut: string)
    requires IsPerDutReport(ss, rows)
    ensures dut in Duts(ss) && TestsOf(ss, dut) == [] ==>
      exists k :: 0 <= k < |rows| && rows[k] == PerDutSummary(dut, 0, 0, 0, 0, 0.0, 0.0, 0.0)
    ensures dut !in Duts(ss) ==> forall k :: 0 <= k < |rows| ==> rows[k].dut != dut
  {
    if dut in Duts(ss) && TestsOf(ss, dut) == [] {
      var r :| r in rows && r.dut == dut;
      var k :| 0 <= k < |rows| && rows[k] == r;
      SummaryOfFacts(ss, dut);
    }
  }

  lemma DutsOfEmpty(rows: seq<PerDutSummary>)
    ensures DutsOf(rows) == {} <==> rows == []
  {
    if rows != [] { assert rows[0].dut in DutsOf(rows); }
  }

  /** Keys of strictly sorted rows, in order. */
  function Keys(rows: seq<PerDutSummary>): (ks: seq<string>)
    ensures |ks| == |rows| && forall k :: 0 <= k < |rows| ==> ks[k] == rows[k].dut
  {
    if rows == [] then [] else [rows[0].dut] + Keys(rows[1..])
  }

  /** Two strictly sorted rows lists with the same DUTs have the same keys. */
  lemma {:induction false} SortedKeysUnique(a: seq<PerDutSummary>, b: seq<PerDutSummary>)
    requires RowsSorted(a) && RowsSorted(b) && DutsOf(a) == DutsOf(b)
    ensures Keys(a) == Keys(b)
  {
    if a == [] {
      DutsOfEmpty(b);
    } else {
      assert a[0].dut in DutsOf(b);
      assert b != [];
      assert b[0].dut in DutsOf(a);
      var i :| 0 <= i < |b| && b[i].dut == a[0].dut;
      var j :| 0 <= j < |a| && a[j].dut == b[0].dut;
      if i != 0 {
        // b[0] sorts before b[i] == a[0], and a[0] sorts before a[j] == b[0]
        assert Less(b[0].dut, a[0].dut);
        if j == 0 { LessIrreflexive(a[0].dut); } else { LessAsymmetric(b[0].dut, a[0].dut); }
        assert false;
      }
      assert a[0].dut == b[0].dut;
      assert DutsOf(a[1..]) == DutsOf(b[1..]) by {
        forall r | r in a[1..] ensures r.dut != a[0].dut { LessIrreflexive(r.dut); }
        forall r | r in b[1..] ensures r.dut != b[0].dut { LessIrreflexive(r.dut); }
        assert a == [a[0]] + a[1..] && b == [b[0]] + b[1..];
        assert DutsOf(a) == {a[0].dut} + DutsOf(a[1..]);
        assert DutsOf(b) == {b[0].dut} + DutsOf(b[1..]);
      }
      SortedKeysUnique(a[1..], b[1..]);
    }
  }

  /** The per-DUT report is uniquely determined by the sessions. */
  lemma PerDutReportUnique(ss: seq<TestSession>, a: seq<PerDutSummary>, b: seq<PerDutSummary>)
    requires IsPerDutReport(ss, a) && IsPerDutReport(ss, b)
    ensures a == b
  {
    SortedKeysUnique(a, b);
    assert |a| == |Keys(a)| == |Keys(b)| == |b|;
    forall k | 0 <= k < |a| ensures a[k] == b[k] {
      assert Keys(a)[k] == Keys(b)[k];
    }
  }

  /** The running totals a summary row was made from. */
  function RowAcc(r: PerDutSummary): Acc {
    Acc(r.total, r.passed, r.failed, r.skipped, r.totalDuration)
  }

  /** Field-wise sums over the rows, as the overall summary computes them. */
  function Totals(rows: seq<PerDutSummary>): Acc {
    if rows == [] then Zero else Merge(RowAcc(rows[0]), Totals(rows[1..]))
  }

  /** No key occurs twice. */
  predicate Distinct<K(==)>(ks: seq<K>) {
    ks == [] || (ks[0] !in ks[1..] && Distinct(ks[1..]))
  }

  /** Appending a key not yet present keeps the keys distinct. */
  lemma {:induction false} DistinctSnoc<K>(ks: seq<K>, x: K)
    requires Distinct(ks) && x !in ks
    ensures Distinct(ks + [x])
  {
    if ks != [] {
      assert (ks + [x])[1..] == ks[1..] + [x];
      DistinctSnoc(ks[1..], x);
    }
  }

  /** Distinct keys differ position by position. */
  lemma {:induction false} DistinctAt<K>(ks: seq<K>)
    requires Distinct(ks)
    ensures forall i, j :: 0 <= i < j < |ks| ==> ks[i] != ks[j]
  {
    if ks != [] {
      DistinctAt(ks[1..]);
      forall i, j | 0 <= i < j < |ks| ensures ks[i] != ks[j] {
        if i == 0 {
          assert ks[j] == ks[1..][j - 1];
        } else {
          assert ks[i] == ks[1..][i - 1] && ks[j] == ks[1..][j - 1];
        }
      }
    }
  }

  /** Strictly sorted rows never repeat a DUT. */
  lemma {:induction false} SortedKeysDistinct(rows: seq<PerDutSummary>)
    requires RowsSorted(rows)
    ensures Distinct(Keys(rows))
  {
    if rows != [] {
      assert Keys(rows)[1..] == Keys(rows[1..]);
      forall k | 0 <= k < |rows| - 1 ensures Keys(rows[1..])[k] != rows[0].dut {
        LessIrreflexive(rows[0].dut);
      }
      SortedKeysDistinct(rows[1..]);
    }
  }

  /** The running totals of every DUT, as a function of the DUT. */
  function DutAccs(ss: seq<TestSession>): string -> Acc {
    dut => AccOf(TestsOf(ss, dut))
  }

  /** `f` summed over the keys `ks`. */
  function SumOf<K>(ks: seq<K>, f: K -> Acc): Acc {
    if ks == [] then Zero else Merge(f(ks[0]), SumOf(ks[1..], f))
  }

  lemma {:induction false} TotalsIsSumOf(ss: seq<TestSession>, rows: seq<PerDutSummary>)
    requires forall k :: 0 <= k < |rows| ==> rows[k] == SummaryOf(ss, rows[k].dut)
    ensures Totals(rows) == SumOf(Keys(rows), DutAccs(ss))
  {
    if rows != [] {
      assert Keys(rows)[1..] == Keys(rows[1..]);
      TotalsIsSumOf(ss, rows[1..]);
    }
  }

  lemma {:induction false} SumOfZero<K>(ks: seq<K>, f: K -> Acc)
    requires forall k :: f(k) == Zero
    ensures SumOf(ks, f) == Zero
  {
    if ks != [] {
      SumOfZero(ks[1..], f);
      assert f(ks[0]) == Zero;
      assert SumOf(ks[1..], f) == Zero;
      MergeZero(Zero);
    }
  }

  lemma MergeZero(a: Acc)
    ensures Merge(a, Zero) == a && Merge(Zero, a) == a
  {
  }

  /** Raising `f` by `t` at the single key `d` raises its sum over distinct
      keys by `t` when `d` is among them, and leaves it alone otherwise. */
  lemma {:induction false} SumOfBump<K>(ks: seq<K>, f: K -> Acc, g: K -> Acc, d: K, t: Acc)
    requires Distinct(ks)
    requires forall k :: g(k) == Merge(f(k), if k == d then t else Zero)
    ensures SumOf(ks, g) == Merge(SumOf(ks, f), if d in ks then t else Zero)
  {
    if ks == [] {
      MergeZero(Zero);
    } else {
      SumOfBump(ks[1..], f, g, d, t);
      SumOfBumpStep(ks, f, g, d, t);
    }
  }

  lemma SumOfBumpStep<K>(ks: seq<K>, f: K -> Acc, g: K -> Acc, d: K, t: Acc)
    requires ks != [] && Distinct(ks)
    requires g(ks[0]) == Merge(f(ks[0]), if ks[0] == d then t else Zero)
    requires SumOf(ks[1..], g) == Merge(SumOf(ks[1..], f), if d in ks[1..] then t else Zero)
    ensures SumOf(ks, g) == Merge(SumOf(ks, f), if d in ks then t else Zero)
  {
    var a, b := f(ks[0]), SumOf(ks[1..], f);
    assert SumOf(ks, g) == Merge(g(ks[0]), SumOf(ks[1..], g));
    assert SumOf(ks, f) == Merge(a, b);
    InHeadOrTail(ks, d);
    if d == ks[0] {
      assert d !in ks[1..];
      Regroup(SumOf(ks, g), SumOf(ks, f), a, b, t, Zero, t);
    } else if d in ks[1..] {
      Regroup(SumOf(ks, g), SumOf(ks, f), a, b, Zero, t, t);
    } else {
      Regroup(SumOf(ks, g), SumOf(ks, f), a, b, Zero, Zero, Zero);
    }
  }

  lemma Regroup(lhs: Acc, sum: Acc, a: Acc, b: Acc, x: Acc, y: Acc, e: Acc)
    requires lhs == Merge(Merge(a, x), Merge(b, y))
    requires sum == Merge(a, b)
    requires (x == Zero && y == e) || (y == Zero && x == e)
    ensures lhs == Merge(sum, e)
  {
  }

  lemma InHeadOrTail<K>(ks: seq<K>, d: K)
    requires ks != []
    ensures d in ks <==> d == ks[0] || d in ks[1..]
  {
    if d in ks {
      var i :| 0 <= i < |ks| && ks[i] == d;
      if i > 0 { assert ks[1..][i - 1] == d; }
    }
    if d in ks[1..] {
      var i :| 0 <= i < |ks| - 1 && ks[1..][i] == d;
      assert ks[i + 1] == d;
    }
  }

  /** One more session adds its tests to its own DUT's running totals and
      leaves every other DUT's alone. */
  lemma DutAccSnoc(ss: seq<TestSession>, s: TestSession, dut: string)
    ensures AccOf(TestsOf(ss + [s], dut)) == Merge(AccOf(TestsOf(ss, dut)), if s.dut == dut then AccOf(s.tests) else Zero)
  {
    TestsOfSnoc(ss, s, dut);
    AccOfAppend(TestsOf(ss, dut), if s.dut == dut then s.tests else []);
    assert AccOf([]) == Zero;
  }

  /** Summing the running totals of distinct DUTs that cover every session
      gives the running totals of all tests. */
  lemma {:induction false} SumOfAll(ks: seq<string>, ss: seq<TestSession>)
    requires Distinct(ks)
    requires forall d :: d in Duts(ss) ==> d in ks
    ensures SumOf(ks, DutAccs(ss)) == AccOf(AllTests(ss))
  {
    if ss == [] {
      SumOfZero(ks, DutAccs(ss));
    } else {
      var ss', s := ss[..|ss| - 1], ss[|ss| - 1];
      assert ss == ss' + [s];
      TestsOfSnoc(ss', s, s.dut);
      SumOfAll(ks, ss');
      SumOfSnoc(ks, ss', s);
      AccOfAppend(AllTests(ss'), s.tests);
    }
  }

  /** One more session adds its totals to the sum over distinct DUTs that
      include its own. */
  lemma {:induction false} SumOfSnoc(ks: seq<string>, ss: seq<TestSession>, s: TestSession)
    requires Distinct(ks) && s.dut in ks
    ensures SumOf(ks, DutAccs(ss + [s])) == Merge(SumOf(ks, DutAccs(ss)), AccOf(s.tests))
  {
    forall k ensures DutAccs(ss + [s])(k) == Merge(DutAccs(ss)(k), if k == s.dut then AccOf(s.tests) else Zero) {
      DutAccSnoc(ss, s, k);
    }
    SumOfBump(ks, DutAccs(ss), DutAccs(ss + [s]), s.dut, AccOf(s.tests));
  }

  /** Summing the rows of the per-DUT report gives the running totals of all
      tests: the overall figures agree with a direct pass over every test. */
  lemma TotalsOfReport(ss: seq<TestSession>, rows: seq<PerDutSummary>)
    requires IsPerDutReport(ss, rows)
    ensures Totals(rows) == AccOf(AllTests(ss))
  {
    TotalsIsSumOf(ss, rows);
    SortedKeysDistinct(rows);
    forall d | d in Duts(ss) ensures d in Keys(rows) {
      var r :| r in rows && r.dut == d;
      var k :| 0 <= k < |rows| && rows[k] == r;
      assert Keys(rows)[k] == d;
    }
    SumOfAll(Keys(rows), ss);
  }

  /** The overall figures of a per-DUT report, stated against a direct pass
      over every test of every session. */
  lemma OverallTotals(ss: seq<TestSession>, rows: seq<PerDutSummary>)
    requires IsPerDutReport(ss, rows)
    ensures var t := Totals(rows);
      && t.total == |AllTests(ss)|
      && t.passed == CountOf(AllTests(ss), Passed)
      && t.failed == CountOf(AllTests(ss), Failed)
      && t.skipped == CountOf(AllTests(ss), Skipped)
      && t.duration == SumDurations(AllTests(ss))
      && t.passed + t.failed + t.skipped == t.total
  {
    TotalsOfReport(ss, rows);
    AccOfCounts(AllTests(ss));
    AccOfPartition(AllTests(ss));
  }

  /** The `{dut: total}` dictionary built from the rows in order: a later row
      for the same DUT overwrites an earlier one. */
  function TestsPerDut(rows: seq<PerDutSummary>): (m: map<string, nat>)
    ensures m.Keys == DutsOf(rows)
  {
    if rows == [] then map[]
    else
      var last := rows[|rows| - 1];
      assert DutsOf(rows) == DutsOf(rows[..|rows| - 1]) + {last.dut};
      TestsPerDut(rows[..|rows| - 1])[last.dut := last.total]
  }

  /** A row whose DUT no later row repeats keeps its total in the dictionary. */
  lemma {:induction false} TestsPerDutLastWins(rows: seq<PerDutSummary>, k: nat)
    requires k < |rows| && forall l :: k < l < |rows| ==> rows[l].dut != rows[k].dut
    ensures TestsPerDut(rows)[rows[k].dut] == rows[k].total
  {
    if k < |rows| - 1 {
      var init := rows[..|rows| - 1];
      TestsPerDutLastWins(init, k);
      assert TestsPerDut(rows) == TestsPerDut(init)[rows[|rows| - 1].dut := rows[|rows| - 1].total];
    }
  }

  /** For a per-DUT report the dictionary counts each DUT's tests. */
  lemma TestsPerDutOfReport(ss: seq<TestSession>, rows: seq<PerDutSummary>)
    requires IsPerDutReport(ss, rows)
    ensures TestsPerDut(rows).Keys == Duts(ss)
    ensures forall d :: d in TestsPerDut(rows) ==> TestsPerDut(rows)[d] == |TestsOf(ss, d)|
  {
    var m := TestsPerDut(rows);
    SortedKeysDistinct(rows);
    DistinctAt(Keys(rows));
    forall d | d in m ensures m[d] == |TestsOf(ss, d)| {
      var r :| r in rows && r.dut == d;
      var k :| 0 <= k < |rows| && rows[k] == r;
      forall l | k < l < |rows| ensures rows[l].dut != rows[k].dut {
        assert Keys(rows)[k] != Keys(rows)[l];
      }
      TestsPerDutLastWins(rows, k);
      SummaryOfFacts(ss, d);
    }
  }

  /** The distinct test names of all sessions, compared exactly. */
  function NameSet(ss: seq<TestSession>): set<string> {
    set s, t | s in ss && t in s.tests :: t.name
  }

  lemma {:induction false} NamesOfAllTests(ss: seq<TestSession>)
    ensures NameSet(ss) == set t | t in AllTests(ss) :: t.name
  {
    if ss != [] {
      var ss', s := ss[..|ss| - 1], ss[|ss| - 1];
      assert ss == ss' + [s];
      NamesOfAllTests(ss');
      TestsOfSnoc(ss', s, s.dut);
      assert NameSet(ss) == NameSet(ss') + set t | t in s.tests :: t.name;
    }
  }

  lemma {:induction false} ImageAtMostLength(ts: seq<TestResult>)
    ensures |set t | t in ts :: t.name| <= |ts|
  {
    if ts != [] {
      var ts', t := ts[..|ts| - 1], ts[|ts| - 1];
      assert ts == ts' + [t];
      ImageAtMostLength(ts');
      assert (set u | u in ts :: u.name) == (set u | u in ts' :: u.name) + {t.name};
    }
  }

  /** There are never more distinct names than tests. */
  lemma NamesAtMostTests(ss: seq<TestSession>)
    ensures |NameSet(ss)| <= |AllTests(ss)|
  {
    NamesOfAllTests(ss);
    ImageAtMostLength(AllTests(ss));
  }

  /** Two sessions run "login" and one runs "logout": two distinct names. */
  lemma UniqueNamesExample()
    ensures |NameSet([TestSession("a", "1", [TestResult("login", "passed", 1.0)]),
                      TestSession("b", "2", [TestResult("login", "failed", 2.0)]),
                      TestSession("b", "3", [TestResult("logout", "passed", 0.5)])])| == 2
  {
    var ss := [TestSession("a", "1", [TestResult("login", "passed", 1.0)]),
               TestSession("b", "2", [TestResult("login", "failed", 2.0)]),
               TestSession("b", "3", [TestResult("logout", "passed", 0.5)])];
    assert NameSet(ss) == {"login", "logout"} by {
      assert ss[0].tests[0].name == "login";
      assert ss[2].tests[0].name == "logout";
    }
    assert "login" != "logout" by { assert "login"[3] != "logout"[3]; }
  }
}
