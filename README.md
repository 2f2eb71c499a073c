# Test-report aggregation, modelled in Dafny

The system reads pytest-style test sessions, one per run of a device under
test (DUT), and aggregates them. Each session carries a DUT name, a session
id and a list of test results (name, status, duration). The aggregation
engine produces three things:

- one summary row per DUT, sorted by DUT name: test count, passed / failed /
  skipped counts, duration sum, average duration and pass rate;
- an overall summary whose figures are the sums of the per-DUT rows;
- extra metrics: the five slowest tests, the test count of each DUT and the
  number of distinct test names.

The model follows the source module by module:

- `Models.dfy`: the record shapes, as datatypes.
- `Strings.dfy`: ASCII lower-casing and the lexicographic order used to sort
  by DUT name.
- `Stats.dfy`: status classification, the running-totals record kept per DUT,
  the zero-guarded ratios, and the specification of the per-DUT report and of
  the overall figures, with the lemmas about them.
- `Ranking.dfy`: the specification of the slowest-tests metric, as a stable
  descending sort of the flattened tests followed by a prefix.
- `Aggregator.dfy`: the three aggregation functions as methods. The loops of
  `aggregate_per_dut` and `_get_slowest_tests` become `for` and `while` loops
  with invariants. `aggregate_overall` has no loop of its own: its `sum(...)`
  calls and comprehensions become calls to recursive functions. Each method is
  proved against the specifications above.
- `Parser.dfy`: the defaulting loop that turns decoded records into sessions.
- `Examples.dfy`: small concrete inputs (two boards; seven tests with tied
  durations) and their exact results, proved against the specifications.

Durations and rates are exact `real`s and counts are `nat`s.

## Model

| member | source | states |
|---|---|---|
| Strings.Lower | src/aggregator.py:37 | lower-casing keeps the length; each character is mapped by `LowerChar` (`Strings.LowerAt`) |
| Strings.LowerIdempotent | src/parser.py:25 | lower-casing twice equals lower-casing once |
| Strings.LowerIsLower | src/parser.py:25 | the result of lower-casing has no upper-case letter |
| Strings.LowerOfLower | src/aggregator.py:37 | a string without upper-case letters is left unchanged by lower-casing |
| Strings.LessIrreflexive | src/aggregator.py:66 | no DUT name sorts before itself |
| Strings.LessTransitive | src/aggregator.py:66 | the name order is transitive |
| Strings.LessTotal | src/aggregator.py:66 | of two different names, one sorts first |
| Strings.LessAsymmetric | src/aggregator.py:66 | two names never sort before each other |
| Stats.Classify | src/aggregator.py:37-43 | a test counts as passed iff its lower-cased status is "passed", as failed iff it is "failed", and as skipped in every other case |
| Stats.ClassifyIgnoresCase | src/aggregator.py:37 | classifying a lower-cased status gives the same bucket as the raw status |
| Stats.ClassifyMixedCase | src/aggregator.py:37-41 | "PASSED" counts as passed and "Failed" as failed |
| Stats.ClassifyCatchAll | src/aggregator.py:42-43 | "SKIPPED", "blocked" and "" all count as skipped |
| Stats.Add | src/aggregator.py:33-43 | one test adds 1 to the total, its duration to the duration sum, and 1 to exactly the bucket `Classify` names |
| Stats.AccOf | src/aggregator.py:33-43 | the running totals of a list of tests: one `Add` per test, in order; `AccOfCounts` and `AccOfPartition` give its values |
| Stats.AccOfSnoc | src/aggregator.py:33 | the running totals after one more test are the totals so far plus that test |
| Stats.AccOfAppend | src/aggregator.py:22-33 | the totals of two runs of tests, one after the other, are the field-wise sum of their totals |
| Stats.AccOfCounts | src/aggregator.py:33-43 | the running totals equal the number of tests, the count of each bucket and the sum of durations |
| Stats.AccOfPartition | src/aggregator.py:33-43 | passed + failed + skipped == total == number of tests |
| Stats.Average | src/aggregator.py:49 | the average is 0.0 when there are no tests, and otherwise multiplies back to the duration sum |
| Stats.PassRate | src/aggregator.py:50 | the pass rate is 0.0 with no tests, otherwise `rate * total == passed * 100`, and it lies in [0, 100] when passed <= total |
| Stats.Finalize | src/aggregator.py:46-63 | the row copies the DUT's counts and duration sum and carries the zero-guarded average and pass rate |
| Stats.TestsOfSnoc | src/aggregator.py:22-33 | one more session adds its tests to its own DUT only, and its DUT to the set of DUTs |
| Stats.TestsOfAbsent | src/aggregator.py:22-24 | a DUT of no session has no tests |
| Stats.FirstSeen | src/aggregator.py:20-32 | the DUTs in the order the dictionary first receives them, which is the order it iterates them; `FirstSeenKeys` and `FirstSeenOrder` characterise it |
| Stats.FirstSeenKeys | src/aggregator.py:20-32 | the first-seen order holds exactly the DUTs of the sessions, each once |
| Stats.FirstSeenOrder | src/aggregator.py:20-32 | of two DUTs in first-seen order, the earlier one has a session before any session of the later one |
| Stats.SummaryOfFacts | src/aggregator.py:33-63 | each DUT's row is the partition of its tests, with per-bucket counts, the duration sum, a pass rate in [0, 100], and zero average and rate when it has no tests |
| Stats.ReportRowOfIdleDut | src/aggregator.py:22-32 | a DUT whose sessions have no tests still has a row of zeros; a DUT of no session has no row |
| Stats.DutsOfEmpty | src/aggregator.py:45-67 | a report has no DUTs exactly when it has no rows |
| Stats.SortedKeysUnique | src/aggregator.py:66 | two strictly sorted row lists with the same DUTs list them in the same order |
| Stats.PerDutReportUnique | src/aggregator.py:14-67 | the per-DUT report of a list of sessions is unique |
| Stats.SortedKeysDistinct | src/aggregator.py:66 | sorted rows hold no DUT twice |
| Stats.TotalsIsSumOf | src/aggregator.py:106-110 | summing the rows field by field is summing each DUT's totals over the DUTs in row order |
| Stats.Totals | src/aggregator.py:106-110 | the field-wise sums over the rows, as the five `sum(...)` calls compute them; `TotalsOfReport` and `OverallTotals` give their values |
| Stats.SumOfBump | src/aggregator.py:33-43 | adding tests to one DUT adds their totals to the sum over distinct DUTs |
| Stats.SumOfSnoc | src/aggregator.py:22-43 | one more session adds its tests' totals to the sum over distinct DUTs that include its own |
| Stats.SumOfAll | src/aggregator.py:22-43 | the sum over any distinct list covering every DUT equals the totals of all tests |
| Stats.TotalsOfReport | src/aggregator.py:104-110 | the field-wise sum of the per-DUT rows equals the totals of every test of every session |
| Stats.OverallTotals | src/aggregator.py:106-110 | the summed figures are the number of tests, the count of each bucket and the duration sum of all tests, and form a partition |
| Stats.TestsPerDut | src/aggregator.py:116 | the dictionary has exactly the DUTs of the rows as keys |
| Stats.TestsPerDutLastWins | src/aggregator.py:116 | a row whose DUT no later row repeats keeps its total in the dictionary |
| Stats.TestsPerDutOfReport | src/aggregator.py:116 | for a per-DUT report the dictionary maps exactly the DUTs of the sessions, each to its number of tests |
| Stats.NamesOfAllTests | src/aggregator.py:117 | the names taken session by session are the names of all tests |
| Stats.NameSet | src/aggregator.py:117 | the set of test names over every test of every session; `NamesAtMostTests` bounds its size |
| Stats.NamesAtMostTests | src/aggregator.py:117 | there are never more distinct names than tests |
| Stats.UniqueNamesExample | src/aggregator.py:117 | "login" twice and "logout" once give two distinct names |
| Ranking.FlattenMatchesAllTests | src/aggregator.py:79-82 | flattening keeps every test, in session-then-test order |
| Ranking.Flatten | src/aggregator.py:79-82 | the `(dut, session_id, test)` triples, session by session; `FlattenMatchesAllTests` and `FlattenTags` characterise it |
| Ranking.FlattenTags | src/aggregator.py:79-82 | each flattened entry carries the DUT and session id of a session whose tests include it |
| Ranking.Entry | src/aggregator.py:88-95 | an entry carries the test's name, status and duration and its session's DUT and id |
| Ranking.InsertKeepsStable | src/aggregator.py:84 | inserting the next element after every element at least as slow keeps a stable descending sort |
| Ranking.PrefixIsSlowest | src/aggregator.py:84-87 | the first `min(n, count)` entries of a stable descending sort are the `n` slowest tests |
| Ranking.PrefixOrdered | src/aggregator.py:84-87 | the first places of a stable descending sort are distinct tests, slowest first, ties in input order |
| Ranking.PrefixLeavesSlower | src/aggregator.py:84-87 | a test outside the first places is no slower than any of them, and on a tie it comes later |
| Ranking.PickIsFirstRemaining | src/aggregator.py:84-87 | each pick is slower than, or as slow as and earlier than, every test not picked before it |
| Ranking.SlowestPrefixAgrees | src/aggregator.py:84-87 | two slowest-tests selections of the same tests agree on every prefix of their picks |
| Ranking.SlowestIsUnique | src/aggregator.py:79-97 | the slowest-tests list is determined by the sessions alone, ties included |
| Aggregator.SortByDut | src/aggregator.py:66 | the rows come out strictly ascending by DUT, with the same rows |
| Aggregator.AddTests | src/aggregator.py:33-43 | the DUT's entry becomes the totals of its earlier tests followed by the session's tests; no other entry changes |
| Aggregator.SetDefault | src/aggregator.py:23-32 | a new DUT gets zero totals and is appended at the end of the key order; an existing DUT keeps its totals and leaves the order as it was; the order still lists each key once |
| Aggregator.AddSession | src/aggregator.py:22-43 | after one more session the map again holds exactly the DUTs seen so far, each with the totals of its tests, and the key order is their first-seen order |
| Aggregator.AccumulatePerDut | src/aggregator.py:20-43 | the map holds exactly the DUTs of the sessions, each with the totals of its tests; the key order is the first-seen order (`Stats.FirstSeen`), listing each key once |
| Aggregator.FinalizeRows | src/aggregator.py:45-63 | one row per key, in key order, each the summary of that DUT's tests |
| Aggregator.SortedRowsAreReport | src/aggregator.py:45-67 | the rows of every DUT, once sorted by name, form the per-DUT report, each row a partition with a pass rate in [0, 100] |
| Aggregator.AggregatePerDut | src/aggregator.py:14-67 | the result is the per-DUT report: strictly sorted, one row per DUT, each row its DUT's summary, each a partition with a pass rate in [0, 100] |
| Aggregator.FindInsertionPoint | src/aggregator.py:84 | the position follows every test at least as slow as the new one and precedes the first faster one |
| Aggregator.SortByDurationDescending | src/aggregator.py:84 | the output is a stable sort of the input by descending duration |
| Aggregator.GetSlowestTests | src/aggregator.py:79-97 | the result is the `top_n` slowest tests of the flattened sessions, in stable descending order |
| Aggregator.AggregateOverall | src/aggregator.py:100-135 | the per-DUT report is kept; the overall figures are the row sums and the counts and duration sum of all tests; average and rate are zero-guarded and the rate is in [0, 100]; empty input gives all zeros; the five slowest, the tests per DUT and the distinct-name count are as specified |
| Parser.LoadSessions | src/parser.py:20-35 | one session per record, in order; each test in order; missing name "unknown", status "skipped", duration 0.0, dut "unknown", session id "", tests empty; every status lower-cased |
| Parser.LoadTests | src/parser.py:22-27 | one test per record, in order; missing name "unknown", status "skipped", duration 0.0; the status lower-cased |
| Parser.LoadedStatus | src/parser.py:25 | a loaded status is lower case and fixed by lower-casing, so it classifies like the raw status; a missing status counts as skipped |
| Parser.LoadsBareTest | src/parser.py:24-26 | a test record with only the status "PASSED" loads as ("unknown", "passed", 0.0) |
| Examples.BoardsExample | src/aggregator.py:14-113 | boardA (1.0s passed, 3.0s failed) and boardB (2.0s passed) give rows (2,1,1,0,4.0,2.0,50.0) and (1,1,0,0,2.0,2.0,100.0) and overall 3 tests, 2 passed, 1 failed, 6.0s, average 2.0, rate 200/3 |
| Examples.TwoDutReport | src/aggregator.py:14-67 | two sessions on DUTs in ascending order give their two summaries in that order |
| Examples.BoardsReport | src/aggregator.py:14-67 | the two-board sessions have the report (boardA: 2,1,1,0,4.0,2.0,50.0) then (boardB: 1,1,0,0,2.0,2.0,100.0) |
| Examples.SlowestOfSeven | src/aggregator.py:84-87 | for durations 5,3,5,1,2,5,4 the five slowest are positions 0,2,5,6,1 |
| Examples.TieExample | src/aggregator.py:79-97 | any slowest-five selection of 5,3,5,1,2,5,4 has durations 5,5,5,4,3 with the 5s in input order |

## Left out

- File reading and JSON decoding (src/parser.py:16-18): the loader takes records already decoded, with each key present or missing.
- The `str()` and `float()` coercions of arbitrary JSON values (src/parser.py:24-26, 31-32). Fields are strings or reals already. `float()` raises on an unparseable string rather than defaulting, and a JSON `null` is kept as a value rather than treated as missing; neither case is modelled.
- Negative durations: the loader (src/parser.py:26) accepts any number and raises on an unparseable string. The model follows that code and keeps any real duration, negative ones included.
- Floating point: durations and rates are exact reals. IEEE rounding, and counting in `1.0` steps followed by `int()`, are not modelled (src/aggregator.py:26-34, 47, 56-58).
- Strings.Lower: maps ASCII `A`-`Z` only. Python's `str.lower()` also lower-cases non-ASCII letters.
- Aggregator.SortByDut: requires the rows to have distinct DUTs. The rows it sorts always come from a dictionary's keys. Python's Timsort is modelled by an insertion sort with the same result on distinct keys.
- Aggregator.SortByDurationDescending: Timsort with `reverse=True` is modelled by a stable insertion sort. Both produce the unique stable descending order (`Ranking.SlowestIsUnique`).
- Aggregator.GetSlowestTests: takes `top_n` as a natural number. A negative `top_n` slices from the end in Python; the only caller passes 5.
- The per-DUT dictionary (src/aggregator.py:20) is a map plus an explicit list of its keys in insertion order, which is the order Python iterates it (src/aggregator.py:46). That order does not affect the sorted output.
- The slowest-test entries are records rather than string-keyed dictionaries (src/aggregator.py:88-95).
- src/main.py (command line and printing), src/report.py (JSON/CSV writing and number formatting) and src/sqlite_exporter.py (database export) are not part of this model.
