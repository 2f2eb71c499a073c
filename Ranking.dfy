/** The specification of the slowest-tests metric: every test flattened
    together with its DUT and session id in session-then-test order, a stable
    sort by descending duration, and the first N entries of it. */
module Ranking {
  import opened Models
  import opened Stats

  /** One test as the flattening step sees it: `(dut, session_id, test)`. */
  datatype Flat = Flat(dut: string, sessionId: string, test: TestResult)

  /** The tests of one session tagged with its DUT and id. */
  function Tag(s: TestSession): seq<Flat> {
    seq(|s.tests|, k requires 0 <= k < |s.tests| => Flat(s.dut, s.sessionId, s.tests[k]))
  }

  /** Every test of every session, session by session, each in session order. */
  function Flatten(ss: seq<TestSession>): seq<Flat> {
    if ss == [] then [] else Flatten(ss[..|ss| - 1]) + Tag(ss[|ss| - 1])
  }

  /** Flattening keeps every test, in the order of AllTests. */
  lemma {:induction false} FlattenMatchesAllTests(ss: seq<TestSession>)
    ensures |Flatten(ss)| == |AllTests(ss)|
    ensures forall j :: 0 <= j < |Flatten(ss)| ==> Flatten(ss)[j].test == AllTests(ss)[j]
  {
    if ss != [] {
      FlattenMatchesAllTests(ss[..|ss| - 1]);
    }
  }

  /** `f` carries the DUT and session id of a session of `ss` whose tests
      include `f`'s test. */
  ghost predicate TaggedFrom(ss: seq<TestSession>, f: Flat) {
    exists i :: 0 <= i < |ss| && f.dut == ss[i].dut && f.sessionId == ss[i].sessionId && f.test in ss[i].tests
  }

  /** Every flattened entry is tagged with the session it came from. */
  lemma {:induction false} FlattenTags(ss: seq<TestSession>)
    ensures forall j :: 0 <= j < |Flatten(ss)| ==> TaggedFrom(ss, Flatten(ss)[j])
  {
    if ss != [] {
      var ss', s := ss[..|ss| - 1], ss[|ss| - 1];
      FlattenTags(ss');
      assert Flatten(ss) == Flatten(ss') + Tag(s);
      forall j | 0 <= j < |Flatten(ss)| ensures TaggedFrom(ss, Flatten(ss)[j]) {
        if j < |Flatten(ss')| {
          var f := Flatten(ss')[j];
          var i :| 0 <= i < |ss'| && f.dut == ss'[i].dut && f.sessionId == ss'[i].sessionId && f.test in ss'[i].tests;
          assert ss[i] == ss'[i] && Flatten(ss)[j] == f;
        } else {
          var k := j - |Flatten(ss')|;
          assert Flatten(ss)[j] == Tag(s)[k] == Flat(s.dut, s.sessionId, s.tests[k]);
          assert s.tests[k] in ss[|ss| - 1].tests;
        }
      }
    }
  }

  /** The entry reported for one flattened test. */
  function Entry(f: Flat): (e: SlowTest)
    ensures e.name == f.test.name && e.status == f.test.status && e.duration == f.test.duration
    ensures e.dut == f.dut && e.sessionId == f.sessionId
  {
    SlowTest(f.test.name, f.dut, f.sessionId, f.test.duration, f.test.status)
  }

  /** `ys` is `xs` sorted by descending duration, stably: `perm[k]` is the
      position in `xs` of `ys[k]`, every position is used exactly once, and
      equal durations keep their order from `xs`. */
  ghost predicate IsStableDescending(xs: seq<Flat>, ys: seq<Flat>, perm: seq<nat>) {
    && |ys| == |xs| && |perm| == |xs|
    && (forall k :: 0 <= k < |perm| ==> perm[k] < |xs| && ys[k] == xs[perm[k]])
    && (forall k, l :: 0 <= k < l < |perm| ==> perm[k] != perm[l])
    && (forall j :: 0 <= j < |xs| ==> j in perm)
    && (forall k, l :: 0 <= k < l < |ys| ==> ys[k].test.duration >= ys[l].test.duration)
    && (forall k, l :: 0 <= k < l < |ys| && ys[k].test.duration == ys[l].test.duration ==> perm[k] < perm[l])
  }

  function Min(a: nat, b: nat): nat {
    if a < b then a else b
  }

  /** `result` is the first `n` entries of the stable descending sort of
      `flat`; `picked[k]` is the position in `flat` of `result[k]`. Every test
      left out is no slower than any test picked, and on a tie it came later. */
  ghost predicate IsSlowest(flat: seq<Flat>, n: nat, result: seq<SlowTest>, picked: seq<nat>) {
    && |result| == Min(n, |flat|) && |picked| == |result|
    && (forall k :: 0 <= k < |result| ==> picked[k] < |flat| && result[k] == Entry(flat[picked[k]]))
    && (forall k, l :: 0 <= k < l < |picked| ==> picked[k] != picked[l])
    && (forall k, l :: 0 <= k < l < |result| ==> result[k].duration >= result[l].duration)
    && (forall k, l :: 0 <= k < l < |result| && result[k].duration == result[l].duration ==> picked[k] < picked[l])
    && (forall j, k :: 0 <= j < |flat| && 0 <= k < |result| && j !in picked ==>
          flat[j].test.duration <= result[k].duration
          && (flat[j].test.duration == result[k].duration ==> picked[k] < j))
  }

  /** `t` is `s` with `x` inserted at position `p`. */
  ghost predicate Spliced<T>(s: seq<T>, p: nat, x: T, t: seq<T>) {
    && p <= |s| && |t| == |s| + 1 && t[p] == x
    && (forall k :: 0 <= k < p ==> t[k] == s[k])
    && (forall k :: p < k < |t| ==> t[k] == s[k - 1])
  }

  lemma SpliceAt<T>(s: seq<T>, p: nat, x: T)
    requires p <= |s|
    ensures Spliced(s, p, x, s[..p] + [x] + s[p..])
  {
  }

  /** What the insertion point satisfies: everything before it is at least as
      slow as `x`, and the element at it, if any, is faster. */
  ghost predicate InsertionPoint(ys: seq<Flat>, p: nat, x: Flat) {
    && p <= |ys|
    && (forall k :: 0 <= k < p ==> ys[k].test.duration >= x.test.duration)
    && (p < |ys| ==> ys[p].test.duration < x.test.duration)
  }

  lemma InsertMapsBack(xs: seq<Flat>, i: nat, ys: seq<Flat>, perm: seq<nat>, p: nat, ys': seq<Flat>, perm': seq<nat>)
    requires i < |xs| && IsStableDescending(xs[..i], ys, perm)
    requires Spliced(ys, p, xs[i], ys') && Spliced(perm, p, i, perm')
    ensures forall k :: 0 <= k < |perm'| ==> perm'[k] < i + 1 && ys'[k] == xs[..i + 1][perm'[k]]
  {
    forall k | 0 <= k < |perm'|
      ensures perm'[k] < i + 1 && ys'[k] == xs[..i + 1][perm'[k]]
    {
      if k < p {
        assert ys[k] == xs[..i][perm[k]];
      } else if p < k {
        assert ys[k - 1] == xs[..i][perm[k - 1]];
      }
    }
  }

  lemma InsertCovers(xs: seq<Flat>, i: nat, ys: seq<Flat>, perm: seq<nat>, p: nat, perm': seq<nat>)
    requires i < |xs| && IsStableDescending(xs[..i], ys, perm)
    requires Spliced(perm, p, i, perm')
    ensures forall j :: 0 <= j < i + 1 ==> j in perm'
    ensures forall k, l :: 0 <= k < l < |perm'| ==> perm'[k] != perm'[l]
  {
    forall j | 0 <= j < i + 1 ensures j in perm' {
      if j < i {
        assert j in perm;
        var k :| 0 <= k < |perm| && perm[k] == j;
        if k < p { assert perm'[k] == j; } else { assert perm'[k + 1] == j; }
      } else {
        assert perm'[p] == j;
      }
    }
    forall k, l | 0 <= k < l < |perm'| ensures perm'[k] != perm'[l] {
      if k < p && l < p {
      } else if k < p && l == p {
      } else if k < p {
        assert perm'[l] == perm[l - 1];
      } else if k == p {
        assert perm'[l] == perm[l - 1];
      } else {
        assert perm'[l] == perm[l - 1] && perm'[k] == perm[k - 1];
      }
    }
  }

  lemma InsertOrdered(xs: seq<Flat>, i: nat, ys: seq<Flat>, perm: seq<nat>, p: nat, ys': seq<Flat>, perm': seq<nat>)
    requires i < |xs| && IsStableDescending(xs[..i], ys, perm)
    requires InsertionPoint(ys, p, xs[i])
    requires Spliced(ys, p, xs[i], ys') && Spliced(perm, p, i, perm')
    ensures forall k, l :: 0 <= k < l < |ys'| ==> ys'[k].test.duration >= ys'[l].test.duration
    ensures forall k, l :: 0 <= k < l < |ys'| && ys'[k].test.duration == ys'[l].test.duration ==> perm'[k] < perm'[l]
  {
    forall k, l | 0 <= k < l < |ys'|
      ensures ys'[k].test.duration >= ys'[l].test.duration
      ensures ys'[k].test.duration == ys'[l].test.duration ==> perm'[k] < perm'[l]
    {
      if l < p {
      } else if l == p {
      } else if k < p {
        assert ys'[l] == ys[l - 1] && perm'[l] == perm[l - 1];
      } else if k == p {
        assert ys'[l] == ys[l - 1];
        assert ys[l - 1].test.duration <= ys[p].test.duration;
      } else {
        assert ys'[l] == ys[l - 1] && perm'[l] == perm[l - 1];
        assert ys'[k] == ys[k - 1] && perm'[k] == perm[k - 1];
      }
    }
  }

  /** Inserting the next element of `xs` after every element at least as slow
      keeps the sort stable and descending. */
  lemma InsertKeepsStable(xs: seq<Flat>, i: nat, ys: seq<Flat>, perm: seq<nat>, p: nat)
    requires i < |xs| && IsStableDescending(xs[..i], ys, perm)
    requires InsertionPoint(ys, p, xs[i])
    ensures IsStableDescending(xs[..i + 1], ys[..p] + [xs[i]] + ys[p..], perm[..p] + [i] + perm[p..])
  {
    var ys', perm' := ys[..p] + [xs[i]] + ys[p..], perm[..p] + [i] + perm[p..];
    SpliceAt(ys, p, xs[i]);
    SpliceAt(perm, p, i);
    InsertMapsBack(xs, i, ys, perm, p, ys', perm');
    InsertCovers(xs, i, ys, perm, p, perm');
    InsertOrdered(xs, i, ys, perm, p, ys', perm');
  }

  /** The entries of the first `Min(n, |xs|)` elements of a stable descending
      sort of `xs` are its `n` slowest tests. */
  lemma PrefixIsSlowest(xs: seq<Flat>, ys: seq<Flat>, perm: seq<nat>, n: nat, result: seq<SlowTest>)
    requires IsStableDescending(xs, ys, perm)
    requires |result| == Min(n, |xs|)
    requires forall k :: 0 <= k < |result| ==> result[k] == Entry(ys[k])
    ensures IsSlowest(xs, n, result, perm[..|result|])
  {
    PrefixOrdered(xs, ys, perm, result);
    PrefixLeavesSlower(xs, ys, perm, result);
  }

  /** The first `|result|` places of a stable descending sort are distinct
      positions of `xs`, in descending order, ties in input order. */
  lemma PrefixOrdered(xs: seq<Flat>, ys: seq<Flat>, perm: seq<nat>, result: seq<SlowTest>)
    requires IsStableDescending(xs, ys, perm)
    requires |result| <= |xs|
    requires forall k :: 0 <= k < |result| ==> result[k] == Entry(ys[k])
    ensures forall k :: 0 <= k < |result| ==> perm[..|result|][k] < |xs| && result[k] == Entry(xs[perm[..|result|][k]])
    ensures forall k, l :: 0 <= k < l < |result| ==> perm[..|result|][k] != perm[..|result|][l]
    ensures forall k, l :: 0 <= k < l < |result| ==> result[k].duration >= result[l].duration
    ensures forall k, l :: 0 <= k < l < |result| && result[k].duration == result[l].duration ==>
              perm[..|result|][k] < perm[..|result|][l]
  {
    var picked := perm[..|result|];
    forall k | 0 <= k < |result| ensures picked[k] < |xs| && result[k] == Entry(xs[picked[k]]) {
      assert picked[k] == perm[k];
    }
    forall k, l | 0 <= k < l < |result|
      ensures picked[k] != picked[l]
      ensures result[k].duration >= result[l].duration
      ensures result[k].duration == result[l].duration ==> picked[k] < picked[l]
    {
      assert picked[k] == perm[k] && picked[l] == perm[l];
      assert ys[k].test.duration >= ys[l].test.duration;
    }
  }

  /** A test outside the first `|result|` places of a stable descending sort
      is no slower than any of them, and on a tie it comes later. */
  lemma PrefixLeavesSlower(xs: seq<Flat>, ys: seq<Flat>, perm: seq<nat>, result: seq<SlowTest>)
    requires IsStableDescending(xs, ys, perm)
    requires |result| <= |xs|
    requires forall k :: 0 <= k < |result| ==> result[k] == Entry(ys[k])
    ensures forall j, k :: 0 <= j < |xs| && 0 <= k < |result| && j !in perm[..|result|] ==>
              xs[j].test.duration <= result[k].duration
              && (xs[j].test.duration == result[k].duration ==> perm[..|result|][k] < j)
  {
    var m := |result|;
    var picked := perm[..m];
    forall j, k | 0 <= j < |xs| && 0 <= k < m && j !in picked
      ensures xs[j].test.duration <= result[k].duration
      ensures xs[j].test.duration == result[k].duration ==> picked[k] < j
    {
      assert j in perm;
      var l :| 0 <= l < |perm| && perm[l] == j;
      assert ys[l] == xs[j];
      assert picked[k] == perm[k];
    }
  }

  /** Position `a` of `flat` comes before position `b` in the stable
      descending order: it is slower, or as slow and earlier. */
  ghost predicate Before(flat: seq<Flat>, a: nat, b: nat)
    requires a < |flat| && b < |flat|
  {
    || flat[a].test.duration > flat[b].test.duration
    || (flat[a].test.duration == flat[b].test.duration && a < b)
  }

  /** The `k`-th pick comes before every position not picked ahead of it. */
  lemma PickIsFirstRemaining(flat: seq<Flat>, n: nat, result: seq<SlowTest>, picked: seq<nat>, k: nat)
    requires IsSlowest(flat, n, result, picked) && k < |picked|
    ensures forall j :: 0 <= j < |flat| && j !in picked[..k] && j != picked[k] ==> Before(flat, picked[k], j)
  {
    forall j | 0 <= j < |flat| && j !in picked[..k] && j != picked[k]
      ensures Before(flat, picked[k], j)
    {
      if j in picked {
        var m :| 0 <= m < |picked| && picked[m] == j;
        assert k < m;
      }
    }
  }

  /** Two selections of the `n` slowest tests agree on their first `k` picks. */
  lemma {:induction false} SlowestPrefixAgrees(flat: seq<Flat>, n: nat, r1: seq<SlowTest>, p1: seq<nat>,
                                               r2: seq<SlowTest>, p2: seq<nat>, k: nat)
    requires IsSlowest(flat, n, r1, p1) && IsSlowest(flat, n, r2, p2) && k <= |p1|
    ensures p1[..k] == p2[..k]
  {
    if k > 0 {
      var i := k - 1;
      SlowestPrefixAgrees(flat, n, r1, p1, r2, p2, i);
      PickIsFirstRemaining(flat, n, r1, p1, i);
      PickIsFirstRemaining(flat, n, r2, p2, i);
      assert p2[i] !in p1[..i] by {
        forall m | 0 <= m < i ensures p1[..i][m] != p2[i] {
          assert p1[..i][m] == p2[..i][m] == p2[m];
        }
      }
      assert p1[i] !in p2[..i] by {
        forall m | 0 <= m < i ensures p2[..i][m] != p1[i] {
          assert p2[..i][m] == p1[..i][m] == p1[m];
        }
      }
      assert p1[i] == p2[i];
      assert p1[..k] == p1[..i] + [p1[i]];
      assert p2[..k] == p2[..i] + [p2[i]];
    }
  }

  /** The `n` slowest tests are determined by the flattened list alone. */
  lemma SlowestIsUnique(flat: seq<Flat>, n: nat, r1: seq<SlowTest>, p1: seq<nat>, r2: seq<SlowTest>, p2: seq<nat>)
    requires IsSlowest(flat, n, r1, p1) && IsSlowest(flat, n, r2, p2)
    ensures p1 == p2 && r1 == r2
  {
    SlowestPrefixAgrees(flat, n, r1, p1, r2, p2, |p1|);
    assert p1 == p1[..|p1|] && p2 == p2[..|p2|];
  }
}

