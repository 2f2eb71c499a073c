/** The defaulting step of loading sessions: already-decoded JSON records,
    whose keys may be missing, become sessions and test results. */
module Parser {
  import opened Models
  import opened Strings
  import opened Stats

  datatype Option<T> = None | Some(value: T)

  /** `d.get(key, default)` on a record field. */
  function GetOr<T>(o: Option<T>, default: T): T {
    match o
    case None => default
    case Some(v) => v
  }

  /** A decoded test object: any of its keys may be missing. */
  datatype RawTest = RawTest(name: Option<string>, status: Option<string>, duration: Option<real>)

  /** A decoded session object: any of its keys may be missing. */
  datatype RawSession = RawSession(dut: Option<string>, sessionId: Option<string>, tests: Option<seq<RawTest>>)

  /** What loading makes of one raw test: a missing name is "unknown", a
      missing status "skipped", a missing duration 0.0, and the status is
      lower-cased. */
  ghost predicate LoadsTest(raw: RawTest, t: TestResult) {
    && t.name == (if raw.name.Some? then raw.name.value else "unknown")
    && t.status == Lower(if raw.status.Some? then raw.status.value else "skipped")
    && t.duration == (if raw.duration.Some? then raw.duration.value else 0.0)
  }

  /** What loading makes of one raw session: a missing dut is "unknown", a
      missing session id is empty, a missing test list is empty, and the
      tests keep their order. */
  ghost predicate LoadsSession(raw: RawSession, s: TestSession) {
    && s.dut == (if raw.dut.Some? then raw.dut.value else "unknown")
    && s.sessionId == (if raw.sessionId.Some? then raw.sessionId.value else "")
    && var rawTests := if raw.tests.Some? then raw.tests.value else [];
       && |s.tests| == |rawTests|
       && forall j :: 0 <= j < |rawTests| ==> LoadsTest(rawTests[j], s.tests[j])
  }

  /** The loop of load_sessions_from_json over the decoded objects. Every
      stored status is already lower case. */
  method LoadSessions(raw: seq<RawSession>) returns (sessions: seq<TestSession>)
    ensures |sessions| == |raw|
    ensures forall i :: 0 <= i < |raw| ==> LoadsSession(raw[i], sessions[i])
    ensures forall i, j :: 0 <= i < |sessions| && 0 <= j < |sessions[i].tests| ==>
      IsLower(sessions[i].tests[j].status)
  {
    sessions := [];
    for i := 0 to |raw|
      invariant |sessions| == i
      invariant forall k :: 0 <= k < i ==> LoadsSession(raw[k], sessions[k])
    {
      var obj := raw[i];
      var tests := LoadTests(GetOr(obj.tests, []));
      sessions := sessions + [TestSession(GetOr(obj.dut, "unknown"), GetOr(obj.sessionId, ""), tests)];
    }
    forall i, j | 0 <= i < |sessions| && 0 <= j < |sessions[i].tests|
      ensures IsLower(sessions[i].tests[j].status)
    {
      LoadedStatus(GetOr(raw[i].tests, [])[j], sessions[i].tests[j]);
    }
  }

  /** The inner loop over one session's test objects: one test per object,
      in order, each with its defaults filled in. */
  method LoadTests(rawTests: seq<RawTest>) returns (tests: seq<TestResult>)
    ensures |tests| == |rawTests|
    ensures forall k :: 0 <= k < |rawTests| ==> LoadsTest(rawTests[k], tests[k])
  {
    tests := [];
    for j := 0 to |rawTests|
      invariant |tests| == j
      invariant forall k :: 0 <= k < j ==> LoadsTest(rawTests[k], tests[k])
    {
      var t := rawTests[j];
      var name := GetOr(t.name, "unknown");
      var status := Lower(GetOr(t.status, "skipped"));
      var duration := GetOr(t.duration, 0.0);
      tests := tests + [TestResult(name, status, duration)];
    }
  }

  /** A loaded status is lower case, lower-casing it again changes nothing,
      so the aggregator classifies it by the stored text; a test loaded
      without a status counts as skipped. */
  lemma LoadedStatus(raw: RawTest, t: TestResult)
    requires LoadsTest(raw, t)
    ensures IsLower(t.status) && Lower(t.status) == t.status
    ensures Classify(t.status) == Classify(GetOr(raw.status, "skipped"))
    ensures raw.status.None? ==> Classify(t.status) == Skipped
  {
    var given := GetOr(raw.status, "skipped");
    LowerIsLower(given);
    LowerIdempotent(given);
    if raw.status.None? {
      LowerMatches("skipped", "skipped");
    }
  }

  /** A test object with only a mixed-case status. */
  lemma LoadsBareTest()
    ensures LoadsTest(RawTest(None, Some("PASSED"), None), TestResult("unknown", "passed", 0.0))
  {
    LowerMatches("PASSED", "passed");
  }
}
