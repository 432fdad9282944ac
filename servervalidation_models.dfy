/**
  The provider-run side of the platform (`servervalidation/models.py`):
  test scenarios and their Postman collections, provider runs, and the
  scores computed from the Newman logs those runs leave behind.

  A Newman JSON log is given here as the list of call records it parses to.
  Whether one call succeeded on its own (`postman.get_call_result(call)`,
  code that is not part of this model) is the call's `callResult` field.
  Timestamps are integers that order like the source's datetimes.
*/
module ServerValidationModels {
  import opened Wrappers
  import opened Text
  import opened Choices

  // ------------------------------------------------------------------
  // TestScenario: authorization modes
  // ------------------------------------------------------------------

  datatype TestScenario = TestScenario(name: string, authorization: string)

  /** A scenario created without an explicit mode authenticates with JWT. */
  function NewTestScenario(name: string, c: AuthenticationChoices): TestScenario
  {
    TestScenario(name, c.jwt)
  }

  predicate JwtEnabled(t: TestScenario, c: AuthenticationChoices) { t.authorization == c.jwt }

  predicate NoAuth(t: TestScenario, c: AuthenticationChoices) { t.authorization == c.noAuth }

  predicate CustomHeader(t: TestScenario, c: AuthenticationChoices) { t.authorization == c.header }

  /** How many of the three authorization predicates hold. */
  function AuthorizationModesHeld(t: TestScenario, c: AuthenticationChoices): nat
  {
    (if JwtEnabled(t, c) then 1 else 0) + (if NoAuth(t, c) then 1 else 0) + (if CustomHeader(t, c) then 1 else 0)
  }

  /**
    With distinct constants at most one authorization predicate holds,
    exactly one when the stored mode is one of the three choices, and a
    new scenario uses JWT.
  */
  lemma AuthorizationExclusive(t: TestScenario, c: AuthenticationChoices)
    requires c.Distinct()
    ensures AuthorizationModesHeld(t, c) <= 1
    ensures AuthorizationModesHeld(t, c) == 1 <==> t.authorization in {c.jwt, c.noAuth, c.header}
    ensures JwtEnabled(NewTestScenario(t.name, c), c)
  {
  }

  // ------------------------------------------------------------------
  // PostmanTest: the file name of a collection
  // ------------------------------------------------------------------

  /** A Postman collection; `validationFile` is the stored file's name, if any. */
  datatype PostmanTest = PostmanTest(name: string, version: string, validationFile: Option<string>)

  /** A Django file field is truthy when it has a non-empty name. */
  predicate HasFile(file: Option<string>)
  {
    file.Some? && file.value != ""
  }

  /**
    `filename`: the last '/'-separated segment of the stored name
    (`name.split('/')[-1]`), or "" without a file. The result holds no '/',
    ends the name, and is either the whole name or preceded by a '/'.
  */
  function Filename(t: PostmanTest): (r: string)
    ensures '/' !in r
    ensures !HasFile(t.validationFile) ==> r == ""
    ensures HasFile(t.validationFile) ==>
              var name := t.validationFile.value;
              && |r| <= |name|
              && name[|name| - |r|..] == r
              && (|r| == |name| || name[|name| - |r| - 1] == '/')
  {
    if HasFile(t.validationFile) then
      var name := t.validationFile.value;
      var parts := Split(name, '/');
      var k := |parts| - 1;
      JoinSplit(name, '/');
      assert k > 0 ==> name == Join(parts[..k], "/") + "/" + parts[k];
      parts[k]
    else
      ""
  }

  // ------------------------------------------------------------------
  // Newman logs: calls and assertions
  // ------------------------------------------------------------------

  /** One assertion of a call; `hasError` says whether it carries an `error` key. */
  datatype Assertion = Assertion(hasError: bool)

  /**
    One call record of the log: its `assertions` list, absent when the
    record has no such key, and the verdict `postman.get_call_result(call)`
    gives it.
  */
  datatype Call = Call(assertions: Option<seq<Assertion>>, callResult: bool)

  /** A provider-run result: its HTML log (as lines) and its parsed JSON log, each possibly missing. */
  datatype PostmanTestResult = PostmanTestResult(htmlLog: Option<seq<string>>, jsonLog: Option<seq<Call>>)

  /** `get_json_obj`: the calls of the JSON log, or no calls when there is no log. */
  function GetJsonObj(r: PostmanTestResult): seq<Call>
  {
    if r.jsonLog.Some? then r.jsonLog.value else []
  }

  /** A (positive, negative) pair of counts. */
  datatype Counts = Counts(positive: nat, negative: nat)

  function Plus(a: Counts, b: Counts): Counts
  {
    Counts(a.positive + b.positive, a.negative + b.negative)
  }

  /** The assertions of a call; a record without the key has none. */
  function AssertionsOf(call: Call): seq<Assertion>
  {
    if call.assertions.Some? then call.assertions.value else []
  }

  /** (assertions without `error`, assertions with `error`) in one list. */
  function AssertionTally(assertions: seq<Assertion>): Counts
  {
    if assertions == [] then Counts(0, 0)
    else
      var t := AssertionTally(assertions[..|assertions| - 1]);
      if assertions[|assertions| - 1].hasError then Counts(t.positive, t.negative + 1)
      else Counts(t.positive + 1, t.negative)
  }

  /** The assertion counts of a whole log, call by call. */
  function LogTally(calls: seq<Call>): Counts
  {
    if calls == [] then Counts(0, 0)
    else Plus(LogTally(calls[..|calls| - 1]), AssertionTally(AssertionsOf(calls[|calls| - 1])))
  }

  /** Every assertion of the log, in log order. */
  function AllAssertions(calls: seq<Call>): seq<Assertion>
  {
    if calls == [] then []
    else AllAssertions(calls[..|calls| - 1]) + AssertionsOf(calls[|calls| - 1])
  }

  /** The `error` flags of a list of assertions. */
  function ErrorFlags(assertions: seq<Assertion>): seq<bool>
  {
    seq(|assertions|, i requires 0 <= i < |assertions| => assertions[i].hasError)
  }

  /**
    A call succeeds when its own result is truthy and none of its
    assertions carries `error`; a falsy result fails it even without
    assertions.
  */
  predicate CallSucceeded(call: Call)
  {
    call.callResult && forall i :: 0 <= i < |AssertionsOf(call)| ==> !AssertionsOf(call)[i].hasError
  }

  /** (successful calls, failed calls) of a log. */
  function CallTally(calls: seq<Call>): Counts
  {
    if calls == [] then Counts(0, 0)
    else
      var t := CallTally(calls[..|calls| - 1]);
      if CallSucceeded(calls[|calls| - 1]) then Counts(t.positive + 1, t.negative)
      else Counts(t.positive, t.negative + 1)
  }

  /**
    The assertion tally counts, independently of order, how many
    assertions carry `error` (negative) and how many do not (positive).
  */
  lemma {:induction false} AssertionTallyCountsErrors(assertions: seq<Assertion>)
    ensures AssertionTally(assertions)
         == Counts(multiset(ErrorFlags(assertions))[false], multiset(ErrorFlags(assertions))[true])
  {
    if assertions != [] {
      var n := |assertions| - 1;
      AssertionTallyCountsErrors(assertions[..n]);
      assert ErrorFlags(assertions) == ErrorFlags(assertions[..n]) + [assertions[n].hasError];
    }
  }

  /** Every assertion is counted exactly once, as positive or as negative. */
  lemma {:induction false} AssertionTallyTotal(assertions: seq<Assertion>)
    ensures AssertionTally(assertions).positive + AssertionTally(assertions).negative == |assertions|
  {
    if assertions != [] {
      AssertionTallyTotal(assertions[..|assertions| - 1]);
    }
  }

  /** The negative count is zero exactly when no assertion carries `error`. */
  lemma {:induction false} AssertionTallyNoErrors(assertions: seq<Assertion>)
    ensures AssertionTally(assertions).negative == 0
        <==> forall i :: 0 <= i < |assertions| ==> !assertions[i].hasError
  {
    if assertions != [] {
      var n := |assertions| - 1;
      AssertionTallyNoErrors(assertions[..n]);
      assert forall i :: 0 <= i < n ==> assertions[..n][i] == assertions[i];
    }
  }

  lemma AssertionTallySnoc(assertions: seq<Assertion>, x: Assertion)
    ensures AssertionTally(assertions + [x]) == Plus(AssertionTally(assertions), AssertionTally([x]))
  {
    assert (assertions + [x])[..|assertions|] == assertions;
  }

  lemma {:induction false} AssertionTallyAppend(a: seq<Assertion>, b: seq<Assertion>)
    ensures AssertionTally(a + b) == Plus(AssertionTally(a), AssertionTally(b))
  {
    if b == [] {
      assert a + b == a;
    } else {
      var n := |b| - 1;
      var b', x := b[..n], b[n];
      var t := AssertionTally([x]);
      assert AssertionTally(a + b) == Plus(AssertionTally(a + b'), t) by {
        assert a + b == (a + b') + [x];
        AssertionTallySnoc(a + b', x);
      }
      assert AssertionTally(b) == Plus(AssertionTally(b'), t) by {
        assert b == b' + [x];
        AssertionTallySnoc(b', x);
      }
      AssertionTallyAppend(a, b');
    }
  }

  /** Tallying call by call is tallying the flattened list of all assertions. */
  lemma {:induction false} LogTallyIsFlattened(calls: seq<Call>)
    ensures LogTally(calls) == AssertionTally(AllAssertions(calls))
  {
    if calls != [] {
      var n := |calls| - 1;
      LogTallyIsFlattened(calls[..n]);
      AssertionTallyAppend(AllAssertions(calls[..n]), AssertionsOf(calls[n]));
    }
  }

  lemma LogTallySnoc(calls: seq<Call>, call: Call)
    ensures LogTally(calls + [call]) == Plus(LogTally(calls), AssertionTally(AssertionsOf(call)))
  {
    assert (calls + [call])[..|calls|] == calls;
  }

  lemma {:induction false} LogTallyAppend(a: seq<Call>, b: seq<Call>)
    ensures LogTally(a + b) == Plus(LogTally(a), LogTally(b))
  {
    if b == [] {
      assert a + b == a;
    } else {
      var n := |b| - 1;
      var b', call := b[..n], b[n];
      var t := AssertionTally(AssertionsOf(call));
      assert LogTally(a + b) == Plus(LogTally(a + b'), t) by {
        assert a + b == (a + b') + [call];
        LogTallySnoc(a + b', call);
      }
      assert LogTally(b) == Plus(LogTally(b'), t) by {
        assert b == b' + [call];
        LogTallySnoc(b', call);
      }
      LogTallyAppend(a, b');
    }
  }

  /** A call without an `assertions` key adds nothing to the assertion counts. */
  lemma CallWithoutAssertions(calls: seq<Call>, call: Call)
    requires call.assertions.None?
    ensures LogTally(calls + [call]) == LogTally(calls)
  {
    assert (calls + [call])[..|calls|] == calls;
  }

  /** A call succeeds exactly when its result is truthy and its own negative count is zero. */
  lemma CallSucceededMeaning(call: Call)
    ensures CallSucceeded(call) <==> call.callResult && AssertionTally(AssertionsOf(call)).negative == 0
  {
    AssertionTallyNoErrors(AssertionsOf(call));
  }

  /**
    Every call is classified exactly once, and the failed count is zero
    exactly when every call succeeded.
  */
  lemma {:induction false} CallTallyTotal(calls: seq<Call>)
    ensures CallTally(calls).positive + CallTally(calls).negative == |calls|
    ensures CallTally(calls).negative == 0 <==> forall i :: 0 <= i < |calls| ==> CallSucceeded(calls[i])
  {
    if calls != [] {
      var n := |calls| - 1;
      CallTallyTotal(calls[..n]);
      assert forall i :: 0 <= i < n ==> calls[..n][i] == calls[i];
    }
  }

  /**
    `get_call_results`: (assertions without `error`, assertions with
    `error`) over all calls of the JSON log.
  */
  method GetCallResults(r: PostmanTestResult) returns (positive: nat, negative: nat)
    ensures Counts(positive, negative) == LogTally(GetJsonObj(r))
  {
    positive, negative := 0, 0;
    var calls := GetJsonObj(r);
    for i := 0 to |calls|
      invariant Counts(positive, negative) == LogTally(calls[..i])
    {
      var call := calls[i];
      if call.assertions.Some? {
        var assertions := call.assertions.value;
        for j := 0 to |assertions|
          invariant Counts(positive, negative) == Plus(LogTally(calls[..i]), AssertionTally(assertions[..j]))
        {
          if assertions[j].hasError {
            negative := negative + 1;
          } else {
            positive := positive + 1;
          }
          assert assertions[..j + 1][..j] == assertions[..j];
        }
        assert assertions[..|assertions|] == assertions;
      }
      assert calls[..i + 1][..i] == calls[..i];
    }
    assert calls[..|calls|] == calls;
  }

  /** `get_assertions_details`: the same pair, (passed, error), computed by its own loop. */
  method GetAssertionsDetails(r: PostmanTestResult) returns (passed: nat, error: nat)
    ensures Counts(passed, error) == LogTally(GetJsonObj(r))
  {
    passed, error := 0, 0;
    var calls := GetJsonObj(r);
    for i := 0 to |calls|
      invariant Counts(passed, error) == LogTally(calls[..i])
    {
      var call := calls[i];
      if call.assertions.Some? {
        var assertions := call.assertions.value;
        for j := 0 to |assertions|
          invariant Counts(passed, error) == Plus(LogTally(calls[..i]), AssertionTally(assertions[..j]))
        {
          if assertions[j].hasError {
            error := error + 1;
          } else {
            passed := passed + 1;
          }
          assert assertions[..j + 1][..j] == assertions[..j];
        }
        assert assertions[..|assertions|] == assertions;
      }
      assert calls[..i + 1][..i] == calls[..i];
    }
    assert calls[..|calls|] == calls;
  }

  datatype AssertionSummary = AssertionSummary(passed: nat, failed: nat, total: nat)

  datatype CallSummary = CallSummary(success: nat, failed: nat, total: nat)

  /** The dictionary `get_aggregate_results` returns. */
  datatype AggregateResults = AggregateResults(assertions: AssertionSummary, calls: CallSummary)

  /**
    `get_aggregate_results`: the assertion counts are those of
    `get_call_results` and add up to the number of assertions in the log;
    the call counts classify every call record exactly once, by
    `CallSucceeded`.
  */
  method GetAggregateResults(r: PostmanTestResult) returns (agg: AggregateResults)
    ensures var t := LogTally(GetJsonObj(r));
            agg.assertions == AssertionSummary(t.positive, t.negative, |AllAssertions(GetJsonObj(r))|)
    ensures var t := CallTally(GetJsonObj(r));
            agg.calls == CallSummary(t.positive, t.negative, |GetJsonObj(r)|)
  {
    var passed, error := 0, 0;
    var positive, negative := 0, 0;
    var calls := GetJsonObj(r);
    for i := 0 to |calls|
      invariant Counts(passed, error) == LogTally(calls[..i])
      invariant Counts(positive, negative) == CallTally(calls[..i])
    {
      var call := calls[i];
      var success := true;
      if !call.callResult {
        success := false;
      }
      var assertions := AssertionsOf(call);
      if call.assertions.Some? {
        for j := 0 to |assertions|
          invariant Counts(passed, error) == Plus(LogTally(calls[..i]), AssertionTally(assertions[..j]))
          invariant success <==> call.callResult && AssertionTally(assertions[..j]).negative == 0
        {
          if assertions[j].hasError {
            error := error + 1;
            success := false;
          } else {
            passed := passed + 1;
          }
          assert assertions[..j + 1][..j] == assertions[..j];
        }
        assert assertions[..|assertions|] == assertions;
      }
      assert Counts(passed, error) == Plus(LogTally(calls[..i]), AssertionTally(assertions));
      CallSucceededMeaning(call);
      if success {
        positive := positive + 1;
      } else {
        negative := negative + 1;
      }
      assert calls[..i + 1] == calls[..i] + [call];
      LogTallySnoc(calls[..i], call);
    }
    assert calls[..|calls|] == calls;
    CallTallyTotal(calls);
    LogTallyIsFlattened(calls);
    AssertionTallyTotal(AllAssertions(calls));
    agg := AggregateResults(
      AssertionSummary(passed, error, error + passed),
      CallSummary(positive, negative, negative + positive));
  }

  /**
    `is_success`: 1 when no assertion of the log carries `error`, -1
    otherwise; the 0 branch of the source cannot be reached.
  */
  function IsSuccess(r: PostmanTestResult): (v: int)
    ensures v == 1 || v == -1
    ensures v == 1 <==> forall i :: 0 <= i < |AllAssertions(GetJsonObj(r))| ==> !AllAssertions(GetJsonObj(r))[i].hasError
  {
    var negative := LogTally(GetJsonObj(r)).negative;
    LogTallyIsFlattened(GetJsonObj(r));
    AssertionTallyNoErrors(AllAssertions(GetJsonObj(r)));
    var status := if negative == 0 then Success else Failed;
    if status == Success then 1
    else if status == Failed then -1
    else 0
  }

  /** A line of the HTML report that the source reads as "no failed tests". */
  predicate ReportsNoFailures(line: string)
  {
    IsInfix("Total failed tests", line) && '0' in line
  }

  /**
    `get_outcome_html`: success exactly when some line mentions "Total
    failed tests" and holds a '0' anywhere; failed otherwise. No HTML log
    (the source then fails to open the file) gives None.
  */
  method GetOutcomeHtml(r: PostmanTestResult) returns (outcome: Option<ResultChoice>)
    ensures outcome.None? <==> r.htmlLog.None?
    ensures r.htmlLog.Some? ==>
              (outcome == Some(Success) <==> exists i :: 0 <= i < |r.htmlLog.value| && ReportsNoFailures(r.htmlLog.value[i]))
  {
    if r.htmlLog.None? {
      return None;
    }
    var lines := r.htmlLog.value;
    for i := 0 to |lines|
      invariant forall k :: 0 <= k < i ==> !ReportsNoFailures(lines[k])
    {
      var line := lines[i];
      if IsInfix("Total failed tests", line) {
        if '0' in line {
          return Some(Success);
        }
      }
    }
    return Some(Failed);
  }

  /** The '0' test looks at the whole line: ten failed tests still read as success. */
  lemma TenFailedTestsReadAsSuccess()
    ensures ReportsNoFailures("Total failed tests: 10")
  {
    var line := "Total failed tests: 10";
    assert "Total failed tests" <= line[0..];
    assert line[21] == '0';
  }

  // ------------------------------------------------------------------
  // ServerRun: status and run-level verdicts
  // ------------------------------------------------------------------

  /** A provider run with the results of its Postman tests. */
  datatype ServerRun = ServerRun(
    id: nat,
    started: int,
    stopped: Option<int>,
    status: string,
    results: seq<PostmanTestResult>)

  predicate IsStopped(run: ServerRun, c: StatusChoices) { run.status == c.stopped }

  predicate IsRunning(run: ServerRun, c: StatusChoices) { run.status == c.running }

  predicate IsError(run: ServerRun, c: StatusChoices) { run.status == c.errorDeploy }

  /** With distinct constants at most one of the run's status predicates holds. */
  lemma ServerRunStatusExclusive(run: ServerRun, c: StatusChoices)
    requires c.Distinct()
    ensures !(IsStopped(run, c) && IsRunning(run, c))
    ensures !(IsStopped(run, c) && IsError(run, c))
    ensures !(IsRunning(run, c) && IsError(run, c))
  {
  }

  /** The `is_success()` of every result of a run, in order. */
  function Outcomes(results: seq<PostmanTestResult>): seq<int>
  {
    seq(|results|, i requires 0 <= i < |results| => IsSuccess(results[i]))
  }

  /** One pass of the loop body of `get_execution_result`. */
  function Step(verdict: Option<bool>, outcome: int): Option<bool>
  {
    if outcome == 0 then None
    else if outcome == -1 && verdict != None then Some(false)
    else verdict
  }

  /** The loop of `get_execution_result`, from a given start, over the outcomes in order. */
  function Fold(verdict: Option<bool>, outcomes: seq<int>): Option<bool>
  {
    if outcomes == [] then verdict
    else Step(Fold(verdict, outcomes[..|outcomes| - 1]), outcomes[|outcomes| - 1])
  }

  /**
    The verdict of a run stated without the loop: none without results or
    when some result yields 0, false when some result yields -1, true
    otherwise. It only asks which outcomes occur, not where.
  */
  function Verdict(outcomes: seq<int>): Option<bool>
  {
    if |outcomes| == 0 || 0 in outcomes then None
    else if -1 in outcomes then Some(false)
    else Some(true)
  }

  /** None is absorbing: once the loop has reached None it stays there. */
  lemma {:induction false} FoldAbsorbsNone(outcomes: seq<int>)
    ensures Fold(None, outcomes) == None
  {
    if outcomes != [] {
      FoldAbsorbsNone(outcomes[..|outcomes| - 1]);
    }
  }

  lemma {:induction false} FoldFromTrue(outcomes: seq<int>)
    ensures Fold(Some(true), outcomes)
         == if 0 in outcomes then None else if -1 in outcomes then Some(false) else Some(true)
  {
    if outcomes != [] {
      var n := |outcomes| - 1;
      FoldFromTrue(outcomes[..n]);
      assert outcomes == outcomes[..n] + [outcomes[n]];
    }
  }

  /** The loop started at True computes the verdict of any non-empty list of outcomes. */
  lemma FoldIsVerdict(outcomes: seq<int>)
    requires |outcomes| > 0
    ensures Fold(Some(true), outcomes) == Verdict(outcomes)
  {
    FoldFromTrue(outcomes);
  }

  /** `get_execution_result`: the loop over the run's results. */
  method GetExecutionResult(run: ServerRun) returns (verdict: Option<bool>)
    ensures verdict == Verdict(Outcomes(run.results))
  {
    var results := run.results;
    if |results| == 0 {
      verdict := None;
    } else {
      ghost var outcomes := Outcomes(results);
      verdict := Some(true);
      for i := 0 to |results|
        invariant verdict == Fold(Some(true), outcomes[..i])
      {
        if IsSuccess(results[i]) == 0 {
          verdict := None;
        } else if IsSuccess(results[i]) == -1 && verdict != None {
          verdict := Some(false);
        }
        assert outcomes[..i + 1][..i] == outcomes[..i];
      }
      assert outcomes[..|results|] == outcomes;
      FoldIsVerdict(outcomes);
    }
  }

  /**
    What the verdict means for a run: None exactly when it has no results,
    True exactly when it has results and none has a failed assertion,
    False exactly when some result has one.
  */
  lemma ExecutionVerdictMeaning(results: seq<PostmanTestResult>)
    ensures Verdict(Outcomes(results)) == None <==> |results| == 0
    ensures Verdict(Outcomes(results)) == Some(true)
        <==> |results| > 0 && forall i :: 0 <= i < |results| ==> LogTally(GetJsonObj(results[i])).negative == 0
    ensures Verdict(Outcomes(results)) == Some(false)
        <==> exists i :: 0 <= i < |results| && LogTally(GetJsonObj(results[i])).negative != 0
  {
    var outcomes := Outcomes(results);
    forall i | 0 <= i < |results|
      ensures outcomes[i] == 1 <==> LogTally(GetJsonObj(results[i])).negative == 0
      ensures outcomes[i] != 0
    {
      LogTallyIsFlattened(GetJsonObj(results[i]));
      AssertionTallyNoErrors(AllAssertions(GetJsonObj(results[i])));
    }
    assert 0 !in outcomes;
  }

  /** The verdict does not depend on the order in which the results are listed. */
  lemma VerdictOrderIndependent(a: seq<PostmanTestResult>, b: seq<PostmanTestResult>)
    requires multiset(a) == multiset(b)
    ensures Verdict(Outcomes(a)) == Verdict(Outcomes(b))
  {
    assert |a| == |multiset(a)| == |multiset(b)| == |b|;
    OutcomesIncluded(a, b);
    OutcomesIncluded(b, a);
  }

  lemma OutcomesIncluded(a: seq<PostmanTestResult>, b: seq<PostmanTestResult>)
    requires multiset(a) == multiset(b)
    ensures forall x :: x in Outcomes(a) ==> x in Outcomes(b)
  {
    forall x | x in Outcomes(a)
      ensures x in Outcomes(b)
    {
      var i :| 0 <= i < |a| && Outcomes(a)[i] == x;
      assert a[i] in multiset(b);
      var j :| 0 <= j < |b| && b[j] == a[i];
      assert Outcomes(b)[j] == x;
    }
  }

  /** The componentwise sum of the results' (positive, negative) pairs. */
  function SumTallies(results: seq<PostmanTestResult>): Counts
  {
    if results == [] then Counts(0, 0)
    else Plus(SumTallies(results[..|results| - 1]), LogTally(GetJsonObj(results[|results| - 1])))
  }

  /** The calls of all the results' logs, one log after the other. */
  function AllCalls(results: seq<PostmanTestResult>): seq<Call>
  {
    if results == [] then []
    else AllCalls(results[..|results| - 1]) + GetJsonObj(results[|results| - 1])
  }

  /** Summing per result is tallying all the run's calls at once. */
  lemma {:induction false} SumTalliesIsAllCalls(results: seq<PostmanTestResult>)
    ensures SumTallies(results) == LogTally(AllCalls(results))
  {
    if results != [] {
      var n := |results| - 1;
      SumTalliesIsAllCalls(results[..n]);
      LogTallyAppend(AllCalls(results[..n]), GetJsonObj(results[n]));
    }
  }

  /** `get_all_call_results`: the sums of `get_call_results` over the run's results. */
  method GetAllCallResults(run: ServerRun) returns (success: nat, failure: nat)
    ensures Counts(success, failure) == SumTallies(run.results)
  {
    success, failure := 0, 0;
    var results := run.results;
    for i := 0 to |results|
      invariant Counts(success, failure) == SumTallies(results[..i])
    {
      var positive, negative := GetCallResults(results[i]);
      success := success + positive;
      failure := failure + negative;
      assert results[..i + 1][..i] == results[..i];
    }
    assert results[..|results|] == results;
  }

  // ------------------------------------------------------------------
  // Environment and ScheduledTestScenario: the latest run
  // ------------------------------------------------------------------

  /**
    `Environment.last_run`: the latest stop time among the environment's
    runs that have stopped; None when none has.
  */
  function EnvironmentLastRun(runs: seq<ServerRun>): (r: Option<int>)
    ensures r.None? <==> forall i :: 0 <= i < |runs| ==> runs[i].stopped.None?
    ensures r.Some? ==> exists i :: 0 <= i < |runs| && runs[i].stopped == r
    ensures r.Some? ==> forall i :: 0 <= i < |runs| && runs[i].stopped.Some? ==> runs[i].stopped.value <= r.value
  {
    if runs == [] then None
    else
      var n := |runs| - 1;
      var earlier := EnvironmentLastRun(runs[..n]);
      assert forall i :: 0 <= i < n ==> runs[..n][i] == runs[i];
      var stopped := runs[n].stopped;
      if stopped.None? then earlier
      else if earlier.None? || earlier.value <= stopped.value then stopped
      else earlier
  }

  /**
    `Environment.last_started_at`: the latest start time among the
    environment's runs; None when it has no runs.
  */
  function EnvironmentLastStartedAt(runs: seq<ServerRun>): (r: Option<int>)
    ensures r.None? <==> |runs| == 0
    ensures r.Some? ==> exists i :: 0 <= i < |runs| && runs[i].started == r.value
    ensures r.Some? ==> forall i :: 0 <= i < |runs| ==> runs[i].started <= r.value
  {
    if runs == [] then None
    else
      var n := |runs| - 1;
      var earlier := EnvironmentLastStartedAt(runs[..n]);
      assert forall i :: 0 <= i < n ==> runs[..n][i] == runs[i];
      if earlier.None? || earlier.value <= runs[n].started then Some(runs[n].started)
      else earlier
  }

  /** The position of a run with the highest id. */
  function NewestRun(runs: seq<ServerRun>): (k: nat)
    requires |runs| > 0
    ensures k < |runs|
    ensures forall i :: 0 <= i < |runs| ==> runs[i].id <= runs[k].id
  {
    if |runs| == 1 then 0
    else
      var n := |runs| - 1;
      var k := NewestRun(runs[..n]);
      assert forall i :: 0 <= i < n ==> runs[..n][i] == runs[i];
      if runs[k].id <= runs[n].id then n else k
  }

  /**
    `ScheduledTestScenario.last_run`: the stop time of the run with the
    highest id (None when that run has not stopped), or None without runs.
  */
  function ScheduledLastRun(runs: seq<ServerRun>): (r: Option<int>)
    ensures |runs| == 0 ==> r.None?
    ensures |runs| > 0 ==>
              exists k :: 0 <= k < |runs| && r == runs[k].stopped
                       && forall i :: 0 <= i < |runs| ==> runs[i].id <= runs[k].id
  {
    if |runs| > 0 then runs[NewestRun(runs)].stopped else None
  }
}
