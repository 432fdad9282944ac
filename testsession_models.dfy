/**
  The mock-session side of the platform (`testsession/models.py`): stored
  test output, session status, exposed URLs, captured request/response
  logs and the per-call reports built from them.

  File contents are given as strings (the file system is not modelled),
  and a stored JSON text column is given by what `json.loads` makes of it.
*/
module TestSessionModels {
  import opened Wrappers
  import opened Text
  import opened Json
  import opened Choices

  // ------------------------------------------------------------------
  // TestSession: stored test output
  // ------------------------------------------------------------------

  /**
    Text with every '\n' removed: no newline is left, the pieces between
    the newlines are kept in order, and the text gets shorter by exactly
    the number of newlines.
  */
  function StripNewlines(text: string): (r: string)
    ensures '\n' !in r
    ensures r == Join(Split(text, '\n'), "")
    ensures |r| == |text| - Occurrences(text, '\n')
  {
    ReplaceRemoves(text, '\n', "");
    ReplaceIsSplitJoin(text, '\n', "");
    ReplaceLength(text, '\n', "");
    Replace(text, '\n', "")
  }

  /** Stripping the newlines a second time changes nothing. */
  lemma StripNewlinesIdempotent(text: string)
    ensures StripNewlines(StripNewlines(text)) == StripNewlines(text)
  {
    ReplaceIdempotent(text, '\n', "");
  }

  /**
    Text with every '\n' turned into "<br>": no newline is left, the pieces
    between the newlines are kept in order with "<br>" between them, and
    each newline adds three characters.
  */
  function NewlinesToBreaks(text: string): (r: string)
    ensures '\n' !in r
    ensures r == Join(Split(text, '\n'), "<br>")
    ensures |r| == |text| + 3 * Occurrences(text, '\n')
  {
    ReplaceRemoves(text, '\n', "<br>");
    ReplaceIsSplitJoin(text, '\n', "<br>");
    ReplaceLength(text, '\n', "<br>");
    Replace(text, '\n', "<br>")
  }

  /** The stored output of a test session. */
  class TestSession {
    /**
      The contents of the `test_result` file as a text-mode read returns
      them, after universal-newline translation (so "\r\n" and a lone "\r"
      already read as "\n"); None when there is no file.
    */
    var testResult: Option<string>
    /** The `json_result` column; None until something is saved. */
    var jsonResult: Option<string>

    /** A new record has neither a result file nor a JSON result. */
    constructor ()
      ensures testResult.None? && jsonResult.None?
    {
      testResult := None;
      jsonResult := None;
    }

    /** `save_test_json`: store the uploaded text, newlines removed; the result file is untouched. */
    method SaveTestJson(text: string)
      modifies this
      ensures jsonResult == Some(StripNewlines(text))
      ensures testResult == old(testResult)
    {
      jsonResult := Some(Replace(text, '\n', ""));
    }

    /**
      `display_test_result`: the result file with "<br>" for each newline,
      or None when there is no file.
    */
    function DisplayTestResult(): (r: Option<string>)
      reads this
      ensures r.None? <==> testResult.None?
      ensures r.Some? ==> r.value == Join(Split(testResult.value, '\n'), "<br>") && '\n' !in r.value
    {
      if testResult.Some? then Some(NewlinesToBreaks(testResult.value)) else None
    }
  }

  // ------------------------------------------------------------------
  // Session: status
  // ------------------------------------------------------------------

  datatype Session = Session(name: Option<string>, status: string)

  /** A new session is starting. */
  function NewSession(name: Option<string>, c: StatusChoices): Session
  {
    Session(name, c.starting)
  }

  predicate IsStopped(s: Session, c: StatusChoices) { s.status == c.stopped }

  predicate IsRunning(s: Session, c: StatusChoices) { s.status == c.running }

  predicate IsStarting(s: Session, c: StatusChoices) { s.status == c.starting }

  predicate IsShuttingDown(s: Session, c: StatusChoices) { s.status == c.shuttingDown }

  /** How many of the four status predicates hold. */
  function StatusesHeld(s: Session, c: StatusChoices): nat
  {
    (if IsStopped(s, c) then 1 else 0) + (if IsRunning(s, c) then 1 else 0)
    + (if IsStarting(s, c) then 1 else 0) + (if IsShuttingDown(s, c) then 1 else 0)
  }

  /**
    With distinct constants at most one status predicate holds, and a new
    session is starting and nothing else.
  */
  lemma SessionStatusExclusive(s: Session, c: StatusChoices)
    requires c.Distinct()
    ensures StatusesHeld(s, c) <= 1
    ensures IsStarting(NewSession(s.name, c), c) && StatusesHeld(NewSession(s.name, c), c) == 1
  {
  }

  // ------------------------------------------------------------------
  // ExposedUrl: the identifier part of an exposed URL
  // ------------------------------------------------------------------

  /** `u` is the run of non-'/' characters that starts at `k`, after only '/' characters. */
  predicate IsRunAfterSlashes(s: string, k: nat, u: string)
  {
    && k + |u| <= |s|
    && (forall i :: 0 <= i < k ==> s[i] == '/')
    && s[k..k + |u|] == u
    && '/' !in u
    && (k + |u| == |s| || s[k + |u|] == '/')
  }

  /** The number of '/' characters `s` starts with. */
  function LeadingSlashes(s: string): (k: nat)
    ensures k <= |s|
    ensures forall i :: 0 <= i < k ==> s[i] == '/'
    ensures k < |s| ==> s[k] != '/'
  {
    if s == [] || s[0] != '/' then 0 else 1 + LeadingSlashes(s[1..])
  }

  /** The longest prefix of `s` without '/'. */
  function NonSlashPrefix(s: string): (r: string)
    ensures r <= s
    ensures '/' !in r
    ensures |r| == |s| || s[|r|] == '/'
  {
    if s == [] || s[0] == '/' then [] else [s[0]] + NonSlashPrefix(s[1..])
  }

  /**
    `ExposedUrl.get_uuid_url`: the first match of `([^/]+)`, that is the
    first maximal run of non-'/' characters. A URL made only of '/' (or
    empty) has no match, and the source's `.group` then raises: None.
  */
  function GetUuidUrl(exposedUrl: string): (r: Option<string>)
    ensures r.None? <==> forall i :: 0 <= i < |exposedUrl| ==> exposedUrl[i] == '/'
    ensures r.Some? ==> |r.value| > 0 && exists k :: IsRunAfterSlashes(exposedUrl, k, r.value)
  {
    var k := LeadingSlashes(exposedUrl);
    if k == |exposedUrl| then None
    else
      var u := NonSlashPrefix(exposedUrl[k..]);
      assert exposedUrl[k..][0] == exposedUrl[k];
      assert exposedUrl[k..k + |u|] == u;
      assert IsRunAfterSlashes(exposedUrl, k, u);
      Some(u)
  }

  /** The run is unique: only one position and one run satisfy the description. */
  lemma RunAfterSlashesUnique(s: string, k1: nat, u1: string, k2: nat, u2: string)
    requires |u1| > 0 && IsRunAfterSlashes(s, k1, u1)
    requires |u2| > 0 && IsRunAfterSlashes(s, k2, u2)
    ensures k1 == k2 && u1 == u2
  {
    assert s[k1] == u1[0] && s[k2] == u2[0];
    assert forall i :: 0 <= i < |u1| ==> s[k1 + i] == u1[i] && u1[i] != '/';
    assert forall i :: 0 <= i < |u2| ==> s[k2 + i] == u2[i] && u2[i] != '/';
    assert k1 == k2;
  }

  // ------------------------------------------------------------------
  // SessionLog: fields of the captured request and response
  // ------------------------------------------------------------------

  /** One captured call: the stored request and response JSON texts. */
  datatype SessionLog = SessionLog(request: StoredText, response: StoredText, responseStatus: Option<nat>)

  /**
    `request_path`: `json.loads(request)['request']['path']`, which fails
    (raises) whenever the text is missing, does not parse, or lacks that
    member.
  */
  function RequestPath(log: SessionLog): (r: Result<Json, PyError>)
    ensures r.Ok? <==> HasMember(log.request, "request", "path")
    ensures r.Ok? ==> r.value == log.request.doc.fields["request"].fields["path"]
    ensures r.Err? && log.request.WellFormed? ==> r.error.TypeError? || r.error.KeyError?
  {
    Member(log.request, "request", "path")
  }

  /** `request_headers`: the same for `['request']['header']`, with no fallback either. */
  function RequestHeaders(log: SessionLog): (r: Result<Json, PyError>)
    ensures r.Ok? <==> HasMember(log.request, "request", "header")
    ensures r.Ok? ==> r.value == log.request.doc.fields["request"].fields["header"]
    ensures r.Err? && log.request.WellFormed? ==> r.error.TypeError? || r.error.KeyError?
  {
    Member(log.request, "request", "header")
  }

  /**
    `request_body`: `['request']['body']` of the request, and "" whenever
    that lookup would raise: it never fails.
  */
  function RequestBody(log: SessionLog): (r: Json)
    ensures HasMember(log.request, "request", "body") ==> r == log.request.doc.fields["request"].fields["body"]
    ensures !HasMember(log.request, "request", "body") ==> r == JString("")
  {
    match Member(log.request, "request", "body")
    case Ok(body) => body
    case Err(_) => JString("")
  }

  /** `response_body`: `['response']['body']` of the response, and "" whenever that lookup would raise. */
  function ResponseBody(log: SessionLog): (r: Json)
    ensures HasMember(log.response, "response", "body") ==> r == log.response.doc.fields["response"].fields["body"]
    ensures !HasMember(log.response, "response", "body") ==> r == JString("")
  {
    match Member(log.response, "response", "body")
    case Ok(body) => body
    case Err(_) => JString("")
  }

  /**
    The bodies fall back where the path and headers fail: a request that
    is missing or unparsable makes `request_path` and `request_headers`
    raise, while `request_body` gives "".
  */
  lemma OnlyBodiesFallBack(log: SessionLog)
    requires !log.request.WellFormed?
    ensures RequestPath(log).Err? && RequestHeaders(log).Err?
    ensures RequestBody(log) == JString("")
    ensures log.request.NoText? ==> RequestPath(log) == Err(TypeError)
    ensures log.request.Malformed? ==> RequestPath(log) == Err(JsonDecodeError)
    ensures log.request.NoText? ==> RequestHeaders(log) == Err(TypeError)
    ensures log.request.Malformed? ==> RequestHeaders(log) == Err(JsonDecodeError)
  {
  }

  // ------------------------------------------------------------------
  // Report: per-call results, unique per (scenario case, session log)
  // ------------------------------------------------------------------

  /** The result of one scenario case for one captured call; the two links are row ids. */
  datatype Report = Report(scenarioCase: nat, sessionLog: nat, result: string)

  /** A new report is not called. */
  function NewReport(scenarioCase: nat, sessionLog: nat, c: HttpCallChoices): Report
  {
    Report(scenarioCase, sessionLog, c.notCalled)
  }

  predicate IsSuccess(r: Report, c: HttpCallChoices) { r.result == c.success }

  predicate IsFailed(r: Report, c: HttpCallChoices) { r.result == c.failed }

  predicate IsNotCalled(r: Report, c: HttpCallChoices) { r.result == c.notCalled }

  /** How many of the three result predicates hold. */
  function ResultsHeld(r: Report, c: HttpCallChoices): nat
  {
    (if IsSuccess(r, c) then 1 else 0) + (if IsFailed(r, c) then 1 else 0) + (if IsNotCalled(r, c) then 1 else 0)
  }

  /**
    With distinct constants at most one result predicate holds, exactly one
    when the result is one of the three choices, and a new report is not
    called.
  */
  lemma ReportResultExclusive(r: Report, c: HttpCallChoices)
    requires c.Distinct()
    ensures ResultsHeld(r, c) <= 1
    ensures ResultsHeld(r, c) == 1 <==> r.result in {c.success, c.failed, c.notCalled}
    ensures IsNotCalled(NewReport(r.scenarioCase, r.sessionLog, c), c)
    ensures ResultsHeld(NewReport(r.scenarioCase, r.sessionLog, c), c) == 1
  {
  }

  /** Some report links this scenario case to this session log. */
  predicate HasPair(rows: seq<Report>, scenarioCase: nat, sessionLog: nat)
  {
    exists i :: 0 <= i < |rows| && rows[i].scenarioCase == scenarioCase && rows[i].sessionLog == sessionLog
  }

  /** The `unique_together` rule: no two reports share a (scenario case, session log) pair. */
  predicate UniquePairs(rows: seq<Report>)
  {
    forall i, j :: 0 <= i < j < |rows| ==>
      rows[i].scenarioCase != rows[j].scenarioCase || rows[i].sessionLog != rows[j].sessionLog
  }

  /** Under the rule each pair names at most one report. */
  lemma UniquePairsAtMostOne(rows: seq<Report>, i: nat, j: nat)
    requires UniquePairs(rows)
    requires i < |rows| && j < |rows|
    requires rows[i].scenarioCase == rows[j].scenarioCase && rows[i].sessionLog == rows[j].sessionLog
    ensures i == j
  {
  }

  /** The table of reports, with the uniqueness rule as its invariant. */
  class ReportTable {
    var rows: seq<Report>

    ghost predicate Valid()
      reads this
    {
      UniquePairs(rows)
    }

    constructor ()
      ensures Valid() && rows == []
    {
      rows := [];
    }

    /**
      Insert a report; an insert whose (scenario case, session log) pair is
      already present is rejected and leaves the table as it was.
    */
    method Insert(report: Report) returns (ok: bool)
      requires Valid()
      modifies this
      ensures Valid()
      ensures ok <==> !HasPair(old(rows), report.scenarioCase, report.sessionLog)
      ensures rows == if ok then old(rows) + [report] else old(rows)
    {
      ok := !HasPair(rows, report.scenarioCase, report.sessionLog);
      if ok {
        rows := rows + [report];
      }
    }
  }
}
