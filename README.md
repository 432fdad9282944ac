# API test platform: provider-run scoring and mock-session records, in Dafny

This project models two clusters of logic in the Django models of an API
conformance-testing platform.

**Provider runs** (`src/vng/servervalidation/models.py`). A provider run
executes Postman collections against a live service with Newman. Each
execution leaves a JSON log, which is a list of call records. A call record
may have a list of assertions, and an assertion that failed carries an
`error` key. From that log the model computes:

- the (positive, negative) assertion counts (`get_call_results`,
  `get_assertions_details`);
- the aggregate summary of assertions and calls (`get_aggregate_results`);
- the ±1 success flag of one result (`is_success`);
- the tri-state verdict of a whole run (`get_execution_result`);
- the summed counts of a run (`get_all_call_results`);
- the verdict read from the HTML report (`get_outcome_html`).

Also modelled in this file: the file name of a collection, the latest-run
selections of environments and schedules, and the status and authorization
predicates.

**Mock sessions** (`src/vng/testsession/models.py`). This part models:

- the newline handling of stored test output (`save_test_json`,
  `display_test_result`);
- the identifier extracted from an exposed URL (`get_uuid_url`);
- the request and response helpers of a session log, both those that fall
  back to `""` and those that raise;
- the session and report status predicates;
- the uniqueness of reports per (scenario case, session log).

Modules:

- `Wrappers`: Option and Result.
- `Text`: Python's `split`, `join`, single-character `replace` and substring `in`.
- `Choices`: the choice constants.
- `Json`: parsed JSON values, `json.loads` and subscripting.
- `ServerValidationModels` and `TestSessionModels`: one module per models file.

Counting follows the source's loops. Each method is proved against a
recursive specification function (`LogTally`, `CallTally`, `SumTallies`,
`Fold`/`Verdict`). Lemmas then relate those functions to order-free
descriptions:

- multiset counts of the `error` flags;
- the flattened list of all assertions;
- "some result has an error";
- the concatenation of all logs.

Inputs that the source reads from outside are parameters:

- A Newman JSON log is given as the sequence of calls it parses to.
- Whether a call succeeded on its own (`postman.get_call_result(call)`, in
  `vng/postman/utils`) is the call's `callResult` field.
- An HTML report is given as its lines.
- A file's contents are given as the string a text-mode read returns, after universal-newline translation ("\r\n" and a lone "\r" already read as "\n").
- A stored JSON text column is given by what `json.loads` makes of it:
  NULL, unparsable, or a parsed document.
- The `vng/utils/choices` module and `vng/postman/choices` are not part of
  this model. The string values of `StatusChoices`, `AuthenticationChoices`
  and `HTTPCallChoiches` are parameters (records with a `Distinct()`
  predicate). `ResultChoices` is the two-valued `ResultChoice`.
- Datetimes are integers that compare the same way.
- Querysets (`serverrun_set`, `postmantestresult_set`) are sequences.

## Model

| member | source | states |
|---|---|---|
| `ServerValidationModels.AuthorizationExclusive` | src/vng/servervalidation/models.py:64-71 | With distinct constants at most one of `jwt_enabled`, `no_auth`, `custom_header` holds. Exactly one holds when the stored mode is one of the three. A new scenario (default at line 46) uses JWT. |
| `ServerValidationModels.Filename` | src/vng/servervalidation/models.py:135-139 | `filename` is "" when the file field is empty. Otherwise it is the last piece of `name.split('/')`. That piece holds no '/', ends the name, and is the whole name or follows a '/'. |
| `Text.Split` | src/vng/servervalidation/models.py:138 | `split('/')` gives at least one piece. No piece holds the separator. |
| `Text.JoinSplit` | src/vng/servervalidation/models.py:138 | Round trip: joining the pieces with the separator gives the string back. |
| `Text.SplitJoin` | src/vng/servervalidation/models.py:138 | The other round trip: splitting separator-free pieces joined by the separator returns those pieces. |
| `ServerValidationModels.GetCallResults` | src/vng/servervalidation/models.py:367-377 | The loop returns the (positive, negative) pair `LogTally` of the JSON log. A missing log counts as no calls (lines 341-342). |
| `ServerValidationModels.GetAssertionsDetails` | src/vng/servervalidation/models.py:410-419 | Its own loop returns exactly the same pair as `get_call_results` on the same log. |
| `ServerValidationModels.AssertionTallyCountsErrors` | src/vng/servervalidation/models.py:372-376 | Negative is the number of assertions that carry `error`. Positive is the number that do not, counted as multiplicities and so independent of order. |
| `ServerValidationModels.AssertionTallyTotal` | src/vng/servervalidation/models.py:398-401 | Every assertion is counted once: passed + failed equals the number of assertions. |
| `ServerValidationModels.AssertionTallyNoErrors` | src/vng/servervalidation/models.py:308-309 | The negative count is 0 exactly when no assertion carries `error`. |
| `ServerValidationModels.LogTallyIsFlattened` | src/vng/servervalidation/models.py:369-376 | Counting call by call gives the same pair as counting the flattened list of all assertions of the log. |
| `ServerValidationModels.CallWithoutAssertions` | src/vng/servervalidation/models.py:371 | A call record without an `assertions` key changes neither count. |
| `ServerValidationModels.LogTallyAppend` | src/vng/servervalidation/models.py:276-279 | The counts of two logs in sequence are the componentwise sum of their counts. |
| `ServerValidationModels.GetAggregateResults` | src/vng/servervalidation/models.py:379-408 | The `assertions` part has passed/failed equal to the `get_call_results` pair, and a total equal to the number of assertions in the log. The `calls` part splits the calls into succeeded and failed by `CallSucceeded`, and its total is the number of call records. |
| `ServerValidationModels.CallSucceededMeaning` | src/vng/servervalidation/models.py:383-396 | A call succeeds iff `get_call_result` is truthy and its own failed-assertion count is 0. A falsy result alone fails it, even with no assertions. |
| `ServerValidationModels.CallTallyTotal` | src/vng/servervalidation/models.py:393-407 | Success + failed equals the number of calls, so every call is classified exactly once. Failed is 0 iff every call succeeded. |
| `ServerValidationModels.IsSuccess` | src/vng/servervalidation/models.py:307-315 | `is_success` is 1 iff no assertion in the log carries `error`, and -1 otherwise. It is never 0. |
| `ServerValidationModels.GetOutcomeHtml` | src/vng/servervalidation/models.py:355-361 | Success iff some line contains "Total failed tests" and a '0' anywhere; failed otherwise. None when there is no HTML log, where the source raises on opening it. |
| `ServerValidationModels.TenFailedTestsReadAsSuccess` | src/vng/servervalidation/models.py:358-360 | The '0' test covers the whole line, so "Total failed tests: 10" reads as success. |
| `ServerValidationModels.ServerRunStatusExclusive` | src/vng/servervalidation/models.py:251-258 | With distinct constants at most one of `is_stopped`, `is_running`, `is_error` holds. |
| `ServerValidationModels.GetExecutionResult` | src/vng/servervalidation/models.py:260-271 | The loop over the results returns `Verdict` of their `is_success` values: None with no results or when some value is 0; otherwise False if some value is -1, else True. |
| `ServerValidationModels.FoldAbsorbsNone` | src/vng/servervalidation/models.py:266-270 | None is absorbing: once the loop variable is None, no later result changes it. |
| `ServerValidationModels.FoldIsVerdict` | src/vng/servervalidation/models.py:265-270 | On a non-empty list of outcomes, the loop started at True computes `Verdict`. |
| `ServerValidationModels.ExecutionVerdictMeaning` | src/vng/servervalidation/models.py:260-271 | For a run, the verdict is None iff it has no results. It is True iff it has results and none has a failed assertion. It is False iff some result has one. |
| `ServerValidationModels.VerdictOrderIndependent` | src/vng/servervalidation/models.py:261-270 | Two runs whose results are the same multiset get the same verdict. |
| `ServerValidationModels.GetAllCallResults` | src/vng/servervalidation/models.py:273-280 | The loop returns the componentwise sum `SumTallies` of the `get_call_results` pairs of the run's results. |
| `ServerValidationModels.SumTalliesIsAllCalls` | src/vng/servervalidation/models.py:273-280 | That sum equals the counts of all the run's logs concatenated. |
| `ServerValidationModels.EnvironmentLastRun` | src/vng/servervalidation/models.py:169-172 | None iff no run has stopped. Otherwise the result is the stop time of some run, and no run stopped later. |
| `ServerValidationModels.EnvironmentLastStartedAt` | src/vng/servervalidation/models.py:174-177 | None iff there are no runs. Otherwise the result is the start time of some run, and no run started later. |
| `ServerValidationModels.ScheduledLastRun` | src/vng/servervalidation/models.py:194-199 | None without runs. Otherwise the result is the `stopped` value (possibly None) of a run whose id is the highest. |
| `TestSessionModels.TestSession.constructor` | src/vng/testsession/models.py:30-32 | A new record has no result file and no JSON result. |
| `TestSessionModels.StripNewlines` | src/vng/testsession/models.py:40 | `replace('\n', '')` leaves no newline. It keeps the pieces between newlines in order, joined with nothing. It shortens the text by exactly the number of newlines. |
| `TestSessionModels.StripNewlinesIdempotent` | src/vng/testsession/models.py:40 | Stripping twice gives the same text as stripping once. |
| `TestSessionModels.TestSession.SaveTestJson` | src/vng/testsession/models.py:39-41 | `json_result` becomes the uploaded text with every newline removed. The result file is unchanged. |
| `TestSessionModels.NewlinesToBreaks` | src/vng/testsession/models.py:46 | `replace('\n', '<br>')` leaves no newline. It keeps the pieces between newlines in order, joined with "<br>". It adds three characters per newline. |
| `TestSessionModels.TestSession.DisplayTestResult` | src/vng/testsession/models.py:43-46 | None iff there is no result file. Otherwise the file with "<br>" between the pieces that newlines separated. |
| `Text.ReplaceIsSplitJoin` | src/vng/testsession/models.py:46 | Replacing a character is splitting at it and joining with the replacement, so all other characters keep their order. |
| `Text.ReplaceRemoves` | src/vng/testsession/models.py:40 | When the replacement does not hold the character, no occurrence of it is left. |
| `Text.ReplaceWithout` | src/vng/testsession/models.py:40 | Text without the character is left unchanged. |
| `Text.ReplaceIdempotent` | src/vng/testsession/models.py:40 | Replacing twice equals replacing once when the replacement does not hold the character. |
| `Text.ReplaceAppend` | src/vng/testsession/models.py:46 | Replacement distributes over concatenation, so it works line by line. |
| `Text.ReplaceLength` | src/vng/testsession/models.py:46 | Each occurrence becomes as many characters as the replacement has; the rest keep their count. |
| `TestSessionModels.SessionStatusExclusive` | src/vng/testsession/models.py:93-103 | With distinct constants at most one of `is_stopped`, `is_running`, `is_starting`, `is_shutting_down` holds. A new session (default at line 78) is starting and nothing else. |
| `TestSessionModels.GetUuidUrl` | src/vng/testsession/models.py:113-114 | None (the source raises) iff the URL is empty or all '/'. Otherwise the result is non-empty, holds no '/', and is preceded only by '/'. It ends at the end of the URL or before a '/'. |
| `TestSessionModels.RunAfterSlashesUnique` | src/vng/testsession/models.py:114 | That description fixes the match: only one position and one run satisfy it. |
| `Json.Loads` | src/vng/testsession/models.py:133 | `json.loads` succeeds exactly on parsable text. NULL raises TypeError and unparsable text raises JSONDecodeError. |
| `Json.Subscript` | src/vng/testsession/models.py:133 | `v[key]` succeeds exactly when `v` is an object with that key, and then gives its member. |
| `Json.Member` | src/vng/testsession/models.py:132-148 | `json.loads(t)[outer][inner]` succeeds exactly when that nested member exists, and gives it. NULL text raises TypeError and unparsable text raises JSONDecodeError. |
| `TestSessionModels.RequestPath` | src/vng/testsession/models.py:132-133 | `request_path` gives `['request']['path']` when present. Otherwise it fails: TypeError or KeyError on a parsed document. |
| `TestSessionModels.RequestHeaders` | src/vng/testsession/models.py:135-136 | `request_headers` gives `['request']['header']` when present, and fails otherwise. |
| `TestSessionModels.RequestBody` | src/vng/testsession/models.py:138-142 | `request_body` gives `['request']['body']` when present and "" in every other case. It never fails. |
| `TestSessionModels.ResponseBody` | src/vng/testsession/models.py:144-148 | `response_body` gives `['response']['body']` of the response when present and "" otherwise. |
| `TestSessionModels.OnlyBodiesFallBack` | src/vng/testsession/models.py:132-142 | On a missing or unparsable request, path and headers fail with the matching exception while the body is "". |
| `TestSessionModels.ReportResultExclusive` | src/vng/testsession/models.py:157-166 | With distinct constants at most one of `is_success`, `is_failed`, `is_not_called` holds. Exactly one holds when the result is one of the three. A new report is not called. |
| `TestSessionModels.UniquePairsAtMostOne` | src/vng/testsession/models.py:152-153 | Under `unique_together`, a (scenario case, session log) pair names at most one report. |
| `TestSessionModels.ReportTable.Insert` | src/vng/testsession/models.py:152-153 | An insert succeeds iff its pair is not yet present, and then appends the report. A duplicate is rejected and leaves the table unchanged. The uniqueness invariant is kept. |

## Left out

- File and JSON input/output are not modelled: `valid_file`, `display_log`, `display_log_json`, `get_json_obj_info` (with its timestamp formatting), `get_outcome_json`, `save_json` and `TestSession.save_test` (random file name). Their parsed results are inputs instead.
- `PostmanTest.valid_file` checks for `valid_file_cache` but stores `valid_file_cached` (lines 127-132), so its cache is never hit. It is a file read with no other effect, so it is only noted here.
- `postman.get_call_result` and `postman.get_json_obj_file` live in `vng/postman/utils`, which is not part of this model. The first is the `callResult` field of a call; the second is the given call sequence.
- `positive_call_result`, `negative_call_result` and `get_call_results_list` are not modelled separately. They are projections of `get_call_results` and a map of `get_call_result`.
- The default status of a `ServerRun` comes from `StatusWithScheduledChoices`, another constant set from the unmodelled choices module, so it is not modelled.
- Django schema declarations (field types, `Meta`, cascades) and ORM ordering are not modelled; querysets are plain sequences. The database's enforcement of `unique_together` is the `ReportTable.Insert` check, without concurrency.
- `Session.get_absolute_request_url` (request host, URL reversing) and all `__str__` methods are not modelled.
- `Json.Json` keeps numbers as integers. Floating-point values do not affect any modelled behaviour.
- `ServerValidationModels.GetOutcomeHtml` returns None where the source raises on a missing log, and reads lines as given; how Python splits a file into lines is not modelled.
- The serializers (`src/vng/servervalidation/serializers.py`: lookups, `Error400` remapping, Celery dispatch) are plumbing and are not modelled.
- The migrations are not modelled: schema changes, seeding a row, and a random `uuid4` backfill.
- The design-rule evaluators and suite scoring are not modelled (`run_api_03_test_rules`, `run_api_20_test_rules`, `start_session`, `successful`, `percentage_score`). Only their tests are available, not their code.
