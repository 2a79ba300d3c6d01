# DynamoDB connection latency test: verified model

The application in `app.py` probes a DynamoDB endpoint forever: every few
seconds it makes one `list_tables(Limit=1)` call with retries disabled, logs
the outcome as `SUCCESS`, `TIMEOUT` or `FAILED`, counts the test as a success
or a failure, and after every tenth test logs a `SUMMARY` line with the running
totals and the success rate.

This project models the two pieces of that program that carry logic:

- **Failure classification** (`test_dynamodb_connection`). When the call
  raises, the failure is tagged `TIMEOUT` if the lower-cased exception text
  contains `"timeout"` or `"timed out"`, and `FAILED` otherwise; the function
  returns `True` exactly when the call returned. Module `Text` (`text.dfy`)
  models the two string operations involved, `str.lower` and the substring
  test `in`. Module `Probe` (`probe.dfy`) models the probe: the call's outcome
  is an input (`CallResult`: `Returned`, or `Raised` with the exception text),
  `Classify` gives the log tag and `TestConnection` the return value.
- **The counting loop** (`main`). Module `Monitor` (`monitor.dfy`) has the
  loop as a method, `RunMonitor`, over a finite sequence of probe call results.
  It updates local counters as the source does and is proved against the
  specification functions `Tally` (the three counters after a sequence of
  results) and `Summaries` (the summary lines written along the way). Lemmas
  state what those functions mean: the counts of true and false results, one
  test and one success-or-failure per iteration, counters that never decrease,
  and summaries exactly on tests 10, 20, 30, ... with a rate in [0, 100].

## Model

| member | source | states |
|---|---|---|
| `Text.Lower` | app.py:51 | `Lower` models `str.lower`: its result has the length of its input and folds each character by itself, ASCII upper-case letters to lower-case and all else unchanged |
| `Text.Contains` | app.py:51 | the substring test `needle in hay`: the empty needle occurs in every string, and a needle longer than the hay never occurs |
| `Text.ContainsIffOccurs` | app.py:51 | the substring test `needle in hay` succeeds if and only if some offset of `hay` holds `needle` |
| `Text.LowerIdempotent` | app.py:51 | lower-casing an already lower-cased string changes nothing |
| `Text.LowerEqualIgnoringCase` | app.py:51 | strings that differ only in the case of ASCII letters have the same lower-case form |
| `Probe.IsTimeoutMessage` | app.py:51 | the condition of the `if`: true if and only if the lower-cased text holds "timeout" or "timed out" as a substring |
| `Probe.Classify` | app.py:42-54 | the tag is SUCCESS exactly when the call returned; a raised call is TIMEOUT or FAILED |
| `Probe.TestConnection` | app.py:32-55 | the probe returns true exactly when SUCCESS is logged and false for both TIMEOUT and FAILED, so every `Exception` the call raises is caught and reported as false |
| `Probe.TimeoutIffSubstring` | app.py:51-54 | a failure is TIMEOUT if and only if its lower-cased text holds "timeout" or "timed out" at some offset, and FAILED if and only if it holds neither |
| `Probe.ClassifyIgnoresCase` | app.py:51 | two failure texts that agree up to ASCII letter case get the same tag |
| `Probe.ClassifyOfLowered` | app.py:51 | lower-casing the failure text first does not change its tag |
| `Probe.UpperTimeoutIsTimeout` | app.py:51-52 | "Connect TIMEOUT" is tagged TIMEOUT |
| `Probe.MixedCaseTimedOutIsTimeout` | app.py:51-52 | "Read Timed Out" is tagged TIMEOUT |
| `Probe.UpperTimedOutIsTimeout` | app.py:51-52 | "TIMED OUT" is tagged TIMEOUT |
| `Probe.ConnectTimeoutIsTimeout` | app.py:51-52 | "Connect timeout on endpoint" is tagged TIMEOUT |
| `Probe.AccessDeniedIsFailed` | app.py:51-54 | "Access denied" is tagged FAILED |
| `Probe.SpacedTimeOutIsFailed` | app.py:51-54 | "time out", with a space, is tagged FAILED |
| `Monitor.Record` | app.py:67-73 | one iteration adds exactly one test and raises exactly one of the success and failure counts by one, the success count exactly when the result is true; no counter decreases |
| `Monitor.Tally` | app.py:62-73 | after n results the test count is n and equals the success count plus the failure count |
| `Monitor.SuccessRate` | app.py:77 | with at least one test and no more successes than tests the rate lies in [0, 100]; it is 0 exactly when nothing succeeded and 100 exactly when everything did |
| `Monitor.SummaryDue` | app.py:76 | a summary is due exactly when the test count is a whole number of tens, so the first one comes no earlier than test 10 |
| `Monitor.SummaryOf` | app.py:77-78 | a summary line carries the three counters and a rate with rate * total == 100 * successes, between 0 and 100 |
| `Monitor.Summaries` | app.py:75-78 | every summary line reports a positive multiple of ten tests, no more than have run, split into successes and failures, at a rate in [0, 100] |
| `Monitor.Results` | app.py:68-70 | the loop sees one result per probe call, true exactly when that call returned |
| `Monitor.RunMonitor` | app.py:62-80 | the loop, run over a finite sequence of probe calls, ends with the counters of `Tally` over their results and has written exactly the summary lines of `Summaries` |
| `Monitor.TallyCounts` | app.py:62-73 | the counters start at zero; the success count is the number of true results and the failure count the number of false ones |
| `Monitor.TallyStep` | app.py:67-73 | each iteration raises the test count by exactly one and exactly one of the success and failure counts by one, chosen by the probe result |
| `Monitor.TallyMonotone` | app.py:66-73 | no counter decreases from one iteration to a later one |
| `Monitor.SummariesCount` | app.py:75-76 | after n tests exactly n / 10 summary lines have been written |
| `Monitor.SummaryAt` | app.py:75-78 | the j-th summary line (from 0) is written on test 10 * (j + 1) and reports the counters after exactly that many results |
| `Monitor.SummaryStep` | app.py:76 | an iteration writes a summary line if and only if its new test count is a multiple of ten, and keeps the earlier lines |

## Left out

- The boto3 client, its `Config` (connect and read timeouts, retries disabled) and the `list_tables(Limit=1)` network call: the call's outcome is an input (`Probe.CallResult`).
- Round-trip timing with `time.time()` and its millisecond arithmetic: wall-clock floats.
- The table count in the success log line and the exception type name in the failure log lines: they only feed log text.
- The text, timestamps and formatting of the log lines, including the `.1f` rounding of the success rate: `Monitor.SuccessRate` is the exact quotient as a real number. The model keeps the SUCCESS/TIMEOUT/FAILED tag (`Probe.Classify`) and the fields of each SUMMARY line (`Monitor.Summaries`).
- Monitor.RunMonitor: does not collect the SUCCESS/TIMEOUT/FAILED tag the source logs on every iteration; it returns only the counters and the summary lines.
- `time.sleep(TEST_INTERVAL)` and the endless `while True`: the loop is modelled over a finite sequence of probe results.
- Reading `CONNECTION_TIMEOUT`, `READ_TIMEOUT` and `TEST_INTERVAL` from the environment with `float()` and `int()`: configuration plumbing.
- Text.Lower: folds only the ASCII letters A-Z and keeps the length; Python's `str.lower` also lower-cases other Unicode letters and can lengthen a string (U+0130 becomes two code points), which is not modelled.
- Probe.TestConnection: `except Exception` does not catch `BaseException` subclasses such as `KeyboardInterrupt` or `SystemExit`; in the source those propagate out of the probe and end the loop in `main`. `Probe.CallResult` has no case for them, so that path is not modelled.
