/** The monitoring loop (`main` in app.py). Three counters start at zero;
    each iteration runs one probe, counts it as a test and as either a success
    or a failure, and every tenth test adds a summary line with the running
    totals and the success rate. The source loops forever and sleeps between
    probes; here the loop runs over a finite sequence of probe call results. */
module Monitor {
  import opened Probe

  /** A summary line is written after every this many tests. */
  const SummaryEvery: nat := 10

  /** The loop's three counters: `test_count`, `success_count`, `failure_count`. */
  datatype Counters = Counters(tests: nat, successes: nat, failures: nat)

  /** The fields of one SUMMARY line. The rate is the exact quotient; the
      source prints a rounded float. */
  datatype Summary = Summary(total: nat, succeeded: nat, failed: nat, rate: real)

  /** The counters before the first iteration. */
  const Initial := Counters(0, 0, 0)

  /** One iteration's update of the counters for a probe result `ok`. */
  function Record(c: Counters, ok: bool): (r: Counters)
    ensures r.tests == c.tests + 1
    ensures r.successes + r.failures == c.successes + c.failures + 1
    ensures c.successes <= r.successes && c.failures <= r.failures
    ensures ok <==> r.successes == c.successes + 1
    ensures !ok <==> r.failures == c.failures + 1
  {
    if ok then Counters(c.tests + 1, c.successes + 1, c.failures)
    else Counters(c.tests + 1, c.successes, c.failures + 1)
  }

  /** The counters after the loop has seen the probe results `rs`, in order.
      Every test is counted as exactly one success or one failure. */
  function Tally(rs: seq<bool>): (c: Counters)
    ensures c.tests == |rs|
    ensures c.tests == c.successes + c.failures
  {
    if rs == [] then Initial else Record(Tally(rs[..|rs| - 1]), rs[|rs| - 1])
  }

  /** The iteration that brought the test count to `tests` writes a summary. */
  predicate SummaryDue(tests: nat)
    ensures SummaryDue(tests) <==> (tests / SummaryEvery) * SummaryEvery == tests
    ensures SummaryDue(tests) && 0 < tests ==> SummaryEvery <= tests
  {
    tests % SummaryEvery == 0
  }

  /** `(success_count / test_count) * 100`, defined only when a test has run. */
  function SuccessRate(successes: nat, tests: nat): (r: real)
    requires 0 < tests && successes <= tests
    ensures 0.0 <= r <= 100.0
    ensures r == 0.0 <==> successes == 0
    ensures r == 100.0 <==> successes == tests
    ensures r * tests as real == 100.0 * successes as real
  {
    (successes as real / tests as real) * 100.0
  }

  /** The summary line written for the counters `c`. */
  function SummaryOf(c: Counters): (s: Summary)
    requires 0 < c.tests && c.tests == c.successes + c.failures
    ensures s.total == c.tests && s.succeeded == c.successes && s.failed == c.failures
    ensures s.rate * s.total as real == 100.0 * s.succeeded as real
    ensures 0.0 <= s.rate <= 100.0
  {
    Summary(c.tests, c.successes, c.failures, SuccessRate(c.successes, c.tests))
  }

  /** The summary lines written while the loop sees the results `rs`, in
      order. Each reports a positive multiple of ten tests, split into
      successes and failures, at a rate between 0 and 100. */
  function Summaries(rs: seq<bool>): (s: seq<Summary>)
    ensures forall k :: 0 <= k < |s| ==>
              0 < s[k].total <= |rs| && s[k].total % SummaryEvery == 0 &&
              s[k].succeeded + s[k].failed == s[k].total &&
              0.0 <= s[k].rate <= 100.0
  {
    if rs == [] then []
    else
      var before := Summaries(rs[..|rs| - 1]);
      if SummaryDue(|rs|) then before + [SummaryOf(Tally(rs))] else before
  }

  /** The results the probes report, one per call. */
  function Results(probes: seq<CallResult>): (rs: seq<bool>)
    ensures |rs| == |probes|
    ensures forall i :: 0 <= i < |probes| ==> (rs[i] <==> probes[i].Returned?)
  {
    seq(|probes|, i requires 0 <= i < |probes| => TestConnection(probes[i]))
  }

  /** The loop of `main`, run over the finite sequence of probe calls
      `probes`: it ends with the counters of all the results and with the
      summary lines written on the way. */
  method RunMonitor(probes: seq<CallResult>)
    returns (testCount: nat, successCount: nat, failureCount: nat, summaries: seq<Summary>)
    ensures Counters(testCount, successCount, failureCount) == Tally(Results(probes))
    ensures summaries == Summaries(Results(probes))
  {
    ghost var rs := Results(probes);
    testCount, successCount, failureCount := 0, 0, 0;
    summaries := [];
    var i := 0;
    while i < |probes|
      invariant 0 <= i <= |probes|
      invariant Counters(testCount, successCount, failureCount) == Tally(rs[..i])
      invariant summaries == Summaries(rs[..i])
    {
      testCount := testCount + 1;
      var result := TestConnection(probes[i]);
      if result {
        successCount := successCount + 1;
      } else {
        failureCount := failureCount + 1;
      }
      assert rs[..i + 1][..i] == rs[..i];
      if testCount % 10 == 0 {
        var rate := SuccessRate(successCount, testCount);
        summaries := summaries + [Summary(testCount, successCount, failureCount, rate)];
      }
      i := i + 1;
    }
    assert rs[..i] == rs;
  }

  /** After any run of results, the success count is the number of true
      results and the failure count the number of false ones. */
  lemma {:induction false} TallyCounts(rs: seq<bool>)
    ensures Tally(rs) == Counters(|rs|, multiset(rs)[true], multiset(rs)[false])
  {
    if rs != [] {
      var n := |rs| - 1;
      TallyCounts(rs[..n]);
      assert rs == rs[..n] + [rs[n]];
    }
  }

  /** One more iteration adds exactly one test, and exactly one success or
      one failure as the probe result says; nothing else changes. */
  lemma TallyStep(rs: seq<bool>, ok: bool)
    ensures Tally(rs + [ok]).tests == Tally(rs).tests + 1
    ensures Tally(rs + [ok]).successes == Tally(rs).successes + (if ok then 1 else 0)
    ensures Tally(rs + [ok]).failures == Tally(rs).failures + (if ok then 0 else 1)
  {
  }

  /** No counter ever decreases: the counters after a prefix of the results
      are at most those after the whole run. */
  lemma {:induction false} TallyMonotone(rs: seq<bool>, k: nat)
    requires k <= |rs|
    ensures Tally(rs[..k]).tests <= Tally(rs).tests
    ensures Tally(rs[..k]).successes <= Tally(rs).successes
    ensures Tally(rs[..k]).failures <= Tally(rs).failures
    decreases |rs|
  {
    if k < |rs| {
      var n := |rs| - 1;
      assert rs[..n][..k] == rs[..k];
      TallyMonotone(rs[..n], k);
    } else {
      assert rs[..k] == rs;
    }
  }

  /** A summary is written exactly on tests 10, 20, 30, ...: after `n`
      results there are `n / 10` of them. */
  lemma {:induction false} SummariesCount(rs: seq<bool>)
    ensures |Summaries(rs)| == |rs| / SummaryEvery
  {
    if rs != [] {
      SummariesCount(rs[..|rs| - 1]);
    }
  }

  /** The `j`-th summary line (from 0) reports the counters after exactly
      `10 * (j + 1)` results. */
  lemma {:induction false} SummaryAt(rs: seq<bool>, j: nat)
    requires j < |Summaries(rs)|
    ensures (j + 1) * SummaryEvery <= |rs|
    ensures Summaries(rs)[j] == SummaryOf(Tally(rs[..(j + 1) * SummaryEvery]))
    decreases |rs|
  {
    var n := |rs| - 1;
    var before := Summaries(rs[..n]);
    SummariesCount(rs[..n]);
    if j < |before| {
      SummaryAt(rs[..n], j);
      assert rs[..n][..(j + 1) * SummaryEvery] == rs[..(j + 1) * SummaryEvery];
    } else {
      SummariesCount(rs);
      assert |rs| == (j + 1) * SummaryEvery;
      assert rs[..|rs|] == rs;
    }
  }

  /** One more iteration writes one summary line exactly when the new test
      count is a multiple of ten, and keeps the lines written before. */
  lemma SummaryStep(rs: seq<bool>, ok: bool)
    ensures |Summaries(rs + [ok])| ==
              |Summaries(rs)| + (if (|rs| + 1) % SummaryEvery == 0 then 1 else 0)
    ensures Summaries(rs + [ok])[..|Summaries(rs)|] == Summaries(rs)
  {
  }
}
