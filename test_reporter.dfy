/**
 * The TestReporter of the custom reporting suite: it collects one record
 * per test case, keeps a counter per status next to the list of records,
 * and stamps the end time, the duration and the pass rate when finalised.
 * The clock (Date.now() and its ISO rendering) and process.platform are
 * parameters.
 */
module Reporting {
  import opened Wrappers

  datatype Status = Passed | Failed | Skipped

  /** One recorded test case; the optional fields may be absent. */
  datatype TestMetrics = TestMetrics(
    name: string,
    duration: int,
    status: Status,
    error: Option<string>,
    retries: Option<int>,
    screenshots: Option<seq<string>>)

  datatype Viewport = Viewport(width: int, height: int)

  datatype Environment = Environment(browser: string, viewport: Viewport, userAgent: string, platform: string)

  /** The report object getReport hands out. */
  datatype SuiteReport = SuiteReport(
    name: string,
    startTime: string,
    endTime: string,
    duration: int,
    totalTests: int,
    passed: int,
    failed: int,
    skipped: int,
    passRate: Option<real>,
    tests: seq<TestMetrics>,
    environment: Environment)

  /** How many of the records have the given status. */
  function CountStatus(tests: seq<TestMetrics>, s: Status): (n: nat)
    ensures n <= |tests|
  {
    if tests == [] then 0
    else CountStatus(tests[..|tests| - 1], s) + (if tests[|tests| - 1].status == s then 1 else 0)
  }

  /** Counting over a concatenation adds the counts of the parts. */
  lemma {:induction false} CountStatusAppend(a: seq<TestMetrics>, b: seq<TestMetrics>, s: Status)
    ensures CountStatus(a + b, s) == CountStatus(a, s) + CountStatus(b, s)
  {
    if b == [] {
      assert a + b == a;
    } else {
      assert (a + b)[..|a + b| - 1] == a + b[..|b| - 1];
      CountStatusAppend(a, b[..|b| - 1], s);
    }
  }

  /** Every record has exactly one of the three statuses, so the counts add up to the number of records. */
  lemma {:induction false} StatusCountsSum(tests: seq<TestMetrics>)
    ensures CountStatus(tests, Passed) + CountStatus(tests, Failed) + CountStatus(tests, Skipped) == |tests|
  {
    if tests != [] {
      StatusCountsSum(tests[..|tests| - 1]);
    }
  }

  /**
   * `(passed / totalTests) * 100`, exactly. None stands for the NaN that
   * 0 / 0 gives before any test is recorded.
   */
  function PassRate(passed: nat, total: nat): (r: Option<real>)
    requires passed <= total
    ensures r.None? <==> total == 0
    ensures r.Some? ==> 0.0 <= r.value <= 100.0
    ensures r.Some? ==> (r.value > 0.0 <==> passed > 0)
    ensures r.Some? ==> (r.value == 100.0 <==> passed == total)
  {
    if total == 0 then None
    else
      RatioBounds(passed as real, total as real);
      Some((passed as real / total as real) * 100.0)
  }

  /** A part of a positive whole, divided by the whole, lies between 0 and 1. */
  lemma RatioBounds(part: real, whole: real)
    requires 0.0 <= part <= whole && whole > 0.0
    ensures 0.0 <= part / whole <= 1.0
    ensures part / whole > 0.0 <==> part > 0.0
    ensures part / whole == 1.0 <==> part == whole
  {
    var q := part / whole;
    assert q * whole == part;
  }

  class TestReporter {
    var name: string
    /** Date.now() when the reporter was made. */
    var startTimeMs: int
    var startTime: string
    var endTime: string
    var duration: int
    var totalTests: int
    var passed: int
    var failed: int
    var skipped: int
    var passRate: Option<real>
    var tests: seq<TestMetrics>
    var environment: Environment

    /** Every counter agrees with the list of records. */
    ghost predicate Valid()
      reads this
    {
      && totalTests == |tests|
      && passed == CountStatus(tests, Passed)
      && failed == CountStatus(tests, Failed)
      && skipped == CountStatus(tests, Skipped)
    }

    /** A new reporter: no records, every counter zero, no end time yet. */
    constructor (suiteName: string, browser: string, viewport: Viewport, nowMs: int, nowIso: string, platform: string)
      ensures Valid()
      ensures name == suiteName && startTimeMs == nowMs && startTime == nowIso
      ensures endTime == "" && duration == 0 && passRate == Some(0.0)
      ensures tests == [] && totalTests == 0 && passed == 0 && failed == 0 && skipped == 0
      ensures environment == Environment(browser, viewport, "", platform)
    {
      name := suiteName;
      startTimeMs := nowMs;
      startTime := nowIso;
      endTime := "";
      duration := 0;
      totalTests := 0;
      passed := 0;
      failed := 0;
      skipped := 0;
      passRate := Some(0.0);
      tests := [];
      environment := Environment(browser, viewport, "", platform);
    }

    /** addTest: appends the record and bumps the total and the counter of its status. */
    method AddTest(test: TestMetrics)
      requires Valid()
      modifies this
      ensures Valid()
      ensures tests == old(tests) + [test]
      ensures totalTests == old(totalTests) + 1
      ensures passed == old(passed) + (if test.status == Passed then 1 else 0)
      ensures failed == old(failed) + (if test.status == Failed then 1 else 0)
      ensures skipped == old(skipped) + (if test.status == Skipped then 1 else 0)
      ensures name == old(name) && startTimeMs == old(startTimeMs) && startTime == old(startTime)
      ensures endTime == old(endTime) && duration == old(duration) && passRate == old(passRate)
      ensures environment == old(environment)
    {
      assert (tests + [test])[..|tests|] == tests;
      tests := tests + [test];
      totalTests := totalTests + 1;
      if test.status == Passed {
        passed := passed + 1;
      }
      if test.status == Failed {
        failed := failed + 1;
      }
      if test.status == Skipped {
        skipped := skipped + 1;
      }
    }

    /** finalize: stamps the end time, the elapsed time and the pass rate; the records stay as they are. */
    method Finalize(nowMs: int, nowIso: string)
      requires Valid()
      modifies this
      ensures Valid()
      ensures endTime == nowIso
      ensures duration == nowMs - startTimeMs
      ensures passRate == PassRate(passed, totalTests)
      ensures tests == old(tests) && totalTests == old(totalTests)
      ensures passed == old(passed) && failed == old(failed) && skipped == old(skipped)
      ensures name == old(name) && startTimeMs == old(startTimeMs) && startTime == old(startTime)
      ensures environment == old(environment)
    {
      endTime := nowIso;
      duration := nowMs - startTimeMs;
      passRate := PassRate(passed, totalTests);
    }

    /** getReport: the counters it reports agree with its records. */
    function GetReport(): (r: SuiteReport)
      requires Valid()
      reads this
      ensures r.tests == tests && r.environment == environment
      ensures r.totalTests == |r.tests| == r.passed + r.failed + r.skipped
      ensures r.passed == CountStatus(r.tests, Passed)
      ensures r.failed == CountStatus(r.tests, Failed)
      ensures r.skipped == CountStatus(r.tests, Skipped)
    {
      StatusCountsSum(tests);
      SuiteReport(name, startTime, endTime, duration, totalTests, passed, failed, skipped, passRate, tests, environment)
    }

    /** The for loop of the suite: one record per case, in order. */
    method RecordCases(cases: seq<TestCase>)
      requires Valid()
      modifies this
      ensures Valid()
      ensures tests == old(tests) + MetricsOf(cases)
      ensures totalTests == old(totalTests) + |cases|
      ensures passed == old(passed) + Completions(cases)
      ensures failed == old(failed) + (|cases| - Completions(cases))
      ensures skipped == old(skipped)
      ensures name == old(name) && startTimeMs == old(startTimeMs) && startTime == old(startTime)
      ensures endTime == old(endTime) && duration == old(duration) && passRate == old(passRate)
      ensures environment == old(environment)
    {
      var i := 0;
      while i < |cases|
        invariant 0 <= i <= |cases|
        invariant Valid()
        invariant tests == old(tests) + MetricsOf(cases[..i])
        invariant name == old(name) && startTimeMs == old(startTimeMs) && startTime == old(startTime)
        invariant endTime == old(endTime) && duration == old(duration) && passRate == old(passRate)
        invariant environment == old(environment)
      {
        assert cases[..i + 1][..i] == cases[..i];
        AddTest(MetricsFor(cases[i]));
        i := i + 1;
      }
      assert cases[..i] == cases;
      MetricsOfCounts(cases);
      CountStatusAppend(old(tests), MetricsOf(cases), Passed);
      CountStatusAppend(old(tests), MetricsOf(cases), Failed);
      CountStatusAppend(old(tests), MetricsOf(cases), Skipped);
    }
  }

  /** How one case of the suite ended: it returned its duration, or it threw. */
  datatype Outcome = Completed(elapsed: int) | Threw(message: string)

  datatype TestCase = TestCase(caseName: string, outcome: Outcome)

  /**
   * The record for one case: a case that returns passes with its duration,
   * one that throws fails with duration 0 and the error's message.
   */
  function MetricsFor(c: TestCase): (m: TestMetrics)
    ensures m.name == c.caseName
    ensures m.status == Passed <==> c.outcome.Completed?
    ensures m.status == Failed <==> c.outcome.Threw?
    ensures c.outcome.Completed? ==> m.duration == c.outcome.elapsed && m.error.None?
    ensures c.outcome.Threw? ==> m.duration == 0 && m.error == Some(c.outcome.message)
    ensures m.retries.None? && m.screenshots.None?
  {
    match c.outcome
    case Completed(elapsed) => TestMetrics(c.caseName, elapsed, Passed, None, None, None)
    case Threw(message) => TestMetrics(c.caseName, 0, Failed, Some(message), None, None)
  }

  /** The records of the cases, in order. */
  function MetricsOf(cases: seq<TestCase>): (r: seq<TestMetrics>)
    ensures |r| == |cases|
  {
    if cases == [] then [] else MetricsOf(cases[..|cases| - 1]) + [MetricsFor(cases[|cases| - 1])]
  }

  /** How many of the cases returned normally. */
  function Completions(cases: seq<TestCase>): (n: nat)
    ensures n <= |cases|
  {
    if cases == [] then 0
    else Completions(cases[..|cases| - 1]) + (if cases[|cases| - 1].outcome.Completed? then 1 else 0)
  }

  /** The records of the cases count one pass per completed case, one failure per other case, and no skip. */
  lemma {:induction false} MetricsOfCounts(cases: seq<TestCase>)
    ensures CountStatus(MetricsOf(cases), Passed) == Completions(cases)
    ensures CountStatus(MetricsOf(cases), Failed) == |cases| - Completions(cases)
    ensures CountStatus(MetricsOf(cases), Skipped) == 0
  {
    if cases != [] {
      var init := cases[..|cases| - 1];
      MetricsOfCounts(init);
      assert MetricsOf(cases)[..|cases| - 1] == MetricsOf(init);
    }
  }

  /**
   * The suite's own test: a new reporter, one record per case, finalised.
   * It reports one test per case, and its pass rate is positive exactly
   * when some case completed.
   */
  method RunSuite(suiteName: string, browser: string, viewport: Viewport, platform: string,
                  startMs: int, startIso: string, cases: seq<TestCase>, endMs: int, endIso: string)
    returns (report: SuiteReport)
    ensures report.totalTests == |cases| == |report.tests|
    ensures report.tests == MetricsOf(cases)
    ensures report.passed == Completions(cases) && report.skipped == 0
    ensures report.duration == endMs - startMs
    ensures cases != [] ==> report.passRate.Some?
    ensures report.passRate.Some? ==> (report.passRate.value > 0.0 <==> exists i :: 0 <= i < |cases| && cases[i].outcome.Completed?)
  {
    var reporter := new TestReporter(suiteName, browser, viewport, startMs, startIso, platform);
    reporter.RecordCases(cases);
    reporter.Finalize(endMs, endIso);
    report := reporter.GetReport();
    CompletionsPositive(cases);
  }

  /** Some case completed exactly when the completion count is positive. */
  lemma {:induction false} CompletionsPositive(cases: seq<TestCase>)
    ensures Completions(cases) > 0 <==> exists i :: 0 <= i < |cases| && cases[i].outcome.Completed?
  {
    if cases != [] {
      var init := cases[..|cases| - 1];
      CompletionsPositive(init);
      if Completions(init) > 0 {
        var i :| 0 <= i < |init| && init[i].outcome.Completed?;
        assert cases[i] == init[i];
      }
      if exists i :: 0 <= i < |cases| && cases[i].outcome.Completed? {
        var i :| 0 <= i < |cases| && cases[i].outcome.Completed?;
        if i < |init| {
          assert init[i] == cases[i];
        }
      }
    }
  }
}
