/** The judge loop of an admitted run: one result per test, under one deadline.

    Running one test in the container is an oracle: for the test at a position and the
    timeout it is given, `runner` says what came out and how long the call took. */
module Judge {
  import opened Integers
  import opened Wrappers
  import opened Scoring

  const DOCKER_TIMEOUT_MS := 8000
  const MAX_CODE_LENGTH := 100_000
  const MAX_TEST_CASES := 50
  const MAX_JUDGE_DURATION_MS := 30_000

  datatype TestCase = TestCase(input: string, expectedOutput: string, isPublic: bool)

  datatype RunSingleResult = RunSingleResult(
    passed: bool, actualOutput: string, error: Option<string>, executionTimeMs: nat)

  datatype Attempt = Attempt(result: RunSingleResult, elapsedMs: nat)

  type Runner = (nat, TestCase, int) -> Attempt

  datatype TestResult = TestResult(
    testIndex: nat, input: string, expectedOutput: string, actualOutput: string, passed: bool,
    error: Option<string>, executionTimeMs: nat, isPublic: bool)

  datatype Verdict = Verdict(
    status: RunStatus, error: Option<string>, executionTimeMs: int,
    passedTests: nat, totalTests: nat, testResults: seq<TestResult>)

  const SKIPPED := RunSingleResult(false, "", Some("Overall judge time limit exceeded."), 0)

  /** The timeout given to a test when `remainingMs` are left. */
  function TimeoutFor(remainingMs: int): int {
    Max(1, Min(DOCKER_TIMEOUT_MS, remainingMs))
  }

  // ------------------------------------------------------------------------
  // What the loop computes, test by test
  // ------------------------------------------------------------------------

  /** The clock when test `k` is reached. */
  ghost function ClockAt(runner: Runner, tests: seq<TestCase>, startedAt: int, k: nat): int
    requires k <= |tests|
  {
    if k == 0 then startedAt
    else
      var now := ClockAt(runner, tests, startedAt, k - 1);
      if now < startedAt + MAX_JUDGE_DURATION_MS
      then now + runner(k - 1, tests[k - 1], TimeoutFor(startedAt + MAX_JUDGE_DURATION_MS - now)).elapsedMs
      else now
  }

  /** Whether test `k` is started at all: not at or after the deadline. */
  ghost predicate Runs(runner: Runner, tests: seq<TestCase>, startedAt: int, k: nat)
    requires k <= |tests|
  {
    ClockAt(runner, tests, startedAt, k) < startedAt + MAX_JUDGE_DURATION_MS
  }

  ghost function ResultAt(runner: Runner, tests: seq<TestCase>, startedAt: int, k: nat): RunSingleResult
    requires k < |tests|
  {
    if Runs(runner, tests, startedAt, k)
    then
      runner(k, tests[k], TimeoutFor(startedAt + MAX_JUDGE_DURATION_MS - ClockAt(runner, tests, startedAt, k))).result
    else SKIPPED
  }

  /** A test that is reached is run for eight seconds, or for what is left until 30,000 ms
      from the start if that is less; with nothing left it is skipped and takes no time. */
  ghost predicate Timed(runner: Runner, tests: seq<TestCase>, startedAt: int, k: nat, result: RunSingleResult)
    requires k < |tests|
  {
    var now, next := ClockAt(runner, tests, startedAt, k), ClockAt(runner, tests, startedAt, k + 1);
    var left := startedAt + 30_000 - now;
    && (left >= 8_000 ==> Attempt(result, next - now) == runner(k, tests[k], 8_000))
    && (0 < left < 8_000 ==> Attempt(result, next - now) == runner(k, tests[k], left))
    && (left <= 0 ==>
          next == now && result == RunSingleResult(false, "", Some("Overall judge time limit exceeded."), 0))
  }

  lemma TestsAreTimed(runner: Runner, tests: seq<TestCase>, startedAt: int, k: nat)
    requires k < |tests|
    ensures ClockAt(runner, tests, startedAt, 0) == startedAt
    ensures Timed(runner, tests, startedAt, k, ResultAt(runner, tests, startedAt, k))
  {
  }

  /** Every test passes, in at most 600 ms, if it is given as much. */
  ghost predicate PassesIn600(runner: Runner) {
    forall index, test, timeoutMs :: timeoutMs >= 600 ==>
      runner(index, test, timeoutMs).result.passed && runner(index, test, timeoutMs).elapsedMs <= 600
  }

  /** A program that needs no more than 600 ms for a test passes all of fifty. */
  lemma {:induction false} FastProgramPasses(runner: Runner, tests: seq<TestCase>, startedAt: int, k: nat)
    requires PassesIn600(runner) && k < |tests| <= 50
    ensures ResultAt(runner, tests, startedAt, k).passed
    ensures startedAt <= ClockAt(runner, tests, startedAt, k) <= startedAt + 600 * k
  {
    TestsAreTimed(runner, tests, startedAt, k);
    if k > 0 {
      FastProgramPasses(runner, tests, startedAt, k - 1);
      TestsAreTimed(runner, tests, startedAt, k - 1);
    }
  }

  /** Once a test is skipped every later test is, and the clock stands still. */
  lemma {:induction false} SkippingIsFinal(runner: Runner, tests: seq<TestCase>, startedAt: int, j: nat, k: nat)
    requires j <= k <= |tests| && !Runs(runner, tests, startedAt, j)
    ensures !Runs(runner, tests, startedAt, k)
    ensures ClockAt(runner, tests, startedAt, k) == ClockAt(runner, tests, startedAt, j)
  {
    if j < k {
      SkippingIsFinal(runner, tests, startedAt, j, k - 1);
    }
  }

  ghost predicate RespectsTimeouts(runner: Runner) {
    forall index, test, timeoutMs :: timeoutMs >= 1 ==> runner(index, test, timeoutMs).elapsedMs <= timeoutMs
  }

  /** If every run respects its timeout, the whole judgement ends by the deadline. */
  lemma {:induction false} EndsByDeadline(runner: Runner, tests: seq<TestCase>, startedAt: int, k: nat)
    requires RespectsTimeouts(runner) && k <= |tests|
    ensures startedAt <= ClockAt(runner, tests, startedAt, k) <= startedAt + 30_000
  {
    if k > 0 {
      EndsByDeadline(runner, tests, startedAt, k - 1);
    }
  }

  // ------------------------------------------------------------------------
  // Counting passed tests
  // ------------------------------------------------------------------------

  function CountPassed(results: seq<RunSingleResult>): (n: nat)
    ensures n <= |results|
  {
    if results == [] then 0
    else CountPassed(results[..|results| - 1]) + (if results[|results| - 1].passed then 1 else 0)
  }

  lemma {:induction false} CountPassedExtremes(results: seq<RunSingleResult>)
    ensures CountPassed(results) == |results| <==> forall i :: 0 <= i < |results| ==> results[i].passed
    ensures CountPassed(results) == 0 <==> forall i :: 0 <= i < |results| ==> !results[i].passed
  {
    if results != [] {
      CountPassedExtremes(results[..|results| - 1]);
    }
  }

  // ------------------------------------------------------------------------
  // The verdict
  // ------------------------------------------------------------------------

  ghost predicate AllPassed(v: Verdict) {
    forall i :: 0 <= i < |v.testResults| ==> v.testResults[i].passed
  }

  ghost predicate NonePassed(v: Verdict) {
    forall i :: 0 <= i < |v.testResults| ==> !v.testResults[i].passed
  }

  ghost predicate IsFirstFailure(results: seq<TestResult>, k: int) {
    0 <= k < |results| && !results[k].passed && forall j :: 0 <= j < k ==> results[j].passed
  }

  /** What every verdict keeps, however the judgement ended. */
  ghost predicate Coherent(v: Verdict) {
    && |v.testResults| == v.totalTests
    && v.passedTests <= v.totalTests
    && (v.passedTests > 0 ==> v.totalTests <= MAX_TEST_CASES)
    && (v.passedTests == v.totalTests <==> AllPassed(v))
    && (v.passedTests == 0 <==> NonePassed(v))
    && (v.status == SUCCESS ==> AllPassed(v))
    && (v.totalTests > 0 && AllPassed(v) ==> v.status == SUCCESS)
    && (forall i :: 0 <= i < |v.testResults| ==> v.testResults[i].testIndex == i + 1)
    && (v.status == SUCCESS ==> v.error == None)
    && (forall k :: IsFirstFailure(v.testResults, k) ==> v.error == v.testResults[k].error)
  }

  /** The limits of a request, and the languages. */
  lemma RejectedExactlyIf(normalizedLanguage: string, blank: bool, codeLength: nat, tests: seq<TestCase>)
    ensures Rejected(normalizedLanguage, blank, codeLength, tests)
       <==> || blank || codeLength > 100_000 || |tests| > 50
            || !(normalizedLanguage == "javascript" || normalizedLanguage == "js"
                 || normalizedLanguage == "python" || normalizedLanguage == "py")
  {
  }

  predicate Rejected(normalizedLanguage: string, blank: bool, codeLength: nat, tests: seq<TestCase>) {
    || blank
    || codeLength > MAX_CODE_LENGTH || |tests| > MAX_TEST_CASES
    || normalizedLanguage !in {"javascript", "js", "python", "py"}
  }

  /** `failed`: every test is reported as failed with the same error. */
  method Failed(error: string, tests: seq<TestCase>) returns (v: Verdict)
    ensures Coherent(v) && v.status == FAILED && v.passedTests == 0 && v.totalTests == |tests|
    ensures v.error == Some(error) && v.executionTimeMs == 0 && NonePassed(v)
    ensures forall i :: 0 <= i < |tests| ==>
              v.testResults[i].input == tests[i].input && v.testResults[i].error == Some(error)
  {
    v := Verdict(FAILED, Some(error), 0, 0, |tests|,
                 seq(|tests|, i requires 0 <= i < |tests| =>
                   TestResult(i + 1, tests[i].input, tests[i].expectedOutput, "", false, Some(error), 0,
                              tests[i].isPublic)));
    if |tests| > 0 {
      assert !v.testResults[0].passed;
    }
  }

  function Report(tests: seq<TestCase>, results: seq<RunSingleResult>, i: nat): TestResult
    requires i < |tests| == |results|
  {
    TestResult(i + 1, tests[i].input, tests[i].expectedOutput, results[i].actualOutput, results[i].passed,
               results[i].error, results[i].executionTimeMs, tests[i].isPublic)
  }

  /** The first result that did not pass, if any. */
  function FirstFailure(results: seq<RunSingleResult>): (i: nat)
    ensures i <= |results|
    ensures forall j :: 0 <= j < i ==> results[j].passed
    ensures i < |results| ==> !results[i].passed
  {
    if results == [] || !results[0].passed then 0 else 1 + FirstFailure(results[1..])
  }

  /** The loop of `judgeAdmitted`, with the clock at its end. */
  method RunTests(tests: seq<TestCase>, startedAt: int, runner: Runner)
    returns (results: seq<RunSingleResult>, now: int)
    ensures |results| == |tests| && now == ClockAt(runner, tests, startedAt, |tests|)
    ensures forall k :: 0 <= k < |tests| ==> results[k] == ResultAt(runner, tests, startedAt, k)
    ensures forall k :: 0 <= k < |tests| ==> Timed(runner, tests, startedAt, k, results[k])
    ensures RespectsTimeouts(runner) ==> startedAt <= now <= startedAt + 30_000
  {
    var deadlineAt := startedAt + MAX_JUDGE_DURATION_MS;
    now := startedAt;
    results := [];
    var index := 0;
    while index < |tests|
      invariant index <= |tests| && |results| == index
      invariant now == ClockAt(runner, tests, startedAt, index)
      invariant forall k :: 0 <= k < index ==> results[k] == ResultAt(runner, tests, startedAt, k)
    {
      var remainingMs := deadlineAt - now;
      if remainingMs <= 0 {
        var skipped := index;
        while skipped < |tests|
          invariant index <= skipped <= |tests| && |results| == skipped
          invariant forall k :: 0 <= k < skipped ==> results[k] == ResultAt(runner, tests, startedAt, k)
        {
          SkippingIsFinal(runner, tests, startedAt, index, skipped);
          results := results + [SKIPPED];
          skipped := skipped + 1;
        }
        SkippingIsFinal(runner, tests, startedAt, index, |tests|);
        break;
      }
      var attempt := runner(index, tests[index], TimeoutFor(remainingMs));
      now := now + attempt.elapsedMs;
      results := results + [attempt.result];
      index := index + 1;
    }
    forall k: nat | k < |tests|
      ensures Timed(runner, tests, startedAt, k, results[k])
    {
      TestsAreTimed(runner, tests, startedAt, k);
    }
    if RespectsTimeouts(runner) {
      EndsByDeadline(runner, tests, startedAt, |tests|);
    }
  }

  /** `judgeAdmitted`.  `blank` says that the code is empty after trimming, the
      language is already lower-cased, and `startedAt` is the clock at the start. */
  method JudgeAdmitted(normalizedLanguage: string, blank: bool, codeLength: nat, tests: seq<TestCase>, startedAt: int,
                       runner: Runner)
    returns (v: Verdict)
    ensures Coherent(v)
    ensures Rejected(normalizedLanguage, blank, codeLength, tests) ==>
              && v.status == FAILED && NonePassed(v)
              && v.error == Some(if blank then "Code is empty."
                                 else if codeLength > 100_000 || |tests| > 50
                                 then "Code or test case count exceeds the runner limit."
                                 else "Language '" + normalizedLanguage
                                      + "' is not supported by the Docker runner yet.")
              && v.totalTests == if !blank && (codeLength > MAX_CODE_LENGTH || |tests| > MAX_TEST_CASES)
                                 then Min(|tests|, MAX_TEST_CASES) else |tests|
    ensures !Rejected(normalizedLanguage, blank, codeLength, tests) ==>
              && v.totalTests == |tests|
              && v.executionTimeMs == ClockAt(runner, tests, startedAt, |tests|) - startedAt
              && (forall k :: 0 <= k < |tests| ==>
                    var r := ResultAt(runner, tests, startedAt, k);
                    v.testResults[k]
                    == TestResult(k + 1, tests[k].input, tests[k].expectedOutput, r.actualOutput, r.passed,
                                  r.error, r.executionTimeMs, tests[k].isPublic))
    ensures RespectsTimeouts(runner) ==> v.executionTimeMs <= 30_000
    ensures PassesIn600(runner) && !Rejected(normalizedLanguage, blank, codeLength, tests) ==> AllPassed(v)
  {
    if blank {
      v := Failed("Code is empty.", tests);
      return;
    }
    if codeLength > MAX_CODE_LENGTH || |tests| > MAX_TEST_CASES {
      v := Failed("Code or test case count exceeds the runner limit.",
                  if |tests| > MAX_TEST_CASES then tests[..MAX_TEST_CASES] else tests);
      return;
    }
    if normalizedLanguage !in {"javascript", "js", "python", "py"} {
      v := Failed("Language '" + normalizedLanguage + "' is not supported by the Docker runner yet.", tests);
      return;
    }
    var results, now := RunTests(tests, startedAt, runner);
    v := Summarize(tests, results, now - startedAt);
    if PassesIn600(runner) {
      forall k: nat | k < |tests|
        ensures results[k].passed
      {
        FastProgramPasses(runner, tests, startedAt, k);
      }
    }
  }

  method Summarize(tests: seq<TestCase>, results: seq<RunSingleResult>, elapsedMs: int) returns (v: Verdict)
    requires |results| == |tests| <= MAX_TEST_CASES
    ensures Coherent(v) && v.totalTests == |tests| && v.executionTimeMs == elapsedMs
    ensures forall i :: 0 <= i < |tests| ==> v.testResults[i] == Report(tests, results, i)
  {
    var failure := FirstFailure(results);
    CountPassedExtremes(results);
    v := Verdict(if failure < |results| then FAILED else SUCCESS,
                 if failure < |results| then results[failure].error else None,
                 elapsedMs, CountPassed(results), |tests|,
                 seq(|tests|, i requires 0 <= i < |tests| => Report(tests, results, i)));
    assert forall i :: 0 <= i < |tests| ==> v.testResults[i].passed == results[i].passed;
    assert forall k :: IsFirstFailure(v.testResults, k) ==> k == failure;
  }

  /** Because no verdict with a passed test has more than fifty tests, rounding
      never turns a partial result into full marks or into nothing. */
  lemma VerdictScore(v: Verdict)
    requires Coherent(v)
    ensures 0 <= SubmissionScore(v.passedTests, v.totalTests, v.status) <= 100
    ensures v.totalTests > 0 ==>
              && (SubmissionScore(v.passedTests, v.totalTests, v.status) == 100 <==> AllPassed(v))
              && (SubmissionScore(v.passedTests, v.totalTests, v.status) == 0 <==> NonePassed(v))
    ensures v.totalTests == 0 ==>
              SubmissionScore(v.passedTests, v.totalTests, v.status) == if v.status == FAILED then 0 else 100
  {
    ScoreInRange(v.passedTests, v.totalTests, v.status);
    if v.totalTests > 0 {
      ScoreExtremes(v.passedTests, v.totalTests, v.status);
    }
  }
}
