/**
 * The test report: its records with their default values, and the builder
 * that starts a report, appends step results while keeping the pass/fail
 * counters, and finalises it.
 *
 * The clock and the random identifier are inputs: an `Instant` carries the
 * ISO text, the seconds value and the compact `YYYYMMDD_HHMMSS` text of one
 * reading of the clock, and `uuidHex` is the hexadecimal text of a fresh
 * UUID. Writing the JSON file is left out; `FinishTest` returns its name.
 */
module Reporting {
  import opened Wrappers
  import opened Text

  /** A value loaded from the test document: what a step's parameters may hold. */
  datatype Datum = NullDatum | BoolDatum(b: bool) | NumDatum(x: real) | StrDatum(s: string) | OtherDatum

  /** The exceptions a run can raise, standing for their `str()` text. */
  datatype Fault =
    | TypeError
    | ValueError
    | SpeedBelowMin(speed: real, limit: real)
    | SpeedAboveMax(speed: real, limit: real)
    | TemperatureAboveMax(temperature: real, limit: real)
    | ValidationError
    | UnboundLocalError

  /** A failure reason: a fixed message or the text of an exception. */
  datatype Reason = Message(text: string) | Raised(fault: Fault)

  /** A reading bound that may still be the initial infinity. */
  datatype Extended = Finite(value: real) | PosInfinity | NegInfinity

  /** What a step observed: nothing, or the speed range and peak temperature of a monitor window. */
  datatype Observation = NoObservation | MonitorSummary(minSpeed: Extended, maxSpeed: Extended, maxTemperature: Extended)

  datatype Instant = Instant(iso: string, seconds: real, compact: string)

  datatype TestInfo = TestInfo(name: string, version: string, author: string, description: Option<string>)

  datatype ExecutionInfo = ExecutionInfo(
    testId: string, startedAt: string, endedAt: Option<string>,
    durationS: real, status: string, environment: string)

  datatype StepResult = StepResult(
    step: string, description: string, status: string,
    inputParams: map<string, Datum>, observed: Option<Observation>, failureDetails: Option<Fault>)

  datatype AppSummary = AppSummary(overallResult: string, passedSteps: nat, failedSteps: nat, failureReason: Option<Reason>)

  datatype AppMetrics = AppMetrics(maxTemperatureC: real, avgSpeedRpm: real, testDurationS: real)

  datatype TestReport = TestReport(
    testInfo: TestInfo, executionInfo: ExecutionInfo, summary: AppSummary,
    steps: seq<StepResult>, metrics: AppMetrics, artifacts: map<string, Datum>)

  /** The record defaults: a test is by an unknown author at version 1.0, an execution pending in simulation. */
  function DefaultTestInfo(name: string): (t: TestInfo)
    ensures t.name == name && t.version == "1.0" && t.author == "Unknown" && t.description.None?
  {
    TestInfo(name, "1.0", "Unknown", None)
  }

  function DefaultExecutionInfo(testId: string, startedAt: string): (e: ExecutionInfo)
    ensures e.testId == testId && e.startedAt == startedAt && e.endedAt.None?
    ensures e.durationS == 0.0 && e.status == "PENDING" && e.environment == "SIMULATION"
  {
    ExecutionInfo(testId, startedAt, None, 0.0, "PENDING", "SIMULATION")
  }

  function DefaultStepResult(step: string, description: string): (r: StepResult)
    ensures r.step == step && r.description == description && r.status == "PENDING"
    ensures r.inputParams == map[] && r.observed.None? && r.failureDetails.None?
  {
    StepResult(step, description, "PENDING", map[], None, None)
  }

  const DefaultSummary := AppSummary("PENDING", 0, 0, None)
  const ZeroMetrics := AppMetrics(0.0, 0.0, 0.0)

  /** The number of results whose status is exactly `PASS`. */
  function PassCount(steps: seq<StepResult>): (n: nat)
    ensures n <= |steps|
  {
    if |steps| == 0 then 0
    else PassCount(steps[..|steps| - 1]) + (if steps[|steps| - 1].status == "PASS" then 1 else 0)
  }

  lemma PassCountAppend(steps: seq<StepResult>, r: StepResult)
    ensures PassCount(steps + [r]) == PassCount(steps) + (if r.status == "PASS" then 1 else 0)
  {
    assert (steps + [r])[..|steps|] == steps;
  }

  /** Every result is a pass exactly when the pass count is the length. */
  lemma {:induction false} PassCountAll(steps: seq<StepResult>)
    ensures PassCount(steps) == |steps| <==> forall i :: 0 <= i < |steps| ==> steps[i].status == "PASS"
  {
    if |steps| > 0 {
      var init := steps[..|steps| - 1];
      PassCountAll(init);
      assert forall i :: 0 <= i < |init| ==> init[i] == steps[i];
    }
  }

  /** The counters agree with the recorded results: passes counted in `passed`, every other status in `failed`. */
  predicate Consistent(r: TestReport)
  {
    r.summary.passedSteps == PassCount(r.steps)
    && r.summary.failedSteps == |r.steps| - PassCount(r.steps)
  }

  /** `report_{name with spaces as underscores}_{start time}.json`. */
  function ReportFileName(name: string, compact: string): (f: string)
    ensures |f| == |name| + |compact| + 13
    ensures f[..7] == "report_" && f[|f| - 5..] == ".json"
    ensures forall i :: 0 <= i < |name| ==> f[7 + i] == if name[i] == ' ' then '_' else name[i]
    ensures f[7 + |name|..|f| - 5] == "_" + compact
  {
    var f := "report_" + Replace(name, ' ', '_') + "_" + compact + ".json";
    assert f[7 + |name|..|f| - 5] == "_" + compact;
    f
  }

  class ReportBuilder {
    var report: Option<TestReport>
    var startTime: Option<Instant>

    ghost predicate Valid()
      reads this
    {
      (report.Some? <==> startTime.Some?)
      && (report.Some? ==> Consistent(report.value))
    }

    constructor ()
      ensures Valid() && report.None? && startTime.None?
    {
      report := None;
      startTime := None;
    }

    /** `start_test`: a fresh running report with no results and zeroed counters and metrics. */
    method StartTest(name: string, description: string, author: string, uuidHex: string, now: Instant)
      returns (testId: string)
      requires |uuidHex| >= 8
      modifies this
      ensures Valid()
      ensures testId == "test_" + uuidHex[..8]
      ensures startTime == Some(now)
      ensures report == Some(TestReport(
        TestInfo(name, "1.0", author, Some(description)),
        ExecutionInfo(testId, now.iso, None, 0.0, "RUNNING", "SIMULATION"),
        DefaultSummary, [], ZeroMetrics, map[]))
    {
      startTime := Some(now);
      testId := "test_" + uuidHex[..8];
      var info := TestInfo(name, "1.0", author, Some(description));
      var execution := DefaultExecutionInfo(testId, now.iso).(status := "RUNNING");
      report := Some(TestReport(info, execution, DefaultSummary, [], ZeroMetrics, map[]));
    }

    /** `add_step_result`: appends the result and bumps the counter its status selects. */
    method AddStepResult(result: StepResult)
      requires Valid() && report.Some?
      modifies this
      ensures Valid() && report.Some? && startTime == old(startTime)
      ensures report.value.steps == old(report.value.steps) + [result]
      ensures report.value.summary.passedSteps
        == old(report.value.summary.passedSteps) + (if result.status == "PASS" then 1 else 0)
      ensures report.value.summary.failedSteps
        == old(report.value.summary.failedSteps) + (if result.status == "PASS" then 0 else 1)
      ensures report.value.summary.overallResult == old(report.value.summary.overallResult)
      ensures report.value.summary.failureReason == old(report.value.summary.failureReason)
      ensures report.value.testInfo == old(report.value.testInfo)
      ensures report.value.executionInfo == old(report.value.executionInfo)
      ensures report.value.metrics == old(report.value.metrics)
      ensures report.value.artifacts == old(report.value.artifacts)
    {
      var r := report.value;
      PassCountAppend(r.steps, result);
      var summary := if result.status == "PASS"
        then r.summary.(passedSteps := r.summary.passedSteps + 1)
        else r.summary.(failedSteps := r.summary.failedSteps + 1);
      report := Some(r.(steps := r.steps + [result], summary := summary));
    }

    /**
     * `finish_test`: records the end time and duration, sets the execution
     * status and the overall result to `status`, stores the reason, takes the
     * metrics from a non-empty statistics map (missing entries read 0.0), and
     * returns the report's file name.
     */
    method FinishTest(status: string, reason: Option<Reason>, stats: Option<map<string, real>>, end: Instant)
      returns (fileName: string)
      requires Valid() && report.Some?
      modifies this
      ensures Valid() && report.Some? && startTime == old(startTime)
      ensures var duration := end.seconds - old(startTime).value.seconds;
        report.value.executionInfo == old(report.value.executionInfo).(
          endedAt := Some(end.iso), durationS := duration, status := status)
        && report.value.metrics == (if stats.Some? && stats.value != map[]
            then AppMetrics(
              if "max_temp" in stats.value then stats.value["max_temp"] else 0.0,
              if "avg_speed" in stats.value then stats.value["avg_speed"] else 0.0,
              duration)
            else old(report.value.metrics))
      ensures report.value.summary == old(report.value.summary).(overallResult := status, failureReason := reason)
      ensures report.value.steps == old(report.value.steps)
      ensures report.value.testInfo == old(report.value.testInfo)
      ensures report.value.artifacts == old(report.value.artifacts)
      ensures fileName == ReportFileName(report.value.testInfo.name, startTime.value.compact)
    {
      var r := report.value;
      var duration := end.seconds - startTime.value.seconds;
      var execution := r.executionInfo.(endedAt := Some(end.iso), durationS := duration, status := status);
      var summary := r.summary.(overallResult := status, failureReason := reason);
      var metrics := r.metrics;
      if stats.Some? && stats.value != map[] {
        metrics := AppMetrics(
          if "max_temp" in stats.value then stats.value["max_temp"] else 0.0,
          if "avg_speed" in stats.value then stats.value["avg_speed"] else 0.0,
          duration);
      }
      report := Some(r.(executionInfo := execution, summary := summary, metrics := metrics));
      fileName := ReportFileName(r.testInfo.name, startTime.value.compact);
    }
  }
}
