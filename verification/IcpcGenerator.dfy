/** The ICPC job generator: an object updated in place, proved to do what the state machine says. */
module IcpcGenerator {
  import opened Models
  import opened IcpcJudge
  import opened IcpcMachine
  import Rounding

  lemma ReportIsBuilt(r: JobResult)
    ensures Rounding.CompileReport(r) == Rounding.BuildTestResult(0,
              if r.verdict == CompileVerdict(r) then r
              else r.(verdict := CF, error := "unknown verdict for compile job: CF"))
  {
  }

  class ICPCGenerator {
    const testsNumber: nat
    var submission: Submission
    var state: Phase
    var firstTestToGive: nat
    var testedPrefixLength: nat
    var givenJobs: map<Id, Job>
    var internalTestResults: map<nat, TestResult>

    ghost predicate Valid() reads this {
      Bounded(testsNumber, View())
    }

    ghost function View(): State reads this {
      State(submission, state, givenJobs, internalTestResults, firstTestToGive, testedPrefixLength)
    }

    constructor (testsNumber: nat, submitId: nat)
      ensures this.testsNumber == testsNumber && Valid() && View() == Init(submitId)
    {
      this.testsNumber := testsNumber;
      submission := FreshSubmission(submitId);
      state := NotStarted;
      firstTestToGive := 1;
      testedPrefixLength := 0;
      givenJobs := map[];
      internalTestResults := map[];
    }

    method NextJob(id: Id) returns (job: Option<Job>)
      requires Valid()
      modifies this
      ensures Valid()
      ensures (View(), job) == Ask(testsNumber, old(View()), id)
    {
      if state == Started {
        return None;
      }
      var next: Job;
      if state == NotStarted {
        next := Job(id, submission.id, CompileJob, 0, {});
        state := Started;
      } else if firstTestToGive > testsNumber {
        return None;
      } else {
        next := Job(id, submission.id, TestJob, firstTestToGive, givenJobs.Keys);
        firstTestToGive := firstTestToGive + 1;
      }
      givenJobs := givenJobs[next.id := next];
      return Some(next);
    }

    method MarkRestSkipped()
      requires Valid()
      modifies this
      ensures View() == SetFail(testsNumber, old(View()))
    {
      hide Skips, Blocked;
      ghost var from, before := firstTestToGive, internalTestResults;
      OneMoreSkip(before, from, from);
      while firstTestToGive <= testsNumber
        invariant from <= firstTestToGive <= testsNumber + 1
        invariant internalTestResults == before + Skips(from, firstTestToGive)
        invariant View() == old(View()).(results := internalTestResults, firstTestToGive := firstTestToGive)
      {
        OneMoreSkip(before, from, firstTestToGive);
        internalTestResults := internalTestResults[firstTestToGive := Placeholder(firstTestToGive, SK)];
        firstTestToGive := firstTestToGive + 1;
      }
    }

    method PublishNext()
      requires Valid() && testedPrefixLength < testsNumber && testedPrefixLength + 1 in internalTestResults
      modifies this
      ensures View() == PublishOne(old(View()))
    {
      var result := internalTestResults[testedPrefixLength + 1];
      testedPrefixLength := testedPrefixLength + 1;
      if submission.verdict != RU {
        result := Placeholder(testedPrefixLength, SK);
      }
      match result.verdict {
        case OK =>
        case SK =>
          if submission.verdict == RU {
            result := result.(verdict := CF, error := SKIPPED_ERROR);
            submission := submission.(verdict := CF);
          }
        case _ =>
          // the original panics here when the verdict is already bad; that cannot happen
          assert submission.verdict == RU;
          submission := submission.(verdict := result.verdict);
      }
      submission := submission.(testResults := submission.testResults + [result]);
    }

    method UpdateSubmissionResult() returns (outcome: Outcome)
      requires Valid()
      modifies this
      ensures Valid()
      ensures (View(), outcome) == Update(testsNumber, old(View()))
    {
      while testedPrefixLength < testsNumber
        invariant Valid()
        invariant Publish(testsNumber, View()) == Publish(testsNumber, old(View()))
        decreases testsNumber - testedPrefixLength
      {
        if testedPrefixLength + 1 !in internalTestResults {
          return Pending;
        }
        PublishNext();
      }
      if submission.verdict == RU {
        submission := submission.(verdict := OK, score := 1.0);
      }
      return Finalized(submission);
    }

    method CompileJobCompleted(result: JobResult)
      requires Valid()
      modifies this
      ensures Valid()
      ensures View() == CompileDone(testsNumber, old(View()), result)
    {
      hide Skips, Rounding.BuildTestResult, Rounding.CompileReport;
      ReportIsBuilt(result);
      var reported := result;
      state := Compiled;
      match result.verdict {
        case CD =>
        case CE | CF =>
          submission := submission.(verdict := result.verdict);
          MarkRestSkipped();
        case _ =>
          reported := result.(verdict := CF, error := "unknown verdict for compile job: CF");
          submission := submission.(verdict := reported.verdict);
          MarkRestSkipped();
      }
      submission := submission.(compilation := Some(Rounding.BuildTestResult(0, reported)));
    }

    method TestJobCompleted(job: Job, result: JobResult)
      requires Valid()
      modifies this
      ensures Valid()
      ensures View() == TestDone(testsNumber, old(View()), job.test, result)
    {
      var reported := result;
      match result.verdict {
        case OK =>
        case PT | WA | RT | ML | TL | WL | SE | CF | SK =>
          MarkRestSkipped();
        case _ =>
          reported := result.(verdict := CF, error := UNKNOWN_VERDICT_ERROR);
          MarkRestSkipped();
      }
      internalTestResults := internalTestResults[job.test := Rounding.BuildTestResult(job.test, reported)];
    }

    method JobCompleted(id: Id, result: JobResult) returns (outcome: Outcome)
      requires Valid()
      modifies this
      ensures Valid()
      ensures (View(), outcome) == Answer(testsNumber, old(View()), id, result)
    {
      if id !in givenJobs {
        return Panicked;
      }
      var job := givenJobs[id];
      givenJobs := givenJobs - {id};
      match job.kind {
        case CompileJob => CompileJobCompleted(result);
        case TestJob => TestJobCompleted(job, result);
      }
      outcome := UpdateSubmissionResult();
    }
  }
}
