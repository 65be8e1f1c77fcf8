/** The records the master, the invokers and the job generators exchange. */
module Models {

  datatype Option<+T> = None | Some(value: T)

  /** The range of the original's unsigned 64-bit numbers. */
  const TWO_TO_64: nat := 0x1_0000_0000_0000_0000

  /** A UUIDv7. Only freshness and equality of identifiers matter here. */
  type Id = nat

  /** A verdict is a string in the original; `Unlisted` stands for every string it does not name. */
  datatype Verdict =
    | OK | PT | WA | WR | RT | ML | TL | WL | SE | CE | CD | CF | SK | RU
    | Unlisted(text: string)

  datatype Statistics = Statistics(time: nat, memory: nat, wallTime: nat, exitCode: int)

  /** What an invoker reports for one job. */
  datatype JobResult = JobResult(
    verdict: Verdict, points: Option<real>, error: string, statistics: Option<Statistics>)

  datatype JobKind = CompileJob | TestJob

  /** `required` is a set because the original fills it in map iteration order. */
  datatype Job = Job(id: Id, submitId: nat, kind: JobKind, test: nat, required: set<Id>)

  datatype TestResult = TestResult(
    testNumber: nat, verdict: Verdict, points: Option<real>,
    time: Option<nat>, memory: Option<nat>, wallTime: Option<nat>,
    error: string, exitCode: Option<int>)

  datatype GroupResult = GroupResult(name: string, points: real, passed: bool)

  datatype Submission = Submission(
    id: nat, verdict: Verdict, score: real,
    testResults: seq<TestResult>, compilation: Option<TestResult>, groupResults: seq<GroupResult>)

  /** Progress of the compilation job of a submission. */
  datatype Phase = NotStarted | Started | Compiled

  function FreshSubmission(id: nat): Submission {
    Submission(id, RU, 0.0, [], None, [])
  }

  function Placeholder(test: nat, verdict: Verdict): TestResult {
    TestResult(test, verdict, None, None, None, None, "", None)
  }

  /** Everything an adversarial environment may choose for one submission:
      the compiler's answer and, for every test, the answer its run would give. */
  datatype Oracle = Oracle(compile: JobResult, tests: seq<JobResult>)

  /** The result of a job, named `id` by whoever may have stopped it, is the oracle's, or SK if it was stopped. */
  predicate Honest(o: Oracle, stopped: set<Id>, id: Id, job: Job, r: JobResult) {
    if job.kind == CompileJob then r == o.compile
    else 1 <= job.test <= |o.tests| && (r == o.tests[job.test - 1] || (id in stopped && r.verdict == SK))
  }

  /** The jobs the registry stops because of a result: those that require its job, unless it is OK or PT. */
  function Stops(given: map<Id, Job>, id: Id, r: JobResult): set<Id> {
    if r.verdict == OK || r.verdict == PT then {} else set k | k in given && id in given[k].required :: k
  }

  predicate RunsTest(given: map<Id, Job>, id: Id, t: nat) {
    id in given && given[id].test == t
  }

  ghost predicate HasJob(given: map<Id, Job>, t: nat) {
    exists id :: RunsTest(given, id, t)
  }

  /** The verdict of a compilation: anything but CD and CE is treated as CF. */
  function CompileVerdict(r: JobResult): Verdict {
    if r.verdict == CD || r.verdict == CE then r.verdict else CF
  }

  /** What a generator's JobCompleted returns. */
  datatype Outcome = UnknownJob | Pending | Finalized(sub: Submission) | Panicked

  /** What one generator and its jobs go through: NextJob with a fresh identifier, a result taken in by the
      registry, and JobCompleted with a result, which comes in a later critical section. */
  datatype Event = Asked(id: Id) | Accepted(id: Id, r: JobResult) | Answered(id: Id, r: JobResult)

  /** Identifiers never run out. */
  lemma {:induction false} FreshId(used: set<Id>) returns (id: Id)
    ensures id !in used && forall k :: k in used ==> k < id
  {
    if used == {} {
      id := 0;
    } else {
      var k :| k in used;
      var above := FreshId(used - {k});
      id := if above <= k then k + 1 else above;
      assert used == (used - {k}) + {k};
    }
  }
}
