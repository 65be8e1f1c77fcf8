/** The IOI job generator as a state machine: what NextJob and JobCompleted do to its state. */
module IoiMachine {
  import opened Models
  import opened IoiJudge
  import Rounding

  datatype TestState = NotGiven | Running | Finished

  datatype Slot = Slot(result: TestResult, state: TestState)

  /** `closed` and `skip` are the groups with shouldGiveNewJobs unset and shouldMarkFinalTestsSkipped set.
      `crashed` records that the original panicked; nothing is modelled after that. */
  datatype State = State(
    sub: Submission, phase: Phase, given: map<Id, Job>,
    closed: set<string>, skip: set<string>, slots: seq<Slot>,
    firstNotCompletedTest: nat, firstNotCompletedGroup: nat, firstNotGivenTest: nat,
    crashed: bool)

  function FreshSlot(t: nat): Slot {
    Slot(Placeholder(t, RU), NotGiven)
  }

  function FreshSlots(n: nat): seq<Slot> {
    seq(n, i requires 0 <= i => FreshSlot(i + 1))
  }

  function Init(p: Problem, submitId: nat): State {
    State(FreshSubmission(submitId), NotStarted, map[], {}, {}, FreshSlots(p.tests), 1, 1, 1, false)
  }

  // ---------- what every operation relies on ----------

  /** The group cursor stands on the group of the test cursor, or both are past the end. */
  predicate CursorsAgree(p: Problem, test: nat, group: nat) {
    && 1 <= test <= p.tests + 1
    && 1 <= group <= |p.groups| + 1
    && (group <= |p.groups| ==> p.groups[group - 1].first <= test <= p.groups[group - 1].last)
    && (group == |p.groups| + 1 ==> test == p.tests + 1)
  }

  predicate Sized(p: Problem, s: State) {
    && Partitions(p)
    && |s.slots| == p.tests
    && 1 <= s.firstNotGivenTest <= p.tests + 1
    && 1 <= s.firstNotCompletedTest <= p.tests + 1
    && 1 <= s.firstNotCompletedGroup <= |p.groups| + 1
  }

  predicate HasCause(sub: Submission) {
    sub.verdict != RU || exists i :: 0 <= i < |sub.testResults| && sub.testResults[i].verdict !in {OK, SK}
  }

  predicate Bounded(p: Problem, s: State) {
    && WellFormed(p)
    && !s.crashed
    && Sized(p, s)
    && CursorsAgree(p, s.firstNotCompletedTest, s.firstNotCompletedGroup)
    && |s.sub.testResults| == s.firstNotCompletedTest - 1
    && |s.sub.groupResults| == s.firstNotCompletedGroup - 1
    && (forall id :: id in s.given && s.given[id].kind.TestJob? ==> IsTest(p, s.given[id].test))
    && (s.skip != {} ==> HasCause(s.sub))
    && ((exists i :: 0 <= i < |s.sub.testResults| && s.sub.testResults[i].verdict == SK) ==> HasCause(s.sub))
  }

  // ---------- NextJob ----------

  function GroupNameOfJob(p: Problem, job: Job): string
    requires Partitions(p)
  {
    if IsTest(p, job.test) then GroupOf(p, job.test).name else ""
  }

  predicate DependsOnJob(p: Problem, g: Group, job: Job)
    requires Partitions(p)
  {
    || (GroupNameOfJob(p, job) == g.name && g.scoring != EachTest)
    || GroupNameOfJob(p, job) in g.required
  }

  function SkipOne(s: State): State
    requires 1 <= s.firstNotGivenTest <= |s.slots|
  {
    var t := s.firstNotGivenTest;
    s.(slots := s.slots[t - 1 := s.slots[t - 1].(state := Finished)], firstNotGivenTest := t + 1)
  }

  /** Passes over the not yet given tests of groups that get no new jobs. */
  function Prune(p: Problem, s: State): (r: State)
    requires Partitions(p) && |s.slots| == p.tests && 1 <= s.firstNotGivenTest <= p.tests + 1
    ensures |r.slots| == p.tests && r.firstNotGivenTest <= p.tests + 1
    ensures r == s.(slots := r.slots, firstNotGivenTest := r.firstNotGivenTest)
    ensures s.firstNotGivenTest <= r.firstNotGivenTest
    decreases p.tests + 1 - s.firstNotGivenTest
  {
    var t := s.firstNotGivenTest;
    if t <= p.tests && GroupOf(p, t).name in s.closed then
      Prune(p, SkipOne(s))
    else s
  }

  /** Pruning marks exactly a run of tests of closed groups and stops at the first test of an open one. */
  lemma {:induction false} PruneMarksClosedTests(p: Problem, s: State)
    requires Sized(p, s)
    ensures var r := Prune(p, s);
            && (r.firstNotGivenTest <= p.tests ==> GroupOf(p, r.firstNotGivenTest).name !in r.closed)
            && (forall t :: s.firstNotGivenTest <= t < r.firstNotGivenTest ==> GroupOf(p, t).name in s.closed)
            && (forall i :: 0 <= i < p.tests ==>
                  r.slots[i] ==
                  if s.firstNotGivenTest <= i + 1 < r.firstNotGivenTest
                  then s.slots[i].(state := Finished) else s.slots[i])
    decreases p.tests + 1 - s.firstNotGivenTest
  {
    hide Partitions;
    var t := s.firstNotGivenTest;
    if t <= p.tests && GroupOf(p, t).name in s.closed {
      PruneMarksClosedTests(p, SkipOne(s));
    }
  }

  lemma BoundedIgnoresSlots(p: Problem, s: State, r: State)
    requires Bounded(p, s) && Sized(p, r)
    requires r == s.(slots := r.slots, firstNotGivenTest := r.firstNotGivenTest)
    ensures Bounded(p, r)
  {
  }

  lemma BoundedIsSized(p: Problem, s: State)
    requires Bounded(p, s)
    ensures Sized(p, s)
  {
  }

  lemma NothingToPrune(p: Problem, s: State)
    requires Sized(p, s) && s.firstNotGivenTest > p.tests
    ensures Prune(p, s) == s
  {
  }

  function TestJobFor(p: Problem, s: State, id: Id): Job
    requires Bounded(p, s) && s.firstNotGivenTest <= p.tests
  {
    var g := GroupOf(p, s.firstNotGivenTest);
    Job(id, s.sub.id, TestJob, s.firstNotGivenTest,
        set j | j in s.given && DependsOnJob(p, g, s.given[j]) :: j)
  }

  function Give(p: Problem, s: State, id: Id): State
    requires Bounded(p, s) && s.firstNotGivenTest <= p.tests
  {
    var t := s.firstNotGivenTest;
    s.(slots := s.slots[t - 1 := s.slots[t - 1].(state := Running)],
       given := s.given[id := TestJobFor(p, s, id)],
       firstNotGivenTest := t + 1)
  }

  function Ask(p: Problem, s: State, id: Id): (r: (State, Option<Job>))
    requires Bounded(p, s)
    ensures Bounded(p, r.0)
  {
    match s.phase
    case Started => (s, None)
    case NotStarted =>
      var job := Job(id, s.sub.id, CompileJob, 0, {});
      (s.(phase := Started, given := s.given[id := job]), Some(job))
    case Compiled =>
      var pruned := Prune(p, s);
      if pruned.firstNotGivenTest > p.tests then (pruned, None)
      else (Give(p, pruned, id), Some(TestJobFor(p, pruned, id)))
  }

  // ---------- JobCompleted ----------

  predicate Blocked(p: Problem, s: State)
    requires Bounded(p, s)
  {
    var t := s.firstNotCompletedTest;
    || t > p.tests
    || s.slots[t - 1].state == Running
    || (s.slots[t - 1].state == NotGiven && GroupOf(p, t).name !in s.skip)
  }

  function ResultToPublish(p: Problem, s: State): TestResult
    requires Bounded(p, s) && s.firstNotCompletedTest <= p.tests
  {
    var own := s.slots[s.firstNotCompletedTest - 1].result;
    if GroupOf(p, s.firstNotCompletedTest).name in s.skip then Placeholder(own.testNumber, SK) else Repair(own)
  }

  function SkipAfter(p: Problem, s: State): set<string>
    requires Bounded(p, s) && s.firstNotCompletedTest <= p.tests
  {
    var g := GroupOf(p, s.firstNotCompletedTest);
    if g.name !in s.skip && Prevents(g, ResultToPublish(p, s).verdict) then Propagate(p, 0, s.skip + {g.name})
    else s.skip
  }

  /** Publication touches the submission's results, the skip flags and the two cursors only. */
  predicate OnlyPublishes(s: State, r: State) {
    && r == s.(sub := r.sub, skip := r.skip, firstNotCompletedTest := r.firstNotCompletedTest,
               firstNotCompletedGroup := r.firstNotCompletedGroup, crashed := r.crashed)
    && r.sub == s.sub.(testResults := r.sub.testResults, groupResults := r.sub.groupResults)
  }

  /** Appends the result of the first unpublished test, and of its group when the test is its last. */
  function PublishOne(p: Problem, s: State): (r: State)
    requires Bounded(p, s) && s.firstNotCompletedTest <= p.tests
    ensures !r.crashed ==> Bounded(p, r) && r.firstNotCompletedTest == s.firstNotCompletedTest + 1
    ensures OnlyPublishes(s, r)
  {
    var t := s.firstNotCompletedTest;
    var g := GroupOf(p, t);
    var results := s.sub.testResults + [ResultToPublish(p, s)];
    var published := s.(sub := s.sub.(testResults := results), skip := SkipAfter(p, s));
    CursorIsGroupIndex(p, s.firstNotCompletedTest, s.firstNotCompletedGroup);
    CauseIsKept(p, s, published);
    GroupEndsInside(p, GroupIndex(p, t));
    if t == g.last then
      if GroupScore(g, results).None? then published.(crashed := true)
      else
        NextGroupStartsAfter(p, t);
        published.(sub := published.sub.(groupResults := s.sub.groupResults + [GroupResultOf(g, results)]),
                   firstNotCompletedGroup := s.firstNotCompletedGroup + 1,
                   firstNotCompletedTest := t + 1)
    else published.(firstNotCompletedTest := t + 1)
  }

  lemma CursorIsGroupIndex(p: Problem, test: nat, group: nat)
    requires Partitions(p) && CursorsAgree(p, test, group) && test <= p.tests
    ensures group <= |p.groups| && GroupIndex(p, test) == group - 1
  {
    GroupIndexUnique(p, test, group - 1);
  }

  lemma NextGroupStartsAfter(p: Problem, t: nat)
    requires Partitions(p) && IsTest(p, t) && t == GroupOf(p, t).last
    ensures CursorsAgree(p, t + 1, GroupIndex(p, t) + 2)
  {
    var i := GroupIndex(p, t);
    assert Adjacent(p, i);
    if i + 1 < |p.groups| {
      GroupEndsInside(p, i + 1);
    }
  }

  lemma CauseIsKept(p: Problem, s: State, r: State)
    requires Bounded(p, s) && s.firstNotCompletedTest <= p.tests
    requires r.sub == s.sub.(testResults := s.sub.testResults + [ResultToPublish(p, s)])
    requires r.skip == SkipAfter(p, s)
    ensures r.skip != {} ==> HasCause(r.sub)
    ensures (exists i :: 0 <= i < |r.sub.testResults| && r.sub.testResults[i].verdict == SK) ==> HasCause(r.sub)
  {
    var n := |s.sub.testResults|;
    assert HasCause(s.sub) ==> HasCause(r.sub) by {
      forall i | 0 <= i < n && s.sub.testResults[i].verdict !in {OK, SK}
        ensures HasCause(r.sub)
      {
        assert r.sub.testResults[i].verdict !in {OK, SK};
      }
    }
    if r.skip != s.skip {
      assert r.sub.testResults[n].verdict !in {OK, SK};
    }
    forall i | 0 <= i < |r.sub.testResults| && r.sub.testResults[i].verdict == SK
      ensures HasCause(r.sub)
    {
      assert i < n ==> s.sub.testResults[i].verdict == SK;
    }
  }

  function Publish(p: Problem, s: State): (r: State)
    requires Bounded(p, s)
    ensures !r.crashed ==> Bounded(p, r) && Blocked(p, r)
    ensures OnlyPublishes(s, r)
    decreases p.tests + 1 - s.firstNotCompletedTest
  {
    if Blocked(p, s) then s
    else
      var next := PublishOne(p, s);
      if next.crashed then next else Publish(p, next)
  }

  function Scored(s: State): State {
    s.(sub := s.sub.(score := s.sub.score + TotalPoints(s.sub.groupResults, |s.sub.groupResults|),
                     verdict := if s.sub.verdict == RU then FinalVerdict(s.sub.testResults, |s.sub.testResults|)
                                else s.sub.verdict))
  }

  function Update(p: Problem, s: State): (r: (State, Outcome))
    requires Bounded(p, s)
    ensures !r.0.crashed ==> Bounded(p, r.0)
  {
    var published := Publish(p, s);
    if published.crashed then (published, Panicked)
    else if published.firstNotCompletedTest > p.tests && |published.given| == 0 then
      FinalVerdictIsACause(published.sub.testResults, |published.sub.testResults|);
      var scored := Scored(published);
      (scored, Finalized(scored.sub))
    else (published, Pending)
  }

  lemma {:induction false} FinalVerdictIsACause(results: seq<TestResult>, k: nat)
    requires k <= |results|
    ensures FinalVerdict(results, k) in {OK, CF, PT}
    ensures FinalVerdict(results, k) == OK <==> forall i :: 0 <= i < k ==> results[i].verdict in {OK, SK}
  {
    if k > 0 {
      FinalVerdictIsACause(results, k - 1);
    }
  }

  function CompileDone(p: Problem, s: State, r: JobResult): State {
    var reported := s.(sub := s.sub.(compilation := Some(Rounding.CompileReport(r))));
    if r.verdict == CD then reported.(phase := Compiled)
    else reported.(sub := reported.sub.(verdict := CompileVerdict(r)), skip := s.skip + Names(p))
  }

  function ClosedAfter(p: Problem, s: State, t: nat, r: JobResult): set<string>
    requires Partitions(p) && IsTest(p, t)
  {
    var g := GroupOf(p, t);
    if Prevents(g, Populate(g, r).verdict) then Propagate(p, 0, s.closed + {g.name}) else s.closed
  }

  function TestDone(p: Problem, s: State, t: nat, r: JobResult): State
    requires Partitions(p) && IsTest(p, t) && |s.slots| == p.tests
  {
    s.(slots := s.slots[t - 1 := Slot(Built(p, t, r), Finished)], closed := ClosedAfter(p, s, t, r))
  }

  function Received(p: Problem, s: State, id: Id, r: JobResult): (s': State)
    requires Bounded(p, s) && id in s.given
    ensures Bounded(p, s')
  {
    var without := s.(given := s.given - {id});
    match s.given[id].kind
    case CompileJob => CompileDone(p, without, r)
    case TestJob => TestDone(p, without, s.given[id].test, r)
  }

  function Answer(p: Problem, s: State, id: Id, r: JobResult): (res: (State, Outcome))
    requires Bounded(p, s)
    ensures !res.0.crashed ==> Bounded(p, res.0)
  {
    if id !in s.given then (s, UnknownJob) else Update(p, Received(p, s, id, r))
  }

  /** What any answer does to the jobs and the give cursor. */
  lemma AnswerShape(p: Problem, s: State, id: Id, r: JobResult)
    requires Bounded(p, s) && id in s.given
    ensures var (n, outcome) := Answer(p, s, id, r);
            && n.given == s.given - {id} && n.firstNotGivenTest == s.firstNotGivenTest
            && (n.phase == s.phase || n.phase == Compiled)
            && (n.crashed <==> outcome.Panicked?)
            && (outcome.Panicked? || outcome.Pending? || outcome == Finalized(n.sub))
  {
    hide WellFormed, HasCause, Publish, Built, ClosedAfter, Propagate, Partitions, TotalPoints, FinalVerdict;
  }
}
