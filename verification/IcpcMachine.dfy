/** The ICPC job generator as a state machine, and why every run of it ends with the sequential judge's submission. */
module IcpcMachine {
  import opened Models
  import opened IcpcJudge
  import Rounding

  datatype State = State(
    sub: Submission, phase: Phase, given: map<Id, Job>,
    results: map<nat, TestResult>, firstTestToGive: nat, testedPrefixLength: nat)

  function Init(submitId: nat): State {
    State(FreshSubmission(submitId), NotStarted, map[], map[], 1, 0)
  }

  predicate Bounded(n: nat, s: State) {
    1 <= s.firstTestToGive <= n + 1 && s.testedPrefixLength <= n
  }

  // ---------- NextJob ----------

  function TestJobFor(s: State, id: Id): Job {
    Job(id, s.sub.id, TestJob, s.firstTestToGive, s.given.Keys)
  }

  function Give(s: State, id: Id): State {
    s.(given := s.given[id := TestJobFor(s, id)], firstTestToGive := s.firstTestToGive + 1)
  }

  function Ask(n: nat, s: State, id: Id): (State, Option<Job>) {
    match s.phase
    case Started => (s, None)
    case NotStarted =>
      var job := Job(id, s.sub.id, CompileJob, 0, {});
      (s.(phase := Started, given := s.given[id := job]), Some(job))
    case Compiled =>
      if s.firstTestToGive > n then (s, None) else (Give(s, id), Some(TestJobFor(s, id)))
  }

  // ---------- JobCompleted ----------

  /** Placeholders for the tests from `from` up to, but not including, `to`. */
  function Skips(from: nat, to: nat): map<nat, TestResult> {
    map t: nat | from <= t < to :: Placeholder(t, SK)
  }

  lemma OneMoreSkip(before: map<nat, TestResult>, from: nat, to: nat)
    requires from <= to
    ensures before + Skips(from, from) == before
    ensures (before + Skips(from, to))[to := Placeholder(to, SK)] == before + Skips(from, to + 1)
  {
  }

  /** setFail: no test not given yet will be. */
  function SetFail(n: nat, s: State): State
    requires Bounded(n, s)
  {
    s.(results := s.results + Skips(s.firstTestToGive, n + 1), firstTestToGive := n + 1)
  }

  function CompileDone(n: nat, s: State, r: JobResult): State
    requires Bounded(n, s)
  {
    var reported := s.(phase := Compiled, sub := s.sub.(compilation := Some(Rounding.CompileReport(r))));
    if r.verdict == CD then reported
    else SetFail(n, reported.(sub := reported.sub.(verdict := CompileVerdict(r))))
  }

  function TestDone(n: nat, s: State, t: nat, r: JobResult): State
    requires Bounded(n, s)
  {
    var failed := if r.verdict == OK then s else SetFail(n, s);
    failed.(results := failed.results[t := Built(t, r)])
  }

  /** Appends the result of the first unpublished test. */
  function PublishOne(s: State): State
    requires s.testedPrefixLength + 1 in s.results
  {
    var t := s.testedPrefixLength + 1;
    var shown := if s.sub.verdict != RU then Placeholder(t, SK) else Repair(s.results[t]);
    var settled := if shown.verdict == SK || shown.verdict == OK then s.sub.verdict else shown.verdict;
    s.(testedPrefixLength := t, sub := s.sub.(testResults := s.sub.testResults + [shown], verdict := settled))
  }

  predicate Blocked(n: nat, s: State) {
    s.testedPrefixLength >= n || s.testedPrefixLength + 1 !in s.results
  }

  function Publish(n: nat, s: State): (r: State)
    requires Bounded(n, s)
    ensures Bounded(n, r) && Blocked(n, r)
    ensures r == s.(sub := r.sub, testedPrefixLength := r.testedPrefixLength)
    decreases n - s.testedPrefixLength
  {
    if Blocked(n, s) then s else Publish(n, PublishOne(s))
  }

  function Accepted(s: State): State {
    if s.sub.verdict == RU then s.(sub := s.sub.(verdict := OK, score := 1.0)) else s
  }

  function Update(n: nat, s: State): (r: (State, Outcome))
    requires Bounded(n, s)
    ensures Bounded(n, r.0) && Blocked(n, r.0)
  {
    var published := Publish(n, s);
    if published.testedPrefixLength < n then (published, Pending)
    else (Accepted(published), Finalized(Accepted(published).sub))
  }

  function Received(n: nat, s: State, id: Id, r: JobResult): (s': State)
    requires Bounded(n, s) && id in s.given
    ensures Bounded(n, s')
  {
    var without := s.(given := s.given - {id});
    match s.given[id].kind
    case CompileJob => CompileDone(n, without, r)
    case TestJob => TestDone(n, without, s.given[id].test, r)
  }

  /** Unlike the IOI generator, this one panics on a job it did not give. */
  function Answer(n: nat, s: State, id: Id, r: JobResult): (res: (State, Outcome))
    requires Bounded(n, s)
    ensures Bounded(n, res.0)
  {
    if id !in s.given then (s, Panicked) else Update(n, Received(n, s, id, r))
  }

  /** What any answer does to the jobs and the give cursor. */
  lemma AnswerShape(n: nat, s: State, id: Id, r: JobResult)
    requires Bounded(n, s) && id in s.given
    ensures var (s', outcome) := Answer(n, s, id, r);
            && s'.given == s.given - {id} && s.firstTestToGive <= s'.firstTestToGive
            && (s'.phase == s.phase || s'.phase == Compiled)
            && (outcome.Pending? || outcome == Finalized(s'.sub))
  {
    hide Publish, Built, Skips, Blocked;
  }

  // ---------- the environment ----------

  /** `stopped` holds the jobs the registry asked an invoker to stop; `used` every identifier ever drawn. */
  datatype World = World(s: State, stopped: set<Id>, used: set<Id>)

  predicate Allowed(o: Oracle, w: World, e: Event) {
    match e
    case Asked(id) => id !in w.used
    case Accepted(id, r) => id in w.s.given && Honest(o, w.stopped, id, w.s.given[id], r)
    case Answered(id, r) => id in w.s.given && Honest(o, w.stopped, id, w.s.given[id], r)
  }

  function Next(n: nat, w: World, e: Event): World
    requires Bounded(n, w.s)
  {
    match e
    case Asked(id) => World(Ask(n, w.s, id).0, w.stopped, w.used + {id})
    case Accepted(id, r) => World(w.s, w.stopped + Stops(w.s.given, id, r), w.used)
    case Answered(id, r) => World(Answer(n, w.s, id, r).0, w.stopped, w.used)
  }

  function Start(submitId: nat): World {
    World(Init(submitId), {}, {})
  }

  predicate Run(o: Oracle, w: World, es: seq<Event>, r: World)
    decreases |es|
  {
    if es == [] then w == r
    else Bounded(|o.tests|, w.s) && Allowed(o, w, es[0]) && Run(o, Next(|o.tests|, w, es[0]), es[1..], r)
  }

  // ---------- the invariant ----------

  /** Where test t stands: not given, running, or with a result that is the oracle's unless the judge skips it. */
  ghost predicate TestOK(o: Oracle, s: State, t: nat)
    requires 1 <= t <= |o.tests|
  {
    && (t < s.firstTestToGive <==> t in s.results || HasJob(s.given, t))
    && (t in s.results ==> !HasJob(s.given, t))
    && (t in s.results ==> VerdictAfter(o, t - 1) != RU || s.results[t] == Built(t, o.tests[t - 1]))
    && (t <= s.testedPrefixLength ==> t in s.results)
  }

  ghost predicate TestsOK(o: Oracle, s: State) {
    forall t: nat {:trigger TestOK(o, s, t)} :: 1 <= t <= |o.tests| ==> TestOK(o, s, t)
  }

  /** A given job runs the test of its own; what it requires are jobs given before it. */
  ghost predicate JobOK(o: Oracle, w: World, id: Id)
    requires id in w.s.given
  {
    var job := w.s.given[id];
    && job.kind == TestJob && job.id == id && 1 <= job.test <= |o.tests|
    && id in w.used && job.required <= w.used
    && (forall j :: j in job.required && j in w.s.given ==> w.s.given[j].test < job.test)
    && (id in w.stopped ==> VerdictAfter(o, job.test - 1) != RU)
  }

  ghost predicate JobsOK(o: Oracle, w: World) {
    && w.stopped <= w.used
    && (forall id {:trigger JobOK(o, w, id)} :: id in w.s.given ==> JobOK(o, w, id))
    && (forall i, j, t {:trigger RunsTest(w.s.given, i, t), RunsTest(w.s.given, j, t)} ::
          RunsTest(w.s.given, i, t) && RunsTest(w.s.given, j, t) ==> i == j)
  }

  ghost predicate PublishedOK(o: Oracle, submitId: nat, s: State)
    requires s.testedPrefixLength <= |o.tests|
  {
    s.sub == Submission(submitId, VerdictAfter(o, s.testedPrefixLength), 0.0,
                        JudgeTests(o, s.testedPrefixLength), Some(Rounding.CompileReport(o.compile)), [])
  }

  ghost predicate Judged(o: Oracle, submitId: nat, s: State) {
    s.testedPrefixLength == |o.tests| && s.sub == Judge(o, submitId)
  }

  ghost predicate Live(o: Oracle, submitId: nat, w: World) {
    && TestsOK(o, w.s) && JobsOK(o, w) && Blocked(|o.tests|, w.s)
    && if w.s.testedPrefixLength < |o.tests| then PublishedOK(o, submitId, w.s) else Judged(o, submitId, w.s)
  }

  ghost predicate Compiling(submitId: nat, w: World) {
    exists id :: id in w.used &&
      w == World(Init(submitId).(phase := Started, given := map[id := Job(id, submitId, CompileJob, 0, {})]),
                 {}, w.used)
  }

  ghost predicate Inv(o: Oracle, submitId: nat, w: World) {
    && Bounded(|o.tests|, w.s)
    && match w.s.phase
       case NotStarted => w == World(Init(submitId), {}, w.used)
       case Started => Compiling(submitId, w)
       case Compiled => Live(o, submitId, w)
  }

  // ---------- publication ----------

  lemma PublishOneIsJudge(o: Oracle, submitId: nat, s: State)
    requires Bounded(|o.tests|, s) && !Blocked(|o.tests|, s)
    requires TestsOK(o, s) && PublishedOK(o, submitId, s)
    ensures TestsOK(o, PublishOne(s)) && PublishedOK(o, submitId, PublishOne(s))
  {
    var t := s.testedPrefixLength + 1;
    assert TestOK(o, s, t);
    OwnIsListed(o, t);
    AdvanceKeepsTests(o, s, PublishOne(s));
  }

  lemma AdvanceKeepsTests(o: Oracle, s: State, r: State)
    requires TestsOK(o, s) && r == s.(sub := r.sub, testedPrefixLength := r.testedPrefixLength)
    requires r.testedPrefixLength == s.testedPrefixLength || r.testedPrefixLength in s.results
    requires r.testedPrefixLength <= s.testedPrefixLength + 1
    ensures TestsOK(o, r)
  {
    hide VerdictAfter, Built;
    forall t: nat | 1 <= t <= |o.tests|
      ensures TestOK(o, r, t)
    {
      assert TestOK(o, s, t);
    }
  }

  lemma {:induction false} PublishIsJudge(o: Oracle, submitId: nat, s: State)
    requires Bounded(|o.tests|, s) && TestsOK(o, s) && PublishedOK(o, submitId, s)
    ensures var r := Publish(|o.tests|, s); TestsOK(o, r) && PublishedOK(o, submitId, r)
    decreases |o.tests| - s.testedPrefixLength
  {
    if !Blocked(|o.tests|, s) {
      PublishOneIsJudge(o, submitId, s);
      PublishIsJudge(o, submitId, PublishOne(s));
    }
  }

  lemma UpdateMakesLive(o: Oracle, submitId: nat, w: World)
    requires Bounded(|o.tests|, w.s) && TestsOK(o, w.s) && PublishedOK(o, submitId, w.s) && JobsOK(o, w)
    ensures Live(o, submitId, w.(s := Update(|o.tests|, w.s).0))
  {
    PublishIsJudge(o, submitId, w.s);
    var published := Publish(|o.tests|, w.s);
    var s := Update(|o.tests|, w.s).0;
    SameJobsOK(o, w, w.(s := s));
    AdvanceKeepsTests(o, published, s);
  }

  lemma SameJobsOK(o: Oracle, w: World, r: World)
    requires JobsOK(o, w) && r.s.given == w.s.given && r.stopped == w.stopped && w.used <= r.used
    ensures JobsOK(o, r)
  {
    forall id | id in r.s.given
      ensures JobOK(o, r, id)
    {
      assert JobOK(o, w, id);
    }
    forall i, j, t | RunsTest(r.s.given, i, t) && RunsTest(r.s.given, j, t)
      ensures i == j
    {
      assert RunsTest(w.s.given, i, t) && RunsTest(w.s.given, j, t);
    }
  }

  // ---------- giving tests ----------

  lemma AskKeepsLive(o: Oracle, submitId: nat, w: World, id: Id)
    requires Bounded(|o.tests|, w.s) && w.s.phase == Compiled && id !in w.used && Live(o, submitId, w)
    ensures Live(o, submitId, Next(|o.tests|, w, Asked(id)))
  {
    if w.s.firstTestToGive <= |o.tests| {
      GiveKeepsTests(o, w, id);
      GiveKeepsJobs(o, w, id);
    } else {
      SameJobsOK(o, w, w.(used := w.used + {id}));
    }
  }

  lemma GiveKeepsTests(o: Oracle, w: World, id: Id)
    requires TestsOK(o, w.s) && JobsOK(o, w) && 1 <= w.s.firstTestToGive <= |o.tests| && id !in w.used
    ensures TestsOK(o, Give(w.s, id))
    ensures id !in w.s.given
  {
    assert id in w.s.given ==> JobOK(o, w, id);
    var s, r := w.s, Give(w.s, id);
    forall t: nat | 1 <= t <= |o.tests|
      ensures TestOK(o, r, t)
    {
      assert TestOK(o, s, t);
      if HasJob(s.given, t) {
        var i :| RunsTest(s.given, i, t);
        assert RunsTest(r.given, i, t);
      }
      if HasJob(r.given, t) && t != s.firstTestToGive {
        var i :| RunsTest(r.given, i, t);
        assert RunsTest(s.given, i, t);
      }
      assert RunsTest(r.given, id, s.firstTestToGive);
    }
  }

  lemma GiveKeepsJobs(o: Oracle, w: World, id: Id)
    requires TestsOK(o, w.s) && JobsOK(o, w) && 1 <= w.s.firstTestToGive <= |o.tests| && id !in w.used
    ensures JobsOK(o, World(Give(w.s, id), w.stopped, w.used + {id}))
  {
    var s, r := w.s, World(Give(w.s, id), w.stopped, w.used + {id});
    forall i | i in s.given
      ensures s.given[i].test < s.firstTestToGive && i in w.used
    {
      assert JobOK(o, w, i) && RunsTest(s.given, i, s.given[i].test) && TestOK(o, s, s.given[i].test);
    }
    forall i | i in r.s.given
      ensures JobOK(o, r, i)
    {
      assert i != id ==> JobOK(o, w, i);
    }
    forall i, j, t | RunsTest(r.s.given, i, t) && RunsTest(r.s.given, j, t)
      ensures i == j
    {
      assert i != id && j != id ==> RunsTest(s.given, i, t) && RunsTest(s.given, j, t);
    }
  }

  // ---------- answers ----------

  /** An answer other than OK, from the test itself or because it was stopped, means the judge skips every later
      test. */
  lemma BadAnswerSettles(o: Oracle, w: World, id: Id, r: JobResult)
    requires id in w.s.given && JobOK(o, w, id) && Honest(o, w.stopped, id, w.s.given[id], r) && r.verdict != OK
    ensures var t := w.s.given[id].test;
            forall u: nat {:trigger VerdictAfter(o, u)} :: t <= u <= |o.tests| ==> VerdictAfter(o, u) != RU
  {
    var t := w.s.given[id].test;
    OwnIsListed(o, t);
    forall u: nat | t <= u <= |o.tests|
      ensures VerdictAfter(o, u) != RU
    {
      if r == o.tests[t - 1] {
        assert VerdictAfter(o, t) != RU;
        SettledStays(o, t, u);
      } else {
        SettledStays(o, t - 1, u);
      }
    }
  }

  lemma AnswerKeepsTests(o: Oracle, w: World, id: Id, r: JobResult)
    requires Bounded(|o.tests|, w.s) && TestsOK(o, w.s) && JobsOK(o, w)
    requires id in w.s.given && Honest(o, w.stopped, id, w.s.given[id], r)
    ensures TestsOK(o, Received(|o.tests|, w.s, id, r))
  {
    var s := w.s;
    assert JobOK(o, w, id);
    var t := s.given[id].test;
    var r' := Received(|o.tests|, s, id, r);
    if r.verdict != OK {
      BadAnswerSettles(o, w, id, r);
    }
    assert RunsTest(s.given, id, t);
    assert TestOK(o, s, t);
    hide VerdictAfter, Built;
    forall u: nat | 1 <= u <= |o.tests|
      ensures TestOK(o, r', u)
    {
      assert TestOK(o, s, u);
      LosesOneJob(o, w, id, r', u);
    }
  }

  lemma LosesOneJob(o: Oracle, w: World, id: Id, r: State, u: nat)
    requires JobsOK(o, w) && id in w.s.given && r.given == w.s.given - {id}
    ensures HasJob(r.given, u) <==> HasJob(w.s.given, u) && u != w.s.given[id].test
  {
    assert RunsTest(w.s.given, id, w.s.given[id].test);
    if HasJob(w.s.given, u) && u != w.s.given[id].test {
      var i :| RunsTest(w.s.given, i, u);
      assert RunsTest(r.given, i, u);
    }
    if HasJob(r.given, u) {
      var i :| RunsTest(r.given, i, u);
      assert RunsTest(w.s.given, i, u);
    }
  }

  lemma AnswerKeepsJobs(o: Oracle, w: World, id: Id, r: JobResult)
    requires Bounded(|o.tests|, w.s) && JobsOK(o, w) && id in w.s.given && Honest(o, w.stopped, id, w.s.given[id], r)
    ensures JobsOK(o, World(Received(|o.tests|, w.s, id, r), w.stopped, w.used))
  {
    var s := w.s;
    assert JobOK(o, w, id);
    var n := World(Received(|o.tests|, s, id, r), w.stopped, w.used);
    hide VerdictAfter, Built;
    assert n.s.given == s.given - {id};
    forall i | i in n.s.given
      ensures JobOK(o, n, i)
    {
      assert JobOK(o, w, i);
    }
    forall i, j, t | RunsTest(n.s.given, i, t) && RunsTest(n.s.given, j, t)
      ensures i == j
    {
      assert RunsTest(s.given, i, t) && RunsTest(s.given, j, t);
    }
  }

  lemma TestAnswerKeepsLive(o: Oracle, submitId: nat, w: World, id: Id, r: JobResult)
    requires Bounded(|o.tests|, w.s) && w.s.phase == Compiled && Live(o, submitId, w)
    requires Allowed(o, w, Answered(id, r))
    ensures Live(o, submitId, Next(|o.tests|, w, Answered(id, r)))
  {
    AnswerKeepsTests(o, w, id, r);
    AnswerKeepsJobs(o, w, id, r);
    assert JobOK(o, w, id);
    GivenTestIsUnpublished(o, w, id);
    hide TestsOK, JobsOK;
    var n := World(Received(|o.tests|, w.s, id, r), w.stopped, w.used);
    UpdateMakesLive(o, submitId, n);
  }

  /** A job the registry stops runs a test the judge skips. */
  lemma AcceptKeepsLive(o: Oracle, submitId: nat, w: World, id: Id, r: JobResult)
    requires Live(o, submitId, w) && id in w.s.given && Honest(o, w.stopped, id, w.s.given[id], r)
    ensures Live(o, submitId, World(w.s, w.stopped + Stops(w.s.given, id, r), w.used))
  {
    var n := World(w.s, w.stopped + Stops(w.s.given, id, r), w.used);
    assert JobOK(o, w, id);
    if r.verdict != OK {
      BadAnswerSettles(o, w, id, r);
    }
    hide VerdictAfter, Built;
    forall i | i in w.s.given
      ensures JobOK(o, n, i)
    {
      assert JobOK(o, w, i);
    }
  }

  lemma GivenTestIsUnpublished(o: Oracle, w: World, id: Id)
    requires TestsOK(o, w.s) && JobsOK(o, w) && id in w.s.given
    ensures w.s.testedPrefixLength < |o.tests|
  {
    var t := w.s.given[id].test;
    assert JobOK(o, w, id) && RunsTest(w.s.given, id, t) && TestOK(o, w.s, t);
  }

  lemma CompileAnswerKeepsInv(o: Oracle, submitId: nat, w: World, id: Id, r: JobResult)
    requires Bounded(|o.tests|, w.s) && Compiling(submitId, w) && Allowed(o, w, Answered(id, r))
    ensures Inv(o, submitId, Next(|o.tests|, w, Answered(id, r)))
  {
    FreshlyCompiled(o, submitId, w.used);
    hide TestsOK, PublishedOK, JobsOK, CompileDone;
    var n := World(Received(|o.tests|, w.s, id, r), {}, w.used);
    var c :| w.s == Init(submitId).(phase := Started, given := map[c := Job(c, submitId, CompileJob, 0, {})]);
    assert w.s.given - {id} == map[];
    assert n.s == CompileDone(|o.tests|, Init(submitId).(phase := Started), o.compile);
    UpdateMakesLive(o, submitId, n);
  }

  lemma FreshlyCompiled(o: Oracle, submitId: nat, used: set<Id>)
    ensures var s := CompileDone(|o.tests|, Init(submitId).(phase := Started), o.compile);
            TestsOK(o, s) && PublishedOK(o, submitId, s) && s.phase == Compiled && JobsOK(o, World(s, {}, used))
  {
    hide VerdictAfter, Built, JudgeTests, Rounding.CompileReport;
    VerdictAtFirst(o);
    var s := CompileDone(|o.tests|, Init(submitId).(phase := Started), o.compile);
    forall t: nat | 1 <= t <= |o.tests|
      ensures TestOK(o, s, t)
    {
      if o.compile.verdict != CD {
        SettledStays(o, 0, t - 1);
      }
    }
  }

  lemma VerdictAtFirst(o: Oracle)
    ensures VerdictAfter(o, 0) == if o.compile.verdict == CD then RU else CompileVerdict(o.compile)
    ensures JudgeTests(o, 0) == []
  {
  }

  // ---------- runs ----------

  lemma StepKeepsInv(o: Oracle, submitId: nat, w: World, e: Event)
    requires Inv(o, submitId, w) && Allowed(o, w, e)
    ensures Inv(o, submitId, Next(|o.tests|, w, e))
  {
    hide Live, Update, Received, Honest;
    match w.s.phase
    case NotStarted =>
    case Started =>
      if e.Answered? {
        CompileAnswerKeepsInv(o, submitId, w, e.id, e.r);
      } else if e.Accepted? {
        assert w.stopped + Stops(w.s.given, e.id, e.r) == {};
      }
    case Compiled =>
      AnswerKeepsPhase(o, w, e);
      if e.Asked? {
        AskKeepsLive(o, submitId, w, e.id);
      } else if e.Accepted? {
        AcceptKeepsLive(o, submitId, w, e.id, e.r);
      } else {
        TestAnswerKeepsLive(o, submitId, w, e.id, e.r);
      }
  }

  lemma AnswerKeepsPhase(o: Oracle, w: World, e: Event)
    requires Bounded(|o.tests|, w.s) && w.s.phase == Compiled
    ensures Next(|o.tests|, w, e).s.phase == Compiled && Bounded(|o.tests|, Next(|o.tests|, w, e).s)
  {
  }

  lemma {:induction false} RunKeepsInv(o: Oracle, submitId: nat, w: World, es: seq<Event>, r: World)
    requires Inv(o, submitId, w) && Run(o, w, es, r)
    ensures Inv(o, submitId, r)
    decreases |es|
  {
    hide Inv, Allowed, Next;
    if es != [] {
      StepKeepsInv(o, submitId, w, es[0]);
      RunKeepsInv(o, submitId, Next(|o.tests|, w, es[0]), es[1..], r);
    }
  }
}
