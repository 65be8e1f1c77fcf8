/** What every run of the IOI generator guarantees. */
module IoiTheorems {
  import opened Models
  import opened IoiJudge
  import opened IoiMachine
  import opened IoiInvariant
  import opened IoiRuns
  import opened Lists

  predicate IsFinal(p: Problem, s: State) {
    !s.crashed && s.sub.compilation.Some? && s.firstNotCompletedTest == p.tests + 1
  }

  /** The submissions JobCompleted returned along a run. */
  function Returned(p: Problem, o: Oracle, w: World, es: seq<Event>, r: World): seq<Submission>
    requires Covers(o, p) && Run(p, o, w, es, r)
    decreases |es|
  {
    if es == [] then []
    else
      var rest := Returned(p, o, Next(p, w, es[0]), es[1..], r);
      match es[0]
      case Asked(_) => rest
      case Accepted(_, _) => rest
      case Answered(id, a) =>
        var outcome := Answer(p, w.s, id, a).1;
        if outcome.Finalized? then [outcome.sub] + rest else rest
  }

  lemma FinishedIsJudged(p: Problem, o: Oracle, submitId: nat, w: World)
    requires WellFormed(p) && Covers(o, p) && Inv(p, o, submitId, w) && IsFinal(p, w.s)
    ensures Judged(p, o, submitId, w.s)
  {
    hide WellFormed, Bounded, Judged, SlotsOK, FlagsOK, JobsOK, RequiredOK, StopsOK, PublishedOK;
  }

  lemma AskKeepsFinished(p: Problem, o: Oracle, submitId: nat, w: World, id: Id)
    requires WellFormed(p) && Covers(o, p) && Inv(p, o, submitId, w) && Bounded(p, w.s)
    ensures IsFinal(p, w.s) <==> IsFinal(p, Ask(p, w.s, id).0)
    ensures IsFinal(p, w.s) ==> Ask(p, w.s, id).1 == None
  {
    hide WellFormed, HasCause, SlotsOK, FlagsOK, JobsOK, RequiredOK, StopsOK, PublishedOK;
    if w.s.phase == Compiled && IsFinal(p, w.s) {
      FinishedPrunesAll(p, o, submitId, w);
    }
  }

  lemma FinishedPrunesAll(p: Problem, o: Oracle, submitId: nat, w: World)
    requires WellFormed(p) && Covers(o, p) && Bounded(p, w.s) && Live(p, o, submitId, w) && IsFinal(p, w.s)
    ensures Prune(p, w.s).firstNotGivenTest > p.tests
  {
    hide WellFormed, HasCause, SlotsOK, FlagsOK, JobsOK, RequiredOK, StopsOK, PublishedOK;
    var pruned := Prune(p, w.s);
    PruneMarksClosedTests(p, w.s);
    PruneKeepsSlots(p, o, w.s);
    PruneKeepsFlags(p, o, w.s);
    if pruned.firstNotGivenTest <= p.tests {
      GivenTestIsUnpublished(p, o, pruned);
    }
  }

  lemma AnswerFinalizesExactlyWhenFinished(p: Problem, o: Oracle, submitId: nat, w: World, id: Id, a: JobResult)
    requires WellFormed(p) && Covers(o, p) && Inv(p, o, submitId, w) && Bounded(p, w.s)
    requires Allowed(p, o, w, Answered(id, a))
    ensures var (n, outcome) := Answer(p, w.s, id, a);
            && !IsFinal(p, w.s)
            && (outcome.Finalized? <==> IsFinal(p, n))
            && (outcome.Finalized? ==> outcome.sub == Judge(p, o, submitId))
            && (outcome.Panicked? <==> n.crashed)
  {
    StepKeepsInv(p, o, submitId, w, Answered(id, a));
    hide WellFormed, HasCause, Inv, Publish, Received, Honest, Judge, Crashes;
    var (n, outcome) := Answer(p, w.s, id, a);
    if IsFinal(p, w.s) {
      FinishedIsJudged(p, o, submitId, w);
    }
    assert id in w.s.given;
    var next := Next(p, w, Answered(id, a));
    if IsFinal(p, n) {
      FinishedIsJudged(p, o, submitId, next);
    }
    assert Received(p, w.s, id, a).sub.compilation.Some? by { ReceivedIsCompiled(p, o, submitId, w, id, a); }
  }

  lemma ReceivedIsCompiled(p: Problem, o: Oracle, submitId: nat, w: World, id: Id, a: JobResult)
    requires WellFormed(p) && Covers(o, p) && Inv(p, o, submitId, w) && Bounded(p, w.s)
    requires Allowed(p, o, w, Answered(id, a))
    ensures Received(p, w.s, id, a).sub.compilation.Some?
  {
    hide WellFormed, HasCause, SlotsOK, FlagsOK, RequiredOK, StopsOK, Judge, Crashes, ClosedAfter, Built;
    if w.s.phase == Compiled {
      assert JobOK(p, w.s, id);
    }
  }

  lemma {:induction false} ReturnedFrom(
      p: Problem, o: Oracle, submitId: nat, w: World, es: seq<Event>, r: World)
    requires WellFormed(p) && Covers(o, p) && Inv(p, o, submitId, w) && Run(p, o, w, es, r)
    ensures Returned(p, o, w, es, r) ==
            if IsFinal(p, r.s) && !IsFinal(p, w.s) then [Judge(p, o, submitId)] else []
    ensures IsFinal(p, w.s) ==> IsFinal(p, r.s)
    decreases |es|
  {
    hide WellFormed, HasCause, Inv, Judge, Sized, Honest, Ask, Answer;
    if es != [] {
      var n := Next(p, w, es[0]);
      StepKeepsInv(p, o, submitId, w, es[0]);
      ReturnedFrom(p, o, submitId, n, es[1..], r);
      match es[0]
      case Asked(id) => AskKeepsFinished(p, o, submitId, w, id);
      case Accepted(id, a) =>
      case Answered(id, a) => AnswerFinalizesExactlyWhenFinished(p, o, submitId, w, id, a);
    }
  }

  /** Exactly once, and always the judge's submission: a run returns nothing before it is finished,
      and the sequential judge's submission once it is. */
  lemma ReturnedExactlyOnce(p: Problem, o: Oracle, submitId: nat, es: seq<Event>, r: World)
    requires WellFormed(p) && Covers(o, p) && Run(p, o, Start(p, submitId), es, r)
    ensures Returned(p, o, Start(p, submitId), es, r) ==
            if IsFinal(p, r.s) then [Judge(p, o, submitId)] else []
    ensures IsFinal(p, r.s) ==> r.s.sub == Judge(p, o, submitId)
  {
    hide Judge;
    StartIsInv(p, o, submitId);
    ReturnedFrom(p, o, submitId, Start(p, submitId), es, r);
    RunKeepsInv(p, o, submitId, Start(p, submitId), es, r);
    if IsFinal(p, r.s) {
      FinishedIsJudged(p, o, submitId, r);
    }
  }

  /** Neither the order of events nor cancellation shows in the result. */
  lemma ScheduleIndependence(p: Problem, o: Oracle, submitId: nat, es: seq<Event>, r: World, fs: seq<Event>, q: World)
    requires WellFormed(p) && Covers(o, p)
    requires Run(p, o, Start(p, submitId), es, r) && Run(p, o, Start(p, submitId), fs, q)
    requires IsFinal(p, r.s) && IsFinal(p, q.s)
    ensures r.s.sub == q.s.sub
  {
    ReturnedExactlyOnce(p, o, submitId, es, r);
    ReturnedExactlyOnce(p, o, submitId, fs, q);
  }

  // ---------- progress ----------

  lemma LiveProgress(p: Problem, o: Oracle, submitId: nat, w: World)
    requires Bounded(p, w.s) && Covers(o, p) && Live(p, o, submitId, w)
    requires w.s.given == map[] && w.s.firstNotCompletedTest <= p.tests
    ensures Prune(p, w.s).firstNotGivenTest <= p.tests
  {
    hide WellFormed, HasCause, RequiredOK, StopsOK, PublishedOK, Judged, Fails, Built;
    var s := w.s;
    var t := s.firstNotCompletedTest;
    assert s.slots[t - 1].state == Running ==> HasJob(s.given, t);
    SlotsGiveSlot(p, o, s, t);
    assert s.slots[t - 1].state == NotGiven && s.firstNotGivenTest <= t;
    var pruned := Prune(p, s);
    PruneMarksClosedTests(p, s);
    if pruned.firstNotGivenTest > t {
      assert pruned.slots[t - 1].state == Finished;
      PruneKeepsBlocked(p, o, s);
    }
  }

  lemma CompilingHasJob(p: Problem, submitId: nat, s: State)
    ensures Compiling(p, submitId, s) ==> s.given != map[]
  {
    if Compiling(p, submitId, s) {
      var c :| s == Init(p, submitId).(phase := Started, given := map[c := Job(c, submitId, CompileJob, 0, {})]);
      assert c in s.given;
    }
  }

  lemma IdleIsFinished(p: Problem, o: Oracle, submitId: nat, w: World, id: Id)
    requires WellFormed(p) && Covers(o, p) && Inv(p, o, submitId, w) && !w.s.crashed && w.s.given == map[]
    ensures Bounded(p, w.s)
    ensures IsFinal(p, w.s) || Ask(p, w.s, id).1.Some?
  {
    hide WellFormed, HasCause, Prune;
    match w.s.phase
    case NotStarted =>
    case Started =>
      CompilingHasJob(p, submitId, w.s);
    case Compiled =>
      if w.s.firstNotCompletedTest <= p.tests {
        LiveProgress(p, o, submitId, w);
      } else {
        FinishedIsFinal(p, o, submitId, w);
      }
  }

  lemma FinishedIsFinal(p: Problem, o: Oracle, submitId: nat, w: World)
    requires Bounded(p, w.s) && Covers(o, p) && Live(p, o, submitId, w) && w.s.firstNotCompletedTest > p.tests
    ensures IsFinal(p, w.s)
  {
    hide SlotsOK, FlagsOK, JobsOK, RequiredOK, StopsOK, Crashes, WellFormed, HasCause;
  }

  /** A generator that is neither finished nor crashed and has no job out hands out a job when asked. */
  lemma Progress(p: Problem, o: Oracle, submitId: nat, es: seq<Event>, r: World, id: Id)
    requires WellFormed(p) && Covers(o, p) && Run(p, o, Start(p, submitId), es, r)
    requires !r.s.crashed && !IsFinal(p, r.s) && r.s.given == map[]
    ensures Bounded(p, r.s) && Ask(p, r.s, id).1.Some?
  {
    hide WellFormed, HasCause, Inv, Ask;
    StartIsInv(p, o, submitId);
    RunKeepsInv(p, o, submitId, Start(p, submitId), es, r);
    IdleIsFinished(p, o, submitId, r, id);
  }

  predicate Exhausted(p: Problem, s: State) {
    s.crashed || (Bounded(p, s) && s.given == map[] && Ask(p, s, 0).1.None?)
  }

  /** A run that can go no further crashed exactly when the judge meets a nil score; otherwise it is finished. */
  lemma CrashesExactlyWhenTheJudgeDoes(p: Problem, o: Oracle, submitId: nat, es: seq<Event>, r: World)
    requires WellFormed(p) && Covers(o, p) && Run(p, o, Start(p, submitId), es, r) && Exhausted(p, r.s)
    ensures r.s.crashed <==> Crashes(p, o)
    ensures !r.s.crashed <==> IsFinal(p, r.s)
  {
    hide WellFormed, HasCause, Ask, Bounded, Crashes;
    StartIsInv(p, o, submitId);
    RunKeepsInv(p, o, submitId, Start(p, submitId), es, r);
    if !r.s.crashed {
      if IsFinal(p, r.s) {
        FinishedIsJudged(p, o, submitId, r);
      } else {
        Progress(p, o, submitId, es, r, 0);
      }
    }
  }

  // ---------- every run can be finished ----------

  /** What is left to give and to answer. */
  function Remaining(p: Problem, s: State): nat
    requires Sized(p, s)
  {
    2 * (p.tests + 1 - s.firstNotGivenTest) + |s.given| + (if s.phase == NotStarted then 2 else 0)
  }

  /** The oracle's answer to a job that is out. */
  function Honestly(p: Problem, o: Oracle, s: State, id: Id): JobResult
    requires Bounded(p, s) && Covers(o, p) && id in s.given
  {
    if s.given[id].kind == CompileJob then o.compile else o.tests[s.given[id].test - 1]
  }

  lemma HonestlyIsAllowed(p: Problem, o: Oracle, w: World, id: Id)
    requires Bounded(p, w.s) && Covers(o, p) && id in w.s.given
    ensures Allowed(p, o, w, Answered(id, Honestly(p, o, w.s, id)))
  {
    hide WellFormed, HasCause;
  }

  lemma AnsweringShrinks(p: Problem, s: State, id: Id, a: JobResult)
    requires Bounded(p, s) && id in s.given && s.phase != NotStarted
    ensures var n := Answer(p, s, id, a).0; !n.crashed ==> Bounded(p, n) && Remaining(p, n) < Remaining(p, s)
  {
    hide WellFormed, HasCause, Answer;
    AnswerShape(p, s, id, a);
    assert s.given.Keys == (s.given - {id}).Keys + {id};
    assert |s.given.Keys| == |(s.given - {id}).Keys| + 1;
  }

  lemma GivingShrinks(p: Problem, s: State, id: Id)
    requires Bounded(p, s) && id !in s.given && Ask(p, s, id).1.Some?
    ensures Remaining(p, Ask(p, s, id).0) < Remaining(p, s)
  {
    hide WellFormed, HasCause;
    var n := Ask(p, s, id).0;
    assert n.given.Keys == s.given.Keys + {id};
    assert |n.given.Keys| == |s.given.Keys| + 1;
  }

  /** Whether there is something to give does not depend on the identifier. */
  lemma AnyIdWillDo(p: Problem, s: State, id: Id)
    requires Bounded(p, s) && Ask(p, s, 0).1.Some?
    ensures Ask(p, s, id).1.Some?
  {
  }

  lemma NotStartedHasNoJobs(p: Problem, o: Oracle, submitId: nat, w: World)
    requires WellFormed(p) && Covers(o, p) && Inv(p, o, submitId, w) && !w.s.crashed
    ensures Bounded(p, w.s) && w.s.given.Keys <= w.used
    ensures w.s.given != map[] ==> w.s.phase != NotStarted
  {
    hide WellFormed, HasCause, Live, Judged;
  }

  lemma {:induction false} CanBeExhausted(p: Problem, o: Oracle, submitId: nat, w: World)
      returns (es: seq<Event>, r: World)
    requires WellFormed(p) && Covers(o, p) && Inv(p, o, submitId, w)
    ensures Run(p, o, w, es, r) && Exhausted(p, r.s)
    decreases if w.s.crashed || !Sized(p, w.s) then 0 else 1 + Remaining(p, w.s)
  {
    hide WellFormed, HasCause, Inv, Ask, Answer, Honest, Remaining;
    es, r := [], w;
    if !w.s.crashed {
      NotStartedHasNoJobs(p, o, submitId, w);
      var e: Event;
      if w.s.given != map[] {
        var id :| id in w.s.given;
        e := Answered(id, Honestly(p, o, w.s, id));
        HonestlyIsAllowed(p, o, w, id);
        AnsweringShrinks(p, w.s, id, e.r);
      } else if Ask(p, w.s, 0).1.Some? {
        var id := FreshId(w.used);
        e := Asked(id);
        AnyIdWillDo(p, w.s, id);
        GivingShrinks(p, w.s, id);
        AskDoesNotCrash(p, w.s, id);
      } else {
        return;
      }
      StepKeepsInv(p, o, submitId, w, e);
      es, r := CanBeExhausted(p, o, submitId, Next(p, w, e));
      assert ([e] + es)[1..] == es;
      es := [e] + es;
    }
  }

  lemma AskDoesNotCrash(p: Problem, s: State, id: Id)
    requires Bounded(p, s)
    ensures Ask(p, s, id).0.crashed == s.crashed
  {
  }

  lemma {:induction false} RunThen(p: Problem, o: Oracle, w: World, es: seq<Event>, m: World, fs: seq<Event>, r: World)
    requires Covers(o, p) && Run(p, o, w, es, m) && Run(p, o, m, fs, r)
    ensures Run(p, o, w, es + fs, r)
    decreases |es|
  {
    hide Bounded, Allowed, Next;
    if es == [] {
      assert es + fs == fs;
    } else {
      RunThen(p, o, Next(p, w, es[0]), es[1..], m, fs, r);
      assert (es + fs)[1..] == es[1..] + fs;
    }
  }

  /** Wherever a run stands, it can go on to where it can go no further; it panics then exactly when the judge meets a
      nil score, and otherwise returns the judge's submission. So this panic is reached whenever it can be, and every
      other submission can be finished. */
  lemma EveryRunCanBeExhausted(p: Problem, o: Oracle, submitId: nat, es: seq<Event>, r: World)
      returns (more: seq<Event>, q: World)
    requires WellFormed(p) && Covers(o, p) && Run(p, o, Start(p, submitId), es, r)
    ensures Run(p, o, Start(p, submitId), es + more, q) && Exhausted(p, q.s)
    ensures q.s.crashed <==> Crashes(p, o)
    ensures !Crashes(p, o) ==> IsFinal(p, q.s) && q.s.sub == Judge(p, o, submitId)
  {
    hide WellFormed, HasCause, Inv, Run, Exhausted, Crashes, IsFinal, Judge;
    StartIsInv(p, o, submitId);
    RunKeepsInv(p, o, submitId, Start(p, submitId), es, r);
    more, q := CanBeExhausted(p, o, submitId, r);
    RunThen(p, o, Start(p, submitId), es, r, more, q);
    CrashesExactlyWhenTheJudgeDoes(p, o, submitId, es + more, q);
    ReturnedExactlyOnce(p, o, submitId, es + more, q);
  }

  /** Once compiled, the running tests are exactly those a job is out for, one job each. */
  lemma RunningTestsAreTheGivenJobs(p: Problem, o: Oracle, submitId: nat, es: seq<Event>, r: World, t: nat)
    requires WellFormed(p) && Covers(o, p) && Run(p, o, Start(p, submitId), es, r)
    requires !r.s.crashed && r.s.phase == Compiled && IsTest(p, t)
    ensures |r.s.slots| == p.tests
    ensures r.s.slots[t - 1].state == Running <==> HasJob(r.s.given, t)
    ensures forall i, j :: RunsTest(r.s.given, i, t) && RunsTest(r.s.given, j, t) ==> i == j
  {
    hide WellFormed, HasCause, SlotsOK, FlagsOK, RequiredOK, StopsOK, PublishedOK, Judged, Crashes, Next, Allowed;
    StartIsInv(p, o, submitId);
    RunKeepsInv(p, o, submitId, Start(p, submitId), es, r);
    if HasJob(r.s.given, t) {
      var id :| RunsTest(r.s.given, id, t);
      assert JobOK(p, r.s, id);
    }
  }

  /** The tests of the jobs handed out along a run. */
  function GivenTests(p: Problem, o: Oracle, w: World, es: seq<Event>, r: World): seq<nat>
    requires Covers(o, p) && Run(p, o, w, es, r)
    decreases |es|
  {
    if es == [] then []
    else
      var rest := GivenTests(p, o, Next(p, w, es[0]), es[1..], r);
      if !es[0].Asked? then rest
      else
        var job := Ask(p, w.s, es[0].id).1;
        if job.Some? && job.value.kind == TestJob then [job.value.test] + rest else rest
  }

  /** Tests are handed out in increasing order along every run, so each at most once. */
  lemma {:induction false} TestsAreGivenInOrder(p: Problem, o: Oracle, w: World, es: seq<Event>, r: World)
    requires Covers(o, p) && Run(p, o, w, es, r)
    ensures Ascending(GivenTests(p, o, w, es, r), w.s.firstNotGivenTest, p.tests)
    decreases |es|
  {
    hide WellFormed, HasCause, Honest, Ask, Answer;
    if es != [] {
      var n := Next(p, w, es[0]);
      var rest := GivenTests(p, o, n, es[1..], r);
      TestsAreGivenInOrder(p, o, n, es[1..], r);
      match es[0]
      case Asked(id) =>
        AskAdvances(p, w, id);
        var job := Ask(p, w.s, id).1;
        AscendingFromBelow(rest, n.s.firstNotGivenTest,
                           if job.Some? && job.value.kind == TestJob then job.value.test + 1 else w.s.firstNotGivenTest,
                           p.tests);
        assert job.Some? ==> ([job.value.test] + rest)[1..] == rest;
      case Accepted(id, a) =>
      case Answered(id, a) => AnswerShape(p, w.s, id, a);
    }
  }

  lemma AskAdvances(p: Problem, w: World, id: Id)
    requires Bounded(p, w.s)
    ensures var (n, job) := Ask(p, w.s, id);
            && w.s.firstNotGivenTest <= n.firstNotGivenTest
            && (job.Some? && job.value.kind == TestJob ==>
                  w.s.firstNotGivenTest <= job.value.test < n.firstNotGivenTest && IsTest(p, job.value.test))
  {
    hide WellFormed, HasCause;
  }

  /** No test is handed out twice. */
  lemma EachTestIsGivenOnce(p: Problem, o: Oracle, submitId: nat, es: seq<Event>, r: World, i: nat, j: nat)
    requires Covers(o, p) && Run(p, o, Start(p, submitId), es, r)
    requires i < j < |GivenTests(p, o, Start(p, submitId), es, r)|
    ensures var tests := GivenTests(p, o, Start(p, submitId), es, r);
            1 <= tests[i] < tests[j] <= p.tests
  {
    TestsAreGivenInOrder(p, o, Start(p, submitId), es, r);
    AscendingIsIncreasing(GivenTests(p, o, Start(p, submitId), es, r), 1, p.tests);
  }

  // ---------- the branch that turns SK into CF ----------

  /** The judge does not skip test t, and yet its own run answers SK. */
  predicate AnswersSkip(p: Problem, o: Oracle, t: nat)
    requires Partitions(p) && Covers(o, p)
  {
    IsTest(p, t) && GroupOf(p, t).name !in Dead(p, o, t - 1) && o.tests[t - 1].verdict == SK
  }

  ghost predicate SomeAnswersSkip(p: Problem, o: Oracle, lo: nat, hi: nat)
    requires Partitions(p) && Covers(o, p)
  {
    exists t: nat :: lo <= t < hi && AnswersSkip(p, o, t)
  }

  predicate RepairsOne(p: Problem, s: State)
    requires Bounded(p, s) && s.firstNotCompletedTest <= p.tests
  {
    GroupOf(p, s.firstNotCompletedTest).name !in s.skip && s.slots[s.firstNotCompletedTest - 1].result.verdict == SK
  }

  /** Publication from here on takes that branch. */
  predicate Repairs(p: Problem, s: State)
    requires Bounded(p, s)
    decreases p.tests + 1 - s.firstNotCompletedTest
  {
    && !Blocked(p, s)
    && (RepairsOne(p, s) || (!PublishOne(p, s).crashed && Repairs(p, PublishOne(p, s))))
  }

  predicate RepairsAt(p: Problem, w: World, e: Event)
    requires Bounded(p, w.s)
  {
    e.Answered? && e.id in w.s.given && Repairs(p, Received(p, w.s, e.id, e.r))
  }

  predicate EverRepairs(p: Problem, o: Oracle, w: World, es: seq<Event>, r: World)
    requires Covers(o, p) && Run(p, o, w, es, r)
    decreases |es|
  {
    es != [] && (RepairsAt(p, w, es[0]) || EverRepairs(p, o, Next(p, w, es[0]), es[1..], r))
  }

  lemma PopulateKeepsVerdict(g: Group, r: JobResult)
    ensures Populate(g, r).verdict == r.verdict || (r.verdict == PT && Populate(g, r).verdict == CF)
  {
  }

  lemma RepairsOneExactly(p: Problem, o: Oracle, submitId: nat, s: State)
    requires Bounded(p, s) && Covers(o, p) && Core(p, o, submitId, s) && !Blocked(p, s)
    ensures RepairsOne(p, s) <==> AnswersSkip(p, o, s.firstNotCompletedTest)
  {
    hide WellFormed, HasCause, PublishedOK, Dead, Populate, SlotsOK;
    var t := s.firstNotCompletedTest;
    SlotsGiveSlot(p, o, s, t);
    PopulateKeepsVerdict(GroupOf(p, t), o.tests[t - 1]);
  }

  lemma {:induction false} RepairsExactly(p: Problem, o: Oracle, submitId: nat, s: State)
    requires Bounded(p, s) && Covers(o, p) && Core(p, o, submitId, s)
    ensures Repairs(p, s) ==> SomeAnswersSkip(p, o, s.firstNotCompletedTest, p.tests + 1)
    ensures var r := Publish(p, s);
            !r.crashed ==>
              && s.firstNotCompletedTest <= r.firstNotCompletedTest
              && (Repairs(p, s) <==> SomeAnswersSkip(p, o, s.firstNotCompletedTest, r.firstNotCompletedTest))
    decreases p.tests + 1 - s.firstNotCompletedTest
  {
    hide WellFormed, HasCause, Core, RepairsOne, AnswersSkip, PublishOne, Partitions;
    if !Blocked(p, s) {
      var next, t := PublishOne(p, s), s.firstNotCompletedTest;
      RepairsOneExactly(p, o, submitId, s);
      PublishOneKeepsCore(p, o, submitId, s);
      if !next.crashed {
        RepairsExactly(p, o, submitId, next);
        OneMoreTest(p, o, t, p.tests + 1);
        if !Publish(p, s).crashed {
          OneMoreTest(p, o, t, Publish(p, s).firstNotCompletedTest);
        }
      } else {
        OneMoreTest(p, o, t, p.tests + 1);
      }
    }
  }

  lemma OneMoreTest(p: Problem, o: Oracle, lo: nat, hi: nat)
    requires Partitions(p) && Covers(o, p) && lo < hi
    ensures SomeAnswersSkip(p, o, lo, hi) <==> AnswersSkip(p, o, lo) || SomeAnswersSkip(p, o, lo + 1, hi)
  {
    hide AnswersSkip;
    if SomeAnswersSkip(p, o, lo, hi) {
      var t: nat :| lo <= t < hi && AnswersSkip(p, o, t);
      assert t != lo ==> lo + 1 <= t;
    }
  }

  lemma SplitTests(p: Problem, o: Oracle, lo: nat, mid: nat, hi: nat)
    requires Partitions(p) && Covers(o, p) && lo <= mid <= hi
    ensures SomeAnswersSkip(p, o, lo, hi) <==> SomeAnswersSkip(p, o, lo, mid) || SomeAnswersSkip(p, o, mid, hi)
  {
    hide AnswersSkip;
    if SomeAnswersSkip(p, o, lo, hi) {
      var t: nat :| lo <= t < hi && AnswersSkip(p, o, t);
      assert t < mid || mid <= t;
    }
  }

  lemma ReceivedIsCore(p: Problem, o: Oracle, submitId: nat, w: World, id: Id, a: JobResult)
    requires WellFormed(p) && Covers(o, p) && Inv(p, o, submitId, w) && Bounded(p, w.s)
    requires Allowed(p, o, w, Answered(id, a))
    ensures var received := Received(p, w.s, id, a);
            Core(p, o, submitId, received) && received.firstNotCompletedTest == w.s.firstNotCompletedTest
  {
    hide WellFormed, HasCause, Live, Judged, Update, Core, FlagsOK, SlotsOK, PublishedOK;
    WellFormedPartitions(p);
    match w.s.phase
    case NotStarted =>
    case Compiled => LiveReceivedIsCore(p, o, submitId, w, id, a);
    case Started =>
      if Compiling(p, submitId, w.s) {
        FreshCore(p, o, submitId);
        assert Received(p, w.s, id, a) == CompileDone(p, Init(p, submitId).(phase := Started), o.compile);
      } else {
        JudgedHasNoJobs(p, o, submitId, w.s);
      }
  }

  lemma LiveReceivedIsCore(p: Problem, o: Oracle, submitId: nat, w: World, id: Id, a: JobResult)
    requires Bounded(p, w.s) && Covers(o, p) && IdsOK(w)
    requires Live(p, o, submitId, w) && Allowed(p, o, w, Answered(id, a))
    ensures var received := Received(p, w.s, id, a);
            Core(p, o, submitId, received) && received.firstNotCompletedTest == w.s.firstNotCompletedTest
  {
    hide WellFormed, HasCause, Live, FlagsOK, SlotsOK, PublishedOK, JobsOK, RequiredOK, StopsOK, IdsOK, Unscored,
      ClosedAfter, Built;
    ReceivingMakesReady(p, o, submitId, w, id, a);
  }

  lemma StepRepairsExactly(p: Problem, o: Oracle, submitId: nat, w: World, e: Event)
    requires WellFormed(p) && Covers(o, p) && Inv(p, o, submitId, w) && Bounded(p, w.s) && Allowed(p, o, w, e)
    ensures RepairsAt(p, w, e) ==> SomeAnswersSkip(p, o, w.s.firstNotCompletedTest, p.tests + 1)
    ensures var n := Next(p, w, e).s;
            !n.crashed ==>
              && w.s.firstNotCompletedTest <= n.firstNotCompletedTest
              && (RepairsAt(p, w, e) <==> SomeAnswersSkip(p, o, w.s.firstNotCompletedTest, n.firstNotCompletedTest))
  {
    hide WellFormed, HasCause, Inv, Core, AnswersSkip, Publish, Received, Repairs, Honest, Prune, Partitions;
    match e
    case Asked(_) =>
    case Accepted(_, _) =>
    case Answered(id, a) =>
      ReceivedIsCore(p, o, submitId, w, id, a);
      RepairsExactly(p, o, submitId, Received(p, w.s, id, a));
  }

  lemma {:induction false} RunRepairsExactly(p: Problem, o: Oracle, submitId: nat, w: World, es: seq<Event>, r: World)
    requires WellFormed(p) && Covers(o, p) && Inv(p, o, submitId, w) && Run(p, o, w, es, r)
    requires w.s.firstNotCompletedTest <= p.tests + 1
    ensures EverRepairs(p, o, w, es, r) ==> SomeAnswersSkip(p, o, w.s.firstNotCompletedTest, p.tests + 1)
    ensures !r.s.crashed ==>
              && w.s.firstNotCompletedTest <= r.s.firstNotCompletedTest
              && (EverRepairs(p, o, w, es, r) <==>
                  SomeAnswersSkip(p, o, w.s.firstNotCompletedTest, r.s.firstNotCompletedTest))
    decreases |es|
  {
    hide WellFormed, Inv, Allowed, Next, SomeAnswersSkip, RepairsAt, Partitions, HasCause;
    WellFormedPartitions(p);
    if es == [] {
      NoTests(p, o, w.s.firstNotCompletedTest);
    } else {
      var n := Next(p, w, es[0]);
      StepRepairsExactly(p, o, submitId, w, es[0]);
      StepKeepsInv(p, o, submitId, w, es[0]);
      if n.s.crashed {
        CrashEndsTheRun(p, o, n, es[1..], r);
        assert !EverRepairs(p, o, n, es[1..], r);
      } else {
        RunRepairsExactly(p, o, submitId, n, es[1..], r);
        SplitTests(p, o, w.s.firstNotCompletedTest, n.s.firstNotCompletedTest, p.tests + 1);
        if !r.s.crashed {
          SplitTests(p, o, w.s.firstNotCompletedTest, n.s.firstNotCompletedTest, r.s.firstNotCompletedTest);
        }
      }
    }
  }

  lemma NoTests(p: Problem, o: Oracle, t: nat)
    requires Partitions(p) && Covers(o, p)
    ensures !SomeAnswersSkip(p, o, t, t)
  {
  }

  lemma CrashEndsTheRun(p: Problem, o: Oracle, w: World, es: seq<Event>, r: World)
    requires Covers(o, p) && Run(p, o, w, es, r) && w.s.crashed
    ensures es == [] && r == w
  {
  }

  /** A run turns SK into CF exactly if among the tests published so far there is one that the judge does not skip and
      whose own run answers SK; in a panicked run there is such a test somewhere. */
  lemma SkippedVerdictIsRepairedExactly(p: Problem, o: Oracle, submitId: nat, es: seq<Event>, r: World)
    requires WellFormed(p) && Covers(o, p) && Run(p, o, Start(p, submitId), es, r)
    ensures EverRepairs(p, o, Start(p, submitId), es, r) ==> SomeAnswersSkip(p, o, 1, p.tests + 1)
    ensures !r.s.crashed ==>
              (EverRepairs(p, o, Start(p, submitId), es, r) <==> SomeAnswersSkip(p, o, 1, r.s.firstNotCompletedTest))
  {
    hide WellFormed, SomeAnswersSkip;
    StartIsInv(p, o, submitId);
    RunRepairsExactly(p, o, submitId, Start(p, submitId), es, r);
  }

  /** When no test's own run answers SK or RU, no run ever turns SK into CF, and none publishes a placeholder. */
  lemma SkippedVerdictIsNeverRepaired(p: Problem, o: Oracle, submitId: nat, es: seq<Event>, r: World)
    requires WellFormed(p) && Covers(o, p) && Run(p, o, Start(p, submitId), es, r)
    requires forall i :: 0 <= i < p.tests ==> o.tests[i].verdict != SK && o.tests[i].verdict != RU
    ensures !EverRepairs(p, o, Start(p, submitId), es, r)
    ensures !r.s.crashed ==> forall i :: 0 <= i < |r.s.sub.testResults| ==> r.s.sub.testResults[i].verdict != RU
  {
    hide WellFormed, HasCause, Inv, Allowed, Next, EverRepairs;
    WellFormedPartitions(p);
    SkippedVerdictIsRepairedExactly(p, o, submitId, es, r);
    StartIsInv(p, o, submitId);
    RunKeepsInv(p, o, submitId, Start(p, submitId), es, r);
    if !r.s.crashed {
      PublishedIsThePrefix(p, o, submitId, r);
      forall t: nat | IsTest(p, t)
        ensures JudgeTest(p, o, t).verdict != RU
      {
        PopulateKeepsVerdict(GroupOf(p, t), o.tests[t - 1]);
      }
    }
  }

  /** In any state of a run the published results are the first ones of the judge's. */
  lemma PublishedIsThePrefix(p: Problem, o: Oracle, submitId: nat, w: World)
    requires WellFormed(p) && Covers(o, p) && Inv(p, o, submitId, w) && !w.s.crashed
    ensures var results := w.s.sub.testResults;
            |results| <= p.tests && forall i :: 0 <= i < |results| ==> results[i] == JudgeTest(p, o, i + 1)
  {
    hide WellFormed, HasCause, SlotsOK, FlagsOK, JobsOK, RequiredOK, StopsOK, Dead, Own, JudgeTest, Crashes;
    WellFormedPartitions(p);
  }
}
