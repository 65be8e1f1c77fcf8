/** What every run of the ICPC generator guarantees. */
module IcpcTheorems {
  import opened Models
  import opened IcpcJudge
  import opened IcpcMachine
  import opened Lists

  predicate IsFinal(n: nat, s: State) {
    s.phase == Compiled && s.testedPrefixLength == n
  }

  /** The submissions JobCompleted returned along a run. */
  function Returned(o: Oracle, w: World, es: seq<Event>, r: World): seq<Submission>
    requires Run(o, w, es, r)
    decreases |es|
  {
    if es == [] then []
    else
      var rest := Returned(o, Next(|o.tests|, w, es[0]), es[1..], r);
      match es[0]
      case Asked(_) => rest
      case Accepted(_, _) => rest
      case Answered(id, a) =>
        var outcome := Answer(|o.tests|, w.s, id, a).1;
        if outcome.Finalized? then [outcome.sub] + rest else rest
  }

  lemma AskKeepsFinished(o: Oracle, submitId: nat, w: World, id: Id)
    requires Inv(o, submitId, w)
    ensures IsFinal(|o.tests|, w.s) <==> IsFinal(|o.tests|, Ask(|o.tests|, w.s, id).0)
    ensures IsFinal(|o.tests|, w.s) ==> Ask(|o.tests|, w.s, id) == (w.s, None)
  {
    var t := w.s.firstTestToGive;
    assert w.s.phase == Compiled && t <= |o.tests| ==> TestOK(o, w.s, t);
  }

  lemma AnswerFinalizesExactlyWhenFinished(o: Oracle, submitId: nat, w: World, id: Id, a: JobResult)
    requires Inv(o, submitId, w) && Allowed(o, w, Answered(id, a))
    ensures var (n, outcome) := Answer(|o.tests|, w.s, id, a);
            && !IsFinal(|o.tests|, w.s)
            && !outcome.Panicked?
            && (outcome.Finalized? <==> IsFinal(|o.tests|, n))
            && (outcome.Finalized? ==> outcome.sub == Judge(o, submitId))
  {
    StepKeepsInv(o, submitId, w, Answered(id, a));
    if w.s.phase == Compiled {
      GivenTestIsUnpublished(o, w, id);
    }
    hide TestsOK, JobsOK, Received, Judge, Honest;
    PhaseAfterAnswer(o, submitId, w, id, a);
  }

  lemma PhaseAfterAnswer(o: Oracle, submitId: nat, w: World, id: Id, a: JobResult)
    requires Inv(o, submitId, w) && Allowed(o, w, Answered(id, a))
    ensures Answer(|o.tests|, w.s, id, a).0.phase == Compiled
  {
    assert w.s.phase == Compiled ==> JobOK(o, w, id);
  }

  lemma {:induction false} ReturnedFrom(o: Oracle, submitId: nat, w: World, es: seq<Event>, r: World)
    requires Inv(o, submitId, w) && Run(o, w, es, r)
    ensures Returned(o, w, es, r) ==
            if IsFinal(|o.tests|, r.s) && !IsFinal(|o.tests|, w.s) then [Judge(o, submitId)] else []
    ensures IsFinal(|o.tests|, w.s) ==> IsFinal(|o.tests|, r.s)
    decreases |es|
  {
    hide Inv, Judge, Honest, Ask, Answer;
    if es != [] {
      StepKeepsInv(o, submitId, w, es[0]);
      ReturnedFrom(o, submitId, Next(|o.tests|, w, es[0]), es[1..], r);
      match es[0]
      case Asked(id) => AskKeepsFinished(o, submitId, w, id);
      case Accepted(id, a) =>
      case Answered(id, a) => AnswerFinalizesExactlyWhenFinished(o, submitId, w, id, a);
    }
  }

  /** Exactly once, and always the judge's submission: a run returns nothing before it is finished,
      and the sequential judge's submission once it is. */
  lemma ReturnedExactlyOnce(o: Oracle, submitId: nat, es: seq<Event>, r: World)
    requires Run(o, Start(submitId), es, r)
    ensures Returned(o, Start(submitId), es, r) ==
            if IsFinal(|o.tests|, r.s) then [Judge(o, submitId)] else []
    ensures IsFinal(|o.tests|, r.s) ==> r.s.sub == Judge(o, submitId)
  {
    hide Judge;
    ReturnedFrom(o, submitId, Start(submitId), es, r);
    RunKeepsInv(o, submitId, Start(submitId), es, r);
  }

  /** Neither the order of completions nor cancellation shows in the result. */
  lemma ScheduleIndependence(o: Oracle, submitId: nat, es: seq<Event>, r: World, fs: seq<Event>, q: World)
    requires Run(o, Start(submitId), es, r) && Run(o, Start(submitId), fs, q)
    requires IsFinal(|o.tests|, r.s) && IsFinal(|o.tests|, q.s)
    ensures r.s.sub == q.s.sub
  {
    ReturnedExactlyOnce(o, submitId, es, r);
    ReturnedExactlyOnce(o, submitId, fs, q);
  }

  lemma CompilingHasJob(submitId: nat, w: World)
    ensures Compiling(submitId, w) ==> w.s.given != map[]
  {
    if Compiling(submitId, w) {
      var c :| w.s == Init(submitId).(phase := Started, given := map[c := Job(c, submitId, CompileJob, 0, {})]);
      assert c in w.s.given;
    }
  }

  /** A generator hands out a job exactly while something is left to give; without any job out, it is
      finished or has something to give. */
  lemma Progress(o: Oracle, submitId: nat, es: seq<Event>, r: World, id: Id)
    requires Run(o, Start(submitId), es, r) && r.s.given == map[]
    ensures Ask(|o.tests|, r.s, id).1.Some? <==> !IsFinal(|o.tests|, r.s)
  {
    RunKeepsInv(o, submitId, Start(submitId), es, r);
    hide Inv, Ask;
    IdleIsFinished(o, submitId, r, id);
    AskKeepsFinished(o, submitId, r, id);
  }

  lemma IdleIsFinished(o: Oracle, submitId: nat, w: World, id: Id)
    requires Inv(o, submitId, w) && w.s.given == map[]
    ensures IsFinal(|o.tests|, w.s) || Ask(|o.tests|, w.s, id).1.Some?
  {
    var s := w.s;
    match s.phase
    case NotStarted =>
    case Started =>
      CompilingHasJob(submitId, w);
    case Compiled =>
      assert !IsFinal(|o.tests|, s) ==> TestOK(o, s, s.testedPrefixLength + 1);
  }

  // ---------- every run can be finished ----------

  /** What is left to give and to answer. */
  function Remaining(n: nat, s: State): nat
    requires Bounded(n, s)
  {
    2 * (n + 1 - s.firstTestToGive) + |s.given| + (if s.phase == NotStarted then 2 else 0)
  }

  /** The oracle's answer to a job that is out. */
  function Honestly(o: Oracle, job: Job): JobResult
    requires 1 <= job.test <= |o.tests| || job.kind == CompileJob
  {
    if job.kind == CompileJob then o.compile else o.tests[job.test - 1]
  }

  lemma JobsCanBeAnswered(o: Oracle, submitId: nat, w: World, id: Id)
    requires Inv(o, submitId, w) && id in w.s.given
    ensures w.s.phase != NotStarted
    ensures w.s.given[id].kind == CompileJob || 1 <= w.s.given[id].test <= |o.tests|
  {
    if w.s.phase == Compiled {
      assert JobOK(o, w, id);
    }
  }

  lemma AnsweringShrinks(n: nat, s: State, id: Id, a: JobResult)
    requires Bounded(n, s) && id in s.given && s.phase != NotStarted
    ensures Remaining(n, Answer(n, s, id, a).0) < Remaining(n, s)
  {
    hide Answer;
    AnswerShape(n, s, id, a);
    assert s.given.Keys == (s.given - {id}).Keys + {id};
    assert |s.given.Keys| == |(s.given - {id}).Keys| + 1;
  }

  lemma AskingShrinks(n: nat, s: State, id: Id)
    requires Bounded(n, s) && s.given == map[] && Ask(n, s, 0).1.Some?
    ensures Ask(n, s, id).1.Some? && Bounded(n, Ask(n, s, id).0)
    ensures Remaining(n, Ask(n, s, id).0) < Remaining(n, s)
  {
    assert |Ask(n, s, id).0.given.Keys| == |{id}|;
  }

  lemma {:induction false} CanBeFinished(o: Oracle, submitId: nat, w: World) returns (es: seq<Event>, r: World)
    requires Inv(o, submitId, w)
    ensures Run(o, w, es, r) && IsFinal(|o.tests|, r.s)
    decreases Remaining(|o.tests|, w.s)
  {
    var n := |o.tests|;
    var e: Event;
    es, r := [], w;
    hide TestsOK, JobsOK, PublishedOK, Ask, Answer, Remaining;
    if w.s.given != map[] {
      var id :| id in w.s.given;
      JobsCanBeAnswered(o, submitId, w, id);
      e := Answered(id, Honestly(o, w.s.given[id]));
      AnsweringShrinks(n, w.s, id, e.r);
    } else if Ask(n, w.s, 0).1.Some? {
      var id := FreshId(w.used);
      e := Asked(id);
      AskingShrinks(n, w.s, id);
    } else {
      IdleIsFinished(o, submitId, w, 0);
      return;
    }
    hide Inv;
    StepKeepsInv(o, submitId, w, e);
    es, r := CanBeFinished(o, submitId, Next(n, w, e));
    assert ([e] + es)[1..] == es;
    es := [e] + es;
  }

  lemma {:induction false} RunThen(o: Oracle, w: World, es: seq<Event>, m: World, fs: seq<Event>, r: World)
    requires Run(o, w, es, m) && Run(o, m, fs, r)
    ensures Run(o, w, es + fs, r)
    decreases |es|
  {
    hide Allowed, Next, Bounded;
    if es == [] {
      assert es + fs == fs;
    } else {
      RunThen(o, Next(|o.tests|, w, es[0]), es[1..], m, fs, r);
      assert (es + fs)[1..] == es[1..] + fs;
    }
  }

  /** Wherever a run stands, it can go on to the end, with the judge's submission. */
  lemma EveryRunCanBeFinished(o: Oracle, submitId: nat, es: seq<Event>, r: World) returns (more: seq<Event>, q: World)
    requires Run(o, Start(submitId), es, r)
    ensures Run(o, Start(submitId), es + more, q) && IsFinal(|o.tests|, q.s) && q.s.sub == Judge(o, submitId)
  {
    hide Run, IsFinal, Judge;
    RunKeepsInv(o, submitId, Start(submitId), es, r);
    hide Inv;
    more, q := CanBeFinished(o, submitId, r);
    RunThen(o, Start(submitId), es, r, more, q);
    ReturnedExactlyOnce(o, submitId, es + more, q);
  }

  /** The tests of the jobs handed out along a run. */
  function GivenTests(o: Oracle, w: World, es: seq<Event>, r: World): seq<nat>
    requires Run(o, w, es, r)
    decreases |es|
  {
    if es == [] then []
    else
      var rest := GivenTests(o, Next(|o.tests|, w, es[0]), es[1..], r);
      if !es[0].Asked? then rest
      else
        var job := Ask(|o.tests|, w.s, es[0].id).1;
        if job.Some? && job.value.kind == TestJob then [job.value.test] + rest else rest
  }

  /** Tests are handed out in increasing order along every run, so each at most once. */
  lemma {:induction false} TestsAreGivenInOrder(o: Oracle, w: World, es: seq<Event>, r: World)
    requires Run(o, w, es, r)
    ensures Ascending(GivenTests(o, w, es, r), w.s.firstTestToGive, |o.tests|)
    decreases |es|
  {
    hide Honest, Ask, Answer;
    if es != [] {
      var n := Next(|o.tests|, w, es[0]);
      var rest := GivenTests(o, n, es[1..], r);
      TestsAreGivenInOrder(o, n, es[1..], r);
      match es[0]
      case Asked(id) =>
        AskAdvances(|o.tests|, w, id);
        var job := Ask(|o.tests|, w.s, id).1;
        AscendingFromBelow(rest, n.s.firstTestToGive,
                           if job.Some? && job.value.kind == TestJob then job.value.test + 1 else w.s.firstTestToGive,
                           |o.tests|);
        assert job.Some? ==> ([job.value.test] + rest)[1..] == rest;
      case Accepted(id, a) =>
      case Answered(id, a) =>
        AnswerShape(|o.tests|, w.s, id, a);
        AscendingFromBelow(rest, n.s.firstTestToGive, w.s.firstTestToGive, |o.tests|);
    }
  }

  lemma AskAdvances(n: nat, w: World, id: Id)
    requires Bounded(n, w.s)
    ensures var (next, job) := Ask(n, w.s, id);
            && w.s.firstTestToGive <= next.firstTestToGive
            && (job.Some? && job.value.kind == TestJob ==>
                  job.value.test == w.s.firstTestToGive < next.firstTestToGive <= n + 1)
  {
  }

  /** No test is handed out twice. */
  lemma EachTestIsGivenOnce(o: Oracle, submitId: nat, es: seq<Event>, r: World, i: nat, j: nat)
    requires Run(o, Start(submitId), es, r)
    requires i < j < |GivenTests(o, Start(submitId), es, r)|
    ensures var tests := GivenTests(o, Start(submitId), es, r); 1 <= tests[i] < tests[j] <= |o.tests|
  {
    TestsAreGivenInOrder(o, Start(submitId), es, r);
    AscendingIsIncreasing(GivenTests(o, Start(submitId), es, r), 1, |o.tests|);
  }

  // ---------- what a job requires ----------

  predicate RequiresEarlier(given: map<Id, Job>, k: Id, j: Id)
    requires k in given && j in given
  {
    given[j].test < given[k].test ==> j in given[k].required
  }

  ghost predicate RequirementsOK(s: State) {
    s.phase == Compiled ==>
      forall k, j {:trigger RequiresEarlier(s.given, k, j)} ::
        k in s.given && j in s.given ==> RequiresEarlier(s.given, k, j)
  }

  lemma StepKeepsRequirements(o: Oracle, submitId: nat, w: World, e: Event)
    requires Inv(o, submitId, w) && Allowed(o, w, e) && RequirementsOK(w.s)
    ensures RequirementsOK(Next(|o.tests|, w, e).s)
  {
    hide TestsOK, PublishedOK, Judged, Blocked, Answer, Honest, VerdictAfter;
    var r := Next(|o.tests|, w, e).s;
    if e.Answered? {
      AnswerShape(|o.tests|, w.s, e.id, e.r);
    }
    if w.s.phase == Compiled {
      forall k, j | k in r.given && j in r.given
        ensures RequiresEarlier(r.given, k, j)
      {
        assert k in w.s.given && j in w.s.given ==> RequiresEarlier(w.s.given, k, j);
        if e.Asked? && j == e.id && k in w.s.given {
          assert JobOK(o, w, k);
          GivenTestsComeBefore(o, submitId, w, k);
        }
      }
    }
  }

  lemma GivenTestsComeBefore(o: Oracle, submitId: nat, w: World, id: Id)
    requires Inv(o, submitId, w) && w.s.phase == Compiled && id in w.s.given
    ensures w.s.given[id].test < w.s.firstTestToGive
  {
    var t := w.s.given[id].test;
    assert JobOK(o, w, id) && RunsTest(w.s.given, id, t) && TestOK(o, w.s, t);
  }

  lemma {:induction false} RunKeepsRequirements(o: Oracle, submitId: nat, w: World, es: seq<Event>, r: World)
    requires Inv(o, submitId, w) && Run(o, w, es, r) && RequirementsOK(w.s)
    ensures RequirementsOK(r.s)
    decreases |es|
  {
    hide Inv, Allowed, Next, RequirementsOK;
    if es != [] {
      StepKeepsRequirements(o, submitId, w, es[0]);
      StepKeepsInv(o, submitId, w, es[0]);
      RunKeepsRequirements(o, submitId, Next(|o.tests|, w, es[0]), es[1..], r);
    }
  }

  /** In every run, once compiled, a job that is out requires another one exactly if that one runs an earlier test. */
  lemma RequiredExactly(o: Oracle, submitId: nat, es: seq<Event>, r: World, k: Id, j: Id)
    requires Run(o, Start(submitId), es, r) && r.s.phase == Compiled && k in r.s.given && j in r.s.given
    ensures j in r.s.given[k].required <==> r.s.given[j].test < r.s.given[k].test
  {
    hide Run, TestsOK, PublishedOK, Judged, Blocked, VerdictAfter;
    RunKeepsInv(o, submitId, Start(submitId), es, r);
    RunKeepsRequirements(o, submitId, Start(submitId), es, r);
    assert RequiresEarlier(r.s.given, k, j) && JobOK(o, r, k);
  }

  // ---------- the branch that turns SK into CF ----------

  /** The judge does not skip test t, and yet its own run answers SK. */
  predicate AnswersSkip(o: Oracle, t: nat) {
    1 <= t <= |o.tests| && VerdictAfter(o, t - 1) == RU && o.tests[t - 1].verdict == SK
  }

  ghost predicate SomeAnswersSkip(o: Oracle, lo: nat, hi: nat) {
    exists t: nat :: lo < t <= hi && AnswersSkip(o, t)
  }

  predicate RepairsOne(s: State)
    requires s.testedPrefixLength + 1 in s.results
  {
    s.sub.verdict == RU && s.results[s.testedPrefixLength + 1].verdict == SK
  }

  /** Publication from here on takes that branch. */
  predicate Repairs(n: nat, s: State)
    requires Bounded(n, s)
    decreases n - s.testedPrefixLength
  {
    !Blocked(n, s) && (RepairsOne(s) || Repairs(n, PublishOne(s)))
  }

  predicate RepairsAt(n: nat, w: World, e: Event)
    requires Bounded(n, w.s)
  {
    e.Answered? && e.id in w.s.given && Repairs(n, Received(n, w.s, e.id, e.r))
  }

  predicate EverRepairs(o: Oracle, w: World, es: seq<Event>, r: World)
    requires Run(o, w, es, r)
    decreases |es|
  {
    es != [] && (RepairsAt(|o.tests|, w, es[0]) || EverRepairs(o, Next(|o.tests|, w, es[0]), es[1..], r))
  }

  lemma {:induction false} RepairsExactly(o: Oracle, submitId: nat, s: State)
    requires Bounded(|o.tests|, s) && TestsOK(o, s) && PublishedOK(o, submitId, s)
    ensures var r := Publish(|o.tests|, s);
            && s.testedPrefixLength <= r.testedPrefixLength
            && (Repairs(|o.tests|, s) <==> SomeAnswersSkip(o, s.testedPrefixLength, r.testedPrefixLength))
    decreases |o.tests| - s.testedPrefixLength
  {
    if !Blocked(|o.tests|, s) {
      var t, r := s.testedPrefixLength + 1, Publish(|o.tests|, s);
      assert TestOK(o, s, t);
      assert RepairsOne(s) <==> AnswersSkip(o, t);
      PublishOneIsJudge(o, submitId, s);
      hide TestsOK, PublishedOK, AnswersSkip, RepairsOne;
      RepairsExactly(o, submitId, PublishOne(s));
      SplitTests(o, t - 1, t, r.testedPrefixLength);
      OneTest(o, t);
    }
  }

  lemma OneTest(o: Oracle, t: nat)
    requires t > 0
    ensures SomeAnswersSkip(o, t - 1, t) <==> AnswersSkip(o, t)
  {
  }

  lemma SplitTests(o: Oracle, lo: nat, mid: nat, hi: nat)
    requires lo <= mid <= hi
    ensures SomeAnswersSkip(o, lo, hi) <==> SomeAnswersSkip(o, lo, mid) || SomeAnswersSkip(o, mid, hi)
  {
    hide AnswersSkip;
    if SomeAnswersSkip(o, lo, hi) {
      var t: nat :| lo < t <= hi && AnswersSkip(o, t);
      assert t <= mid || mid < t;
    }
  }

  lemma ReceivedIsReady(o: Oracle, submitId: nat, w: World, id: Id, a: JobResult)
    requires Inv(o, submitId, w) && Allowed(o, w, Answered(id, a))
    ensures var received := Received(|o.tests|, w.s, id, a);
            && TestsOK(o, received) && PublishedOK(o, submitId, received)
            && received.testedPrefixLength == w.s.testedPrefixLength
  {
    if w.s.phase == Compiled {
      AnswerKeepsTests(o, w, id, a);
      assert JobOK(o, w, id);
      GivenTestIsUnpublished(o, w, id);
    } else {
      FreshlyCompiled(o, submitId, w.used);
      var c :| w.s == Init(submitId).(phase := Started, given := map[c := Job(c, submitId, CompileJob, 0, {})]);
      assert w.s.given - {id} == map[];
      assert Received(|o.tests|, w.s, id, a) == CompileDone(|o.tests|, Init(submitId).(phase := Started), o.compile);
    }
    hide TestsOK, JobsOK;
  }

  lemma StepRepairsExactly(o: Oracle, submitId: nat, w: World, e: Event)
    requires Inv(o, submitId, w) && Allowed(o, w, e)
    ensures var n := Next(|o.tests|, w, e).s;
            && w.s.testedPrefixLength <= n.testedPrefixLength
            && (RepairsAt(|o.tests|, w, e) <==> SomeAnswersSkip(o, w.s.testedPrefixLength, n.testedPrefixLength))
  {
    hide AnswersSkip, Publish, Received, Repairs, Honest, Live, Compiling, TestsOK, PublishedOK;
    match e
    case Asked(_) =>
    case Accepted(_, _) =>
    case Answered(id, a) =>
      ReceivedIsReady(o, submitId, w, id, a);
      RepairsExactly(o, submitId, Received(|o.tests|, w.s, id, a));
  }

  lemma {:induction false} RunRepairsExactly(o: Oracle, submitId: nat, w: World, es: seq<Event>, r: World)
    requires Inv(o, submitId, w) && Run(o, w, es, r)
    ensures w.s.testedPrefixLength <= r.s.testedPrefixLength
    ensures EverRepairs(o, w, es, r) <==> SomeAnswersSkip(o, w.s.testedPrefixLength, r.s.testedPrefixLength)
    decreases |es|
  {
    if es != [] {
      hide Inv, Allowed, Next, SomeAnswersSkip, RepairsAt;
      var n := Next(|o.tests|, w, es[0]);
      StepRepairsExactly(o, submitId, w, es[0]);
      StepKeepsInv(o, submitId, w, es[0]);
      RunRepairsExactly(o, submitId, n, es[1..], r);
      SplitTests(o, w.s.testedPrefixLength, n.s.testedPrefixLength, r.s.testedPrefixLength);
    }
  }

  /** A run turns SK into CF exactly if among the tests published so far there is one that the judge does not skip and
      whose own run answers SK. */
  lemma SkippedVerdictIsRepairedExactly(o: Oracle, submitId: nat, es: seq<Event>, r: World)
    requires Run(o, Start(submitId), es, r)
    ensures EverRepairs(o, Start(submitId), es, r) <==> SomeAnswersSkip(o, 0, r.s.testedPrefixLength)
  {
    RunRepairsExactly(o, submitId, Start(submitId), es, r);
  }

  /** When no test's own run answers SK, no run ever turns SK into CF. */
  lemma SkippedVerdictIsNeverRepaired(o: Oracle, submitId: nat, es: seq<Event>, r: World)
    requires Run(o, Start(submitId), es, r)
    requires forall i :: 0 <= i < |o.tests| ==> o.tests[i].verdict != SK
    ensures !EverRepairs(o, Start(submitId), es, r)
  {
    SkippedVerdictIsRepairedExactly(o, submitId, es, r);
  }
}
