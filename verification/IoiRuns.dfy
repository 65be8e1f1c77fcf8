/** Runs of the IOI generator: jobs asked for and answered in any order, any of them cancelled.
    However it goes, the submission it finalizes is the sequential judge's. */
module IoiRuns {
  import opened Models
  import opened IoiJudge
  import opened IoiMachine
  import opened IoiInvariant

  // ---------- NextJob keeps the invariant ----------

  lemma AskKeepsLive(p: Problem, o: Oracle, submitId: nat, w: World, id: Id)
    requires Bounded(p, w.s) && Covers(o, p) && w.s.phase == Compiled && IdsOK(w) && id !in w.used
    requires Live(p, o, submitId, w)
    ensures Live(p, o, submitId, Next(p, w, Asked(id))) && IdsOK(Next(p, w, Asked(id)))
  {
    hide SlotsOK, FlagsOK, JobsOK, RequiredOK, WellFormed, PublishedOK, Judged, HasCause;
    var s := w.s;
    PruneKeepsSlots(p, o, s);
    PruneKeepsFlags(p, o, s);
    PruneKeepsJobs(p, o, s);
    PruneKeepsBlocked(p, o, s);
    PruneMarksClosedTests(p, s);
    var pruned := Prune(p, s);
    SameJobsSameRequired(p, s, pruned);
    SamePublication(p, o, submitId, s, pruned);
    if pruned.firstNotGivenTest <= p.tests {
      GivenTestIsUnpublished(p, o, pruned);
      GiveKeepsLive(p, o, submitId, World(pruned, w.stopped, w.used), id);
    }
  }

  lemma SameJobsSameRequired(p: Problem, s: State, r: State)
    requires Partitions(p) && RequiredOK(p, s) && r.given == s.given
    ensures RequiredOK(p, r)
  {
    hide DependsOnJob;
  }

  lemma SamePublication(p: Problem, o: Oracle, submitId: nat, s: State, r: State)
    requires Sized(p, s) && Sized(p, r) && Covers(o, p)
    requires r.sub == s.sub && r.firstNotCompletedTest == s.firstNotCompletedTest
    requires r.firstNotCompletedGroup == s.firstNotCompletedGroup
    ensures PublishedOK(p, o, submitId, s) ==> PublishedOK(p, o, submitId, r)
    ensures Judged(p, o, submitId, s) && r.given == s.given ==> Judged(p, o, submitId, r)
  {
    hide Judge, Crashes;
  }

  lemma GiveKeepsLive(p: Problem, o: Oracle, submitId: nat, w: World, id: Id)
    requires Bounded(p, w.s) && Covers(o, p) && IdsOK(w) && id !in w.used
    requires Live(p, o, submitId, w)
    requires IsTest(p, w.s.firstNotGivenTest) && w.s.firstNotCompletedTest <= w.s.firstNotGivenTest
    ensures var r := World(Give(p, w.s, id), w.stopped, w.used + {id}); Live(p, o, submitId, r) && IdsOK(r)
  {
    hide SlotsOK, FlagsOK, JobsOK, RequiredOK, WellFormed, PublishedOK, HasCause, Dead, DependsOnJob;
    var s := w.s;
    var r := Give(p, s, id);
    GiveKeepsSlots(p, o, s, id);
    GiveKeepsFlags(p, o, s, id);
    GiveKeepsJobs(p, o, s, id);
    GiveKeepsRequired(p, o, s, id, w.used);
    SamePublication(p, o, submitId, s, r);
  }

  // ---------- JobCompleted keeps the invariant ----------

  lemma JudgedScore(p: Problem, o: Oracle, submitId: nat, s: State)
    requires Bounded(p, s) && Covers(o, p) && PublishedOK(p, o, submitId, s) && Unscored(o, s)
    requires s.firstNotCompletedTest == p.tests + 1 && s.given == map[]
    ensures Judged(p, o, submitId, Scored(s))
  {
    hide HasCause, WellFormed, JudgeTests, JudgeGroups, FinalVerdict, TotalPoints, JudgeScore;
    if s.firstNotCompletedGroup <= |p.groups| {
      GroupEndsInside(p, s.firstNotCompletedGroup - 1);
    }
    assert s.sub.testResults == JudgeTests(p, o, p.tests);
    assert s.sub.groupResults == JudgeGroups(p, o, |p.groups|);
    assert Scored(s).sub == Judge(p, o, submitId);
  }

  /** While a job is left something is unpublished: the last publication finds no job and finalizes. */
  lemma JobsAreUnpublished(p: Problem, o: Oracle, s: State)
    requires Sized(p, s) && Covers(o, p) && SlotsOK(p, o, s) && JobsOK(p, s)
    ensures s.given != map[] ==> s.firstNotCompletedTest <= p.tests
  {
    hide Dead, Built;
    if s.given != map[] {
      var id :| id in s.given;
      assert JobOK(p, s, id) && SlotOK(p, o, s, s.given[id].test);
    }
  }

  lemma UpdateKeepsPublished(p: Problem, o: Oracle, submitId: nat, s: State)
    requires Bounded(p, s) && Covers(o, p) && Core(p, o, submitId, s) && Unscored(o, s)
    requires JobsOK(p, s)
    ensures var r := Update(p, s);
            if r.0.crashed then Crashes(p, o)
            else
              && SlotsOK(p, o, r.0) && FlagsOK(p, o, r.0) && JobsOK(p, r.0) && Blocked(p, r.0)
              && r.0.given == s.given && r.0.phase == s.phase
              && if r.0.firstNotCompletedTest <= p.tests then PublishedOK(p, o, submitId, r.0) && Unscored(o, r.0)
                 else Judged(p, o, submitId, r.0)
  {
    hide SlotsOK, FlagsOK, WellFormed, PublishedOK, HasCause, Judged;
    PublishKeepsCore(p, o, submitId, s);
    var published := Publish(p, s);
    if !published.crashed {
      assert JobsOK(p, published) by { SameJobs(p, s, published); }
      if published.firstNotCompletedTest > p.tests {
        JobsAreUnpublished(p, o, published);
        JudgedScore(p, o, submitId, published);
        ScoringIsInvisible(p, o, published);
      }
    }
  }

  lemma SameJobs(p: Problem, s: State, r: State)
    requires |s.slots| == p.tests && JobsOK(p, s) && r.slots == s.slots && r.given == s.given
    ensures JobsOK(p, r)
  {
    forall id | id in r.given
      ensures JobOK(p, r, id)
    {
      assert JobOK(p, s, id);
    }
    forall i, j, t | RunsTest(r.given, i, t) && RunsTest(r.given, j, t)
      ensures i == j
    {
      assert RunsTest(s.given, i, t) && RunsTest(s.given, j, t);
    }
    forall t: nat | IsTest(p, t) && r.slots[t - 1].state == Running
      ensures HasJob(r.given, t)
    {
      assert HasJob(s.given, t);
      var id :| RunsTest(s.given, id, t);
      assert RunsTest(r.given, id, t);
    }
  }

  lemma ScoringIsInvisible(p: Problem, o: Oracle, s: State)
    requires Sized(p, s) && Covers(o, p) && SlotsOK(p, o, s) && FlagsOK(p, o, s) && JobsOK(p, s)
    ensures SlotsOK(p, o, Scored(s)) && FlagsOK(p, o, Scored(s)) && JobsOK(p, Scored(s))
  {
    hide Dead, Built, ClosedUnder, FinalVerdict, Fails;
    var r := Scored(s);
    forall t: nat | IsTest(p, t)
      ensures SlotOK(p, o, r, t) && Noted(p, o, r, t)
    {
      assert SlotOK(p, o, s, t) && Noted(p, o, s, t);
    }
    SameJobs(p, s, r);
  }

  lemma StoppedAfterIsSkipped(p: Problem, o: Oracle, w: World, id: Id, r: JobResult)
    requires WellFormed(p) && Covers(o, p) && |w.s.slots| == p.tests && JobsOK(p, w.s) && RequiredOK(p, w.s)
    requires StopsOK(p, o, w) && id in w.s.given
    requires IsTest(p, w.s.given[id].test) && Plausible(p, o, w.s.given[id].test, r)
    ensures forall k :: k in w.stopped + Stops(w.s.given, id, r) && k in w.s.given && IsTest(p, w.s.given[k].test)
              ==> GroupOf(p, w.s.given[k].test).name in Dead(p, o, w.s.given[k].test - 1)
  {
    forall k | k in w.stopped + Stops(w.s.given, id, r) && k in w.s.given && IsTest(p, w.s.given[k].test)
      ensures GroupOf(p, w.s.given[k].test).name in Dead(p, o, w.s.given[k].test - 1)
    {
      if k !in w.stopped {
        StoppedJobIsSkipped(p, o, w.s, k, id, r);
      }
    }
  }

  /** `Live` between taking in an answer and publishing: the cursor may have become unblocked. */
  ghost predicate Ready(p: Problem, o: Oracle, submitId: nat, w: World)
    requires Bounded(p, w.s) && Covers(o, p)
  {
    && CompilesOK(o)
    && SlotsOK(p, o, w.s) && FlagsOK(p, o, w.s) && JobsOK(p, w.s)
    && RequiredOK(p, w.s) && StopsOK(p, o, w) && IdsOK(w)
    && PublishedOK(p, o, submitId, w.s) && Unscored(o, w.s)
  }

  lemma ReceivingMakesReady(p: Problem, o: Oracle, submitId: nat, w: World, id: Id, r: JobResult)
    requires Bounded(p, w.s) && Covers(o, p) && IdsOK(w)
    requires Live(p, o, submitId, w) && Allowed(p, o, w, Answered(id, r))
    ensures Ready(p, o, submitId, World(Received(p, w.s, id, r), w.stopped, w.used))
  {
    hide SlotsOK, FlagsOK, WellFormed, HasCause, Judged, DependsOnJob, Dead, Built, ClosedAfter, Blocked, RequiredOK,
      Honest, Plausible, StopsOK, PublishedOK;
    var s := w.s;
    AnsweredJobRuns(p, o, submitId, w, id, r);
    var t := s.given[id].test;
    JobsAreUnpublished(p, o, s);
    var received := Received(p, s, id, r);
    var without := s.(given := s.given - {id});
    SlotsAndFlagsIgnoreJobs(p, o, s, without);
    AnswerKeepsSlots(p, o, without, t, r);
    AnswerKeepsFlags(p, o, without, t, r);
    AnswerKeepsJobs(p, s, id, r);
    AnswerKeepsRequired(p, s, id, r);
    SamePublication(p, o, submitId, s, received);
    FewerJobsKeepStops(p, o, w, received);
  }

  lemma AnsweredJobRuns(p: Problem, o: Oracle, submitId: nat, w: World, id: Id, r: JobResult)
    requires Bounded(p, w.s) && Covers(o, p) && Live(p, o, submitId, w) && Allowed(p, o, w, Answered(id, r))
    ensures w.s.given[id].kind == TestJob && IsTest(p, w.s.given[id].test)
    ensures w.s.slots[w.s.given[id].test - 1].state == Running && w.s.given[id].test < w.s.firstNotGivenTest
    ensures Plausible(p, o, w.s.given[id].test, r)
  {
    hide SlotsOK, FlagsOK, WellFormed, HasCause, Judged, DependsOnJob, Dead, Built, Blocked, RequiredOK, PublishedOK,
      Partitions;
    WellFormedPartitions(p);
    assert JobOK(p, w.s, id);
    SlotsGiveSlot(p, o, w.s, w.s.given[id].test);
  }

  lemma FewerJobsKeepStops(p: Problem, o: Oracle, w: World, s: State)
    requires Partitions(p) && Covers(o, p) && StopsOK(p, o, w)
    requires forall k :: k in s.given ==> k in w.s.given && s.given[k] == w.s.given[k]
    ensures StopsOK(p, o, World(s, w.stopped, w.used))
  {
    hide Partitions, Dead;
  }

  lemma AcceptKeepsLive(p: Problem, o: Oracle, submitId: nat, w: World, id: Id, r: JobResult)
    requires Bounded(p, w.s) && Covers(o, p) && IdsOK(w)
    requires Live(p, o, submitId, w) && Allowed(p, o, w, Accepted(id, r))
    ensures Live(p, o, submitId, Next(p, w, Accepted(id, r))) && IdsOK(Next(p, w, Accepted(id, r)))
  {
    hide SlotsOK, FlagsOK, HasCause, Judged, DependsOnJob, Dead, Built, Blocked, RequiredOK, PublishedOK;
    assert JobOK(p, w.s, id);
    assert Plausible(p, o, w.s.given[id].test, r);
    hide WellFormed;
    StoppedAfterIsSkipped(p, o, w, id, r);
  }

  lemma UpdateMakesLive(p: Problem, o: Oracle, submitId: nat, w: World)
    requires Bounded(p, w.s) && Covers(o, p) && Ready(p, o, submitId, w)
    ensures var s := Update(p, w.s).0;
            var r := World(s, w.stopped, w.used);
            if s.crashed then Crashes(p, o) else Live(p, o, submitId, r) && IdsOK(r)
  {
    hide SlotsOK, FlagsOK, WellFormed, HasCause, Judged, DependsOnJob, Dead, JobsOK, Update, RequiredOK;
    UpdateKeepsPublished(p, o, submitId, w.s);
    var s := Update(p, w.s).0;
    if !s.crashed {
      SameJobsSameRequired(p, w.s, s);
    }
  }

  lemma TestAnswerKeepsLive(p: Problem, o: Oracle, submitId: nat, w: World, id: Id, r: JobResult)
    requires Bounded(p, w.s) && Covers(o, p) && w.s.phase == Compiled && IdsOK(w)
    requires Live(p, o, submitId, w) && Allowed(p, o, w, Answered(id, r))
    ensures var n := Next(p, w, Answered(id, r));
            if n.s.crashed then Crashes(p, o) else Live(p, o, submitId, n) && IdsOK(n) && n.s.phase == Compiled
  {
    hide Ready, Live, IdsOK, WellFormed, HasCause, Dead, ClosedAfter, Built, Honest;
    ReceivingMakesReady(p, o, submitId, w, id, r);
    AnsweredJobRuns(p, o, submitId, w, id, r);
    UpdateMakesLive(p, o, submitId, World(Received(p, w.s, id, r), w.stopped, w.used));
  }

  lemma SlotsAndFlagsIgnoreJobs(p: Problem, o: Oracle, s: State, r: State)
    requires Sized(p, s) && Covers(o, p) && SlotsOK(p, o, s) && FlagsOK(p, o, s) && r == s.(given := r.given)
    ensures SlotsOK(p, o, r) && FlagsOK(p, o, r)
  {
    hide Dead, Built, ClosedUnder, Fails;
    forall t: nat | IsTest(p, t)
      ensures SlotOK(p, o, r, t) && Noted(p, o, r, t)
    {
      assert SlotOK(p, o, s, t) && Noted(p, o, s, t);
    }
  }

  // ---------- compilation ----------

  lemma FreshCore(p: Problem, o: Oracle, submitId: nat)
    requires WellFormed(p) && Covers(o, p)
    ensures var s := CompileDone(p, Init(p, submitId).(phase := Started), o.compile);
            Sized(p, s) && Core(p, o, submitId, s) && Unscored(o, s) && JobsOK(p, s) && RequiredOK(p, s)
  {
    hide Fails, Built, WellFormed, Partitions, GroupIndex, JudgeTest, JudgeScore;
    WellFormedPartitions(p);
    var s := CompileDone(p, Init(p, submitId).(phase := Started), o.compile);
    forall t: nat | IsTest(p, t)
      ensures SlotOK(p, o, s, t) && Noted(p, o, s, t)
    {
    }
    assert {} + Names(p) == Names(p);
    assert JudgeTests(p, o, 0) == [] && JudgeGroups(p, o, 0) == [];
  }

  lemma StartIsInv(p: Problem, o: Oracle, submitId: nat)
    requires WellFormed(p) && Covers(o, p)
    ensures Inv(p, o, submitId, Start(p, submitId))
  {
    if |p.groups| > 0 {
      GroupEndsInside(p, 0);
    }
  }

  lemma CompileAnswerKeepsInv(p: Problem, o: Oracle, submitId: nat, w: World, id: Id, r: JobResult)
    requires Bounded(p, w.s) && Covers(o, p) && IdsOK(w) && Compiling(p, submitId, w.s)
    requires Allowed(p, o, w, Answered(id, r))
    ensures Inv(p, o, submitId, Next(p, w, Answered(id, r)))
  {
    hide WellFormed, HasCause, Core, Judged, Update, Partitions, FlagsOK, SlotsOK, JobsOK, RequiredOK, Crashes;
    WellFormedPartitions(p);
    FreshCore(p, o, submitId);
    var s := CompileDone(p, Init(p, submitId).(phase := Started), o.compile);
    assert Received(p, w.s, id, r) == s;
    UpdateKeepsPublished(p, o, submitId, s);
    var n := Update(p, s).0;
    if !n.crashed {
      SameJobsSameRequired(p, s, n);
      if !CompilesOK(o) {
        FailedCompilationPublishesAll(p, o, submitId, n);
      }
    }
  }

  lemma FailedCompilationPublishesAll(p: Problem, o: Oracle, submitId: nat, s: State)
    requires Bounded(p, s) && Covers(o, p) && !CompilesOK(o)
    requires FlagsOK(p, o, s) && JobsOK(p, s) && SlotsOK(p, o, s) && Blocked(p, s) && s.given == map[]
    ensures s.firstNotCompletedTest > p.tests
  {
    var t := s.firstNotCompletedTest;
    assert t <= p.tests && s.slots[t - 1].state == Running ==> HasJob(s.given, t);
    assert t <= p.tests ==> GroupOf(p, t).name in Names(p);
    if t <= p.tests {
      DeadGrows(p, o, 0, t - 1);
    }
  }

  // ---------- runs ----------

  lemma StepKeepsInv(p: Problem, o: Oracle, submitId: nat, w: World, e: Event)
    requires WellFormed(p) && Covers(o, p) && Inv(p, o, submitId, w) && !w.s.crashed && Allowed(p, o, w, e)
    ensures Inv(p, o, submitId, Next(p, w, e))
  {
    hide WellFormed, HasCause, Live, Judged, Update, Honest;
    match w.s.phase
    case NotStarted =>
    case Compiled =>
      if e.Asked? {
        AskKeepsLive(p, o, submitId, w, e.id);
      } else if e.Accepted? {
        AcceptKeepsLive(p, o, submitId, w, e.id, e.r);
      } else {
        TestAnswerKeepsLive(p, o, submitId, w, e.id, e.r);
      }
    case Started =>
      if e.Answered? && Compiling(p, submitId, w.s) {
        CompileAnswerKeepsInv(p, o, submitId, w, e.id, e.r);
      } else if e.Answered? {
        JudgedHasNoJobs(p, o, submitId, w.s);
      }
  }

  lemma JudgedHasNoJobs(p: Problem, o: Oracle, submitId: nat, s: State)
    requires WellFormed(p) && Covers(o, p) && Judged(p, o, submitId, s)
    ensures s.given == map[]
  {
  }

  lemma {:induction false} RunKeepsInv(p: Problem, o: Oracle, submitId: nat, w: World, es: seq<Event>, r: World)
    requires WellFormed(p) && Covers(o, p) && Inv(p, o, submitId, w) && Run(p, o, w, es, r)
    ensures Inv(p, o, submitId, r)
    decreases |es|
  {
    hide WellFormed, Inv, Allowed, Next;
    if es != [] {
      StepKeepsInv(p, o, submitId, w, es[0]);
      RunKeepsInv(p, o, submitId, Next(p, w, es[0]), es[1..], r);
    }
  }
}
