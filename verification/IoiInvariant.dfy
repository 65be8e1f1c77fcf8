/** The invariant that ties the concurrent IOI generator to the sequential judge, and why every step keeps it. */
module IoiInvariant {
  import opened Models
  import opened IoiJudge
  import Rounding
  import opened IoiMachine

  // ---------- facts about the judge's dead groups ----------

  lemma {:induction false} DeadIsClosed(p: Problem, o: Oracle, k: nat)
    requires WellFormed(p) && Covers(o, p) && k <= p.tests
    ensures ClosedUnder(p, Dead(p, o, k))
    ensures Dead(p, o, k) <= Names(p)
  {
    assert ClosedUnder(p, Names(p));
    if k > 0 {
      DeadIsClosed(p, o, k - 1);
      if Fails(p, o, k) {
        var seed := Dead(p, o, k - 1) + {GroupOf(p, k).name};
        PropagateIsLeastClosedSuperset(p, seed);
      }
    }
  }

  lemma {:induction false} DeadGrows(p: Problem, o: Oracle, j: nat, k: nat)
    requires WellFormed(p) && Covers(o, p) && j <= k <= p.tests
    ensures Dead(p, o, j) <= Dead(p, o, k)
    decreases k
  {
    if j < k {
      DeadGrows(p, o, j, k - 1);
      if Fails(p, o, k) {
        PropagateIsLeastClosedSuperset(p, Dead(p, o, k - 1) + {GroupOf(p, k).name});
      }
    }
  }

  lemma FailingTestKillsItsGroup(p: Problem, o: Oracle, t: nat, k: nat)
    requires WellFormed(p) && Covers(o, p) && IsTest(p, t) && t <= k <= p.tests && Fails(p, o, t)
    ensures GroupOf(p, t).name in Dead(p, o, k)
  {
    PropagateIsLeastClosedSuperset(p, Dead(p, o, t - 1) + {GroupOf(p, t).name});
    DeadGrows(p, o, t, k);
  }

  lemma DeadGroupAddsNothing(p: Problem, o: Oracle, t: nat)
    requires WellFormed(p) && Covers(o, p) && IsTest(p, t) && GroupOf(p, t).name in Dead(p, o, t - 1)
    ensures Dead(p, o, t) == Dead(p, o, t - 1)
  {
    DeadIsClosed(p, o, t - 1);
    var before := Dead(p, o, t - 1);
    assert before + {GroupOf(p, t).name} == before;
    PropagateIsLeastClosedSuperset(p, before);
    assert before <= before;
  }

  lemma SkippedVerdictPreventsLikeFailure(g: Group, r: TestResult)
    ensures Prevents(g, Repair(r).verdict) == Prevents(g, r.verdict)
  {
  }

  // ---------- the environment ----------

  /** `stopped` holds the jobs the registry asked an invoker to stop; `used` every identifier ever drawn. */
  datatype World = World(s: State, stopped: set<Id>, used: set<Id>)

  predicate Allowed(p: Problem, o: Oracle, w: World, e: Event)
    requires Bounded(p, w.s) && Covers(o, p)
  {
    match e
    case Asked(id) => id !in w.used
    case Accepted(id, r) => id in w.s.given && Honest(o, w.stopped, id, w.s.given[id], r)
    case Answered(id, r) => id in w.s.given && Honest(o, w.stopped, id, w.s.given[id], r)
  }

  function Next(p: Problem, w: World, e: Event): (r: World)
    requires Bounded(p, w.s)
    ensures !r.s.crashed ==> Bounded(p, r.s)
  {
    match e
    case Asked(id) => World(Ask(p, w.s, id).0, w.stopped, w.used + {id})
    case Accepted(id, r) => World(w.s, w.stopped + Stops(w.s.given, id, r), w.used)
    case Answered(id, r) => World(Answer(p, w.s, id, r).0, w.stopped, w.used)
  }

  function Start(p: Problem, submitId: nat): World {
    World(Init(p, submitId), {}, {})
  }

  /** `es` leads from w to r; nothing happens after a panic. */
  predicate Run(p: Problem, o: Oracle, w: World, es: seq<Event>, r: World)
    requires Covers(o, p)
    decreases |es|
  {
    if es == [] then w == r
    else Bounded(p, w.s) && Allowed(p, o, w, es[0]) && Run(p, o, Next(p, w, es[0]), es[1..], r)
  }

  // ---------- the invariant after compilation ----------

  ghost predicate SlotOK(p: Problem, o: Oracle, s: State, t: nat)
    requires Partitions(p) && Covers(o, p) && |s.slots| == p.tests && IsTest(p, t)
  {
    var slot := s.slots[t - 1];
    && slot.result.testNumber == t
    && (slot.state == NotGiven <==> s.firstNotGivenTest <= t)
    && (slot.state == Running ==> s.firstNotCompletedTest <= t)
    && (|| GroupOf(p, t).name in Dead(p, o, t - 1)
        || slot.state == Running
        || (slot.state == NotGiven && s.firstNotCompletedTest <= t)
        || (slot.state == Finished && slot.result == Built(p, t, o.tests[t - 1])))
  }

  ghost predicate SlotsOK(p: Problem, o: Oracle, s: State)
    requires Partitions(p) && Covers(o, p) && |s.slots| == p.tests
  {
    forall t: nat {:trigger SlotOK(p, o, s, t)} :: IsTest(p, t) ==> SlotOK(p, o, s, t)
  }

  ghost predicate JobOK(p: Problem, s: State, id: Id)
    requires |s.slots| == p.tests && id in s.given
  {
    var job := s.given[id];
    job.kind == TestJob && job.id == id && IsTest(p, job.test) && s.slots[job.test - 1].state == Running
  }

  /** A running test has exactly one job, and no other test has one. */
  ghost predicate JobsOK(p: Problem, s: State)
    requires |s.slots| == p.tests
  {
    && (forall id {:trigger JobOK(p, s, id)} :: id in s.given ==> JobOK(p, s, id))
    && (forall i, j, t {:trigger RunsTest(s.given, i, t), RunsTest(s.given, j, t)} ::
          RunsTest(s.given, i, t) && RunsTest(s.given, j, t) ==> i == j)
    && (forall t: nat {:trigger HasJob(s.given, t)} ::
          IsTest(p, t) && s.slots[t - 1].state == Running ==> HasJob(s.given, t))
  }

  /** A finished test that fails and is judged has closed its group. */
  ghost predicate Noted(p: Problem, o: Oracle, s: State, t: nat)
    requires Partitions(p) && Covers(o, p) && |s.slots| == p.tests && IsTest(p, t)
  {
    s.slots[t - 1].state == Finished && Fails(p, o, t) && GroupOf(p, t).name !in Dead(p, o, t - 1)
    ==> GroupOf(p, t).name in s.closed
  }

  ghost predicate FlagsOK(p: Problem, o: Oracle, s: State)
    requires Sized(p, s) && Covers(o, p)
  {
    && s.closed <= Dead(p, o, s.firstNotGivenTest - 1)
    && ClosedUnder(p, s.closed)
    && s.skip == Dead(p, o, s.firstNotCompletedTest - 1)
    && (CompilesOK(o) ==> s.skip <= s.closed)
    && (forall t: nat {:trigger Noted(p, o, s, t)} :: IsTest(p, t) ==> Noted(p, o, s, t))
  }

  ghost predicate GroupsScored(p: Problem, o: Oracle, m: nat)
    requires Partitions(p) && Covers(o, p) && m <= |p.groups|
  {
    forall i :: 0 <= i < m ==> JudgeScore(p, o, i).Some?
  }

  /** The published part of the submission is the judge's. */
  ghost predicate PublishedOK(p: Problem, o: Oracle, submitId: nat, s: State)
    requires Sized(p, s) && Covers(o, p)
  {
    && s.sub.id == submitId
    && s.sub.compilation == Some(Rounding.CompileReport(o.compile))
    && s.sub.testResults == JudgeTests(p, o, s.firstNotCompletedTest - 1)
    && s.sub.groupResults == JudgeGroups(p, o, s.firstNotCompletedGroup - 1)
    && GroupsScored(p, o, s.firstNotCompletedGroup - 1)
  }

  ghost predicate Unscored(o: Oracle, s: State) {
    s.sub.score == 0.0 && s.sub.verdict == if CompilesOK(o) then RU else CompileVerdict(o.compile)
  }

  ghost predicate Core(p: Problem, o: Oracle, submitId: nat, s: State)
    requires Sized(p, s) && Covers(o, p)
  {
    SlotsOK(p, o, s) && FlagsOK(p, o, s) && PublishedOK(p, o, submitId, s)
  }

  // ---------- publication ----------

  lemma PublishOneIsJudge(p: Problem, o: Oracle, submitId: nat, s: State)
    requires Bounded(p, s) && Covers(o, p) && Core(p, o, submitId, s) && !Blocked(p, s)
    ensures var t := s.firstNotCompletedTest;
            && ResultToPublish(p, s) == JudgeTest(p, o, t)
            && SkipAfter(p, s) == Dead(p, o, t)
            && (CompilesOK(o) ==> SkipAfter(p, s) <= s.closed)
  {
    var t := s.firstNotCompletedTest;
    var g := GroupOf(p, t);
    assert SlotOK(p, o, s, t);
    if g.name in s.skip {
      DeadGroupAddsNothing(p, o, t);
    } else {
      assert Noted(p, o, s, t);
      if Fails(p, o, t) {
        PropagateIsLeastClosedSuperset(p, s.skip + {g.name});
      }
    }
  }

  lemma AdvanceKeepsSlots(p: Problem, o: Oracle, s: State, r: State)
    requires Sized(p, s) && Covers(o, p) && SlotsOK(p, o, s) && IsTest(p, s.firstNotCompletedTest)
    requires var t := s.firstNotCompletedTest;
             && s.slots[t - 1].state != Running
             && (s.slots[t - 1].state == NotGiven ==> GroupOf(p, t).name in Dead(p, o, t - 1))
    requires r.slots == s.slots && r.firstNotGivenTest == s.firstNotGivenTest
    requires r.firstNotCompletedTest == s.firstNotCompletedTest + 1
    ensures SlotsOK(p, o, r)
  {
    forall u: nat | IsTest(p, u)
      ensures SlotOK(p, o, r, u)
    {
      assert SlotOK(p, o, s, u);
    }
  }

  lemma AdvanceKeepsFlags(p: Problem, o: Oracle, s: State, r: State)
    requires Sized(p, s) && Sized(p, r) && Covers(o, p) && FlagsOK(p, o, s) && IsTest(p, s.firstNotCompletedTest)
    requires r.slots == s.slots && r.firstNotGivenTest == s.firstNotGivenTest && r.closed == s.closed
    requires r.firstNotCompletedTest == s.firstNotCompletedTest + 1
    requires r.skip == Dead(p, o, s.firstNotCompletedTest) && (CompilesOK(o) ==> r.skip <= s.closed)
    ensures FlagsOK(p, o, r)
  {
    forall t: nat | IsTest(p, t)
      ensures Noted(p, o, r, t)
    {
      assert Noted(p, o, s, t);
    }
  }

  lemma LastTestScoresItsGroup(p: Problem, o: Oracle, i: nat, results: seq<TestResult>)
    requires Partitions(p) && Covers(o, p) && i < |p.groups| && p.groups[i].last <= p.tests
    requires results == JudgeTests(p, o, p.groups[i].last)
    ensures EndsWithin(p.groups[i], results)
    ensures GroupScore(p.groups[i], results) == JudgeScore(p, o, i)
    ensures JudgeGroups(p, o, i) + [GroupResultOf(p.groups[i], results)] == JudgeGroups(p, o, i + 1)
  {
    GroupEndsInside(p, i);
    GroupScoreIsLocal(p.groups[i], results, JudgeTests(p, o, p.tests));
  }

  lemma PublishOneKeepsPublished(p: Problem, o: Oracle, submitId: nat, s: State)
    requires Bounded(p, s) && Covers(o, p) && PublishedOK(p, o, submitId, s) && s.firstNotCompletedTest <= p.tests
    requires ResultToPublish(p, s) == JudgeTest(p, o, s.firstNotCompletedTest)
    ensures var r := PublishOne(p, s); if r.crashed then Crashes(p, o) else PublishedOK(p, o, submitId, r)
  {
    var t := s.firstNotCompletedTest;
    var i := s.firstNotCompletedGroup - 1;
    hide ResultToPublish, SkipAfter, JudgeTest, Dead, GroupScore, HasCause, Partitions, GroupIndex;
    CursorIsGroupIndex(p, t, i + 1);
    var results := s.sub.testResults + [ResultToPublish(p, s)];
    assert results == JudgeTests(p, o, t);
    hide JudgeTests, JudgeGroups;
    if t == p.groups[i].last {
      LastTestScoresItsGroup(p, o, i, results);
    }
  }

  lemma PublishOneKeepsCore(p: Problem, o: Oracle, submitId: nat, s: State)
    requires Bounded(p, s) && Covers(o, p) && Core(p, o, submitId, s) && !Blocked(p, s)
    ensures var r := PublishOne(p, s); if r.crashed then Crashes(p, o) else Core(p, o, submitId, r)
  {
    PublishOneIsJudge(p, o, submitId, s);
    var r := PublishOne(p, s);
    var t := s.firstNotCompletedTest;
    assert r.skip == SkipAfter(p, s);
    PublishOneKeepsPublished(p, o, submitId, s);
    if !r.crashed {
      assert s.slots[t - 1].state == NotGiven ==> GroupOf(p, t).name in Dead(p, o, t - 1);
      AdvanceKeepsSlots(p, o, s, r);
      AdvanceKeepsFlags(p, o, s, r);
    }
  }

  lemma {:induction false} PublishKeepsCore(p: Problem, o: Oracle, submitId: nat, s: State)
    requires Bounded(p, s) && Covers(o, p) && Core(p, o, submitId, s)
    ensures var r := Publish(p, s); if r.crashed then Crashes(p, o) else Core(p, o, submitId, r)
    decreases p.tests + 1 - s.firstNotCompletedTest
  {
    if !Blocked(p, s) {
      PublishOneKeepsCore(p, o, submitId, s);
      var next := PublishOne(p, s);
      if !next.crashed {
        PublishKeepsCore(p, o, submitId, next);
      }
    }
  }

  // ---------- the invariant of a whole world ----------

  ghost predicate RequiredOK(p: Problem, s: State)
    requires Partitions(p)
  {
    forall k, j {:trigger j in s.given[k].required} ::
      k in s.given && j in s.given[k].required && j in s.given && IsTest(p, s.given[k].test)
      ==> s.given[j].test < s.given[k].test && DependsOnJob(p, GroupOf(p, s.given[k].test), s.given[j])
  }

  /** A stopped job runs a test the judge skips. */
  ghost predicate StopsOK(p: Problem, o: Oracle, w: World)
    requires Partitions(p) && Covers(o, p)
  {
    forall k :: k in w.stopped && k in w.s.given && IsTest(p, w.s.given[k].test)
      ==> GroupOf(p, w.s.given[k].test).name in Dead(p, o, w.s.given[k].test - 1)
  }

  ghost predicate IdsOK(w: World) {
    && w.s.given.Keys <= w.used
    && w.stopped <= w.used
    && (forall k :: k in w.s.given ==> w.s.given[k].required <= w.used)
  }

  ghost predicate AllPublished(p: Problem, s: State) {
    s.firstNotCompletedTest == p.tests + 1 && s.given == map[]
  }

  /** After a successful compilation: the submission is the judge's prefix, or all of it once finalized. */
  ghost predicate Live(p: Problem, o: Oracle, submitId: nat, w: World)
    requires Bounded(p, w.s) && Covers(o, p)
  {
    && CompilesOK(o)
    && SlotsOK(p, o, w.s) && FlagsOK(p, o, w.s) && JobsOK(p, w.s)
    && RequiredOK(p, w.s) && StopsOK(p, o, w)
    && Blocked(p, w.s)
    && (if w.s.firstNotCompletedTest <= p.tests then PublishedOK(p, o, submitId, w.s) && Unscored(o, w.s)
        else Judged(p, o, submitId, w.s))
  }

  ghost predicate Judged(p: Problem, o: Oracle, submitId: nat, s: State)
    requires Partitions(p) && Covers(o, p)
  {
    AllPublished(p, s) && s.sub == Judge(p, o, submitId) && !Crashes(p, o)
  }

  ghost predicate Compiling(p: Problem, submitId: nat, s: State) {
    exists id :: s == Init(p, submitId).(phase := Started, given := map[id := Job(id, submitId, CompileJob, 0, {})])
  }

  ghost predicate Inv(p: Problem, o: Oracle, submitId: nat, w: World)
    requires Partitions(p) && Covers(o, p)
  {
    if w.s.crashed then Crashes(p, o)
    else
      && Bounded(p, w.s)
      && IdsOK(w)
      && match w.s.phase
         case NotStarted => w.s == Init(p, submitId)
         case Started => Compiling(p, submitId, w.s) || (!CompilesOK(o) && Judged(p, o, submitId, w.s))
         case Compiled => Live(p, o, submitId, w)
  }

  // ---------- giving tests ----------

  lemma PruneKeepsSlots(p: Problem, o: Oracle, s: State)
    requires WellFormed(p) && Sized(p, s) && Covers(o, p) && SlotsOK(p, o, s) && FlagsOK(p, o, s)
    ensures SlotsOK(p, o, Prune(p, s))
  {
    hide Fails, Built, JudgeTest;
    PruneMarksClosedTests(p, s);
    var r := Prune(p, s);
    forall t: nat | IsTest(p, t)
      ensures SlotOK(p, o, r, t)
    {
      assert SlotOK(p, o, s, t);
      if s.firstNotGivenTest <= t {
        DeadGrows(p, o, s.firstNotGivenTest - 1, t - 1);
      }
    }
  }

  /** Moving the give cursor forward keeps the flags right. */
  lemma FlagsCarry(p: Problem, o: Oracle, s: State, r: State)
    requires WellFormed(p) && Sized(p, s) && Sized(p, r) && Covers(o, p) && FlagsOK(p, o, s)
    requires r.closed == s.closed && r.skip == s.skip && r.firstNotCompletedTest == s.firstNotCompletedTest
    requires s.firstNotGivenTest <= r.firstNotGivenTest
    requires forall t: nat :: IsTest(p, t) && r.slots[t - 1].state == Finished ==>
               s.slots[t - 1].state == Finished || GroupOf(p, t).name in s.closed
    ensures FlagsOK(p, o, r)
  {
    hide Fails, WellFormed;
    DeadGrows(p, o, s.firstNotGivenTest - 1, r.firstNotGivenTest - 1);
    forall t: nat | IsTest(p, t)
      ensures Noted(p, o, r, t)
    {
      assert Noted(p, o, s, t);
    }
  }

  lemma PruneKeepsFlags(p: Problem, o: Oracle, s: State)
    requires WellFormed(p) && Sized(p, s) && Covers(o, p) && FlagsOK(p, o, s)
    ensures FlagsOK(p, o, Prune(p, s))
  {
    hide Fails, FlagsOK, WellFormed;
    PruneMarksClosedTests(p, s);
    FlagsCarry(p, o, s, Prune(p, s));
  }

  lemma PruneKeepsJobs(p: Problem, o: Oracle, s: State)
    requires Sized(p, s) && Covers(o, p) && SlotsOK(p, o, s) && JobsOK(p, s)
    ensures JobsOK(p, Prune(p, s))
  {
    hide Fails, Built, JudgeTest;
    PruneMarksClosedTests(p, s);
    var r := Prune(p, s);
    forall id | id in r.given
      ensures JobOK(p, r, id)
    {
      assert JobOK(p, s, id) && SlotOK(p, o, s, s.given[id].test);
    }
    forall i, j, t | RunsTest(r.given, i, t) && RunsTest(r.given, j, t)
      ensures i == j
    {
      assert RunsTest(s.given, i, t) && RunsTest(s.given, j, t);
    }
    forall t: nat | IsTest(p, t) && r.slots[t - 1].state == Running
      ensures HasJob(r.given, t)
    {
      assert HasJob(s.given, t);
      var id :| RunsTest(s.given, id, t);
      assert RunsTest(r.given, id, t);
    }
  }

  lemma PruneKeepsBlocked(p: Problem, o: Oracle, s: State)
    requires Bounded(p, s) && Covers(o, p) && SlotsOK(p, o, s) && FlagsOK(p, o, s) && Blocked(p, s)
    ensures Bounded(p, Prune(p, s)) && Blocked(p, Prune(p, s))
  {
    BoundedIsSized(p, s);
    assert WellFormed(p);
    hide WellFormed, HasCause, SlotsOK, FlagsOK, Prune, Sized, Partitions;
    BoundedIgnoresSlots(p, s, Prune(p, s));
    if s.firstNotCompletedTest <= p.tests {
      PruneLeavesTheCursor(p, o, s);
    }
  }

  /** Pruning never decides the first unpublished test, unless that is skipped anyway. */
  lemma PruneLeavesTheCursor(p: Problem, o: Oracle, s: State)
    requires WellFormed(p) && Sized(p, s) && Covers(o, p) && SlotsOK(p, o, s) && FlagsOK(p, o, s)
    requires s.firstNotCompletedTest <= p.tests
    requires || s.slots[s.firstNotCompletedTest - 1].state == Running
             || GroupOf(p, s.firstNotCompletedTest).name !in s.skip
    ensures Prune(p, s).slots[s.firstNotCompletedTest - 1] == s.slots[s.firstNotCompletedTest - 1]
  {
    hide SlotOK, Fails, Built, JudgeTest, WellFormed, Dead, Partitions, Prune, SlotsOK, FlagsOK, GroupIndex, GroupOf;
    WellFormedPartitions(p);
    var t := s.firstNotCompletedTest;
    RunningTestsAreGiven(p, o, s, t);
    if s.firstNotGivenTest <= t {
      ClosedIsSkipped(p, o, s);
      assert GroupOf(p, t).name !in s.closed;
    }
    OpenGroupsAreNotPruned(p, s, t);
  }

  lemma ClosedIsSkipped(p: Problem, o: Oracle, s: State)
    requires WellFormed(p) && Sized(p, s) && Covers(o, p) && FlagsOK(p, o, s)
    requires s.firstNotGivenTest <= s.firstNotCompletedTest
    ensures s.closed <= s.skip
  {
    hide WellFormed, Dead, Partitions, FlagsOK;
    FlagsGiveSets(p, o, s);
    DeadGrows(p, o, s.firstNotGivenTest - 1, s.firstNotCompletedTest - 1);
  }

  lemma RunningTestsAreGiven(p: Problem, o: Oracle, s: State, t: nat)
    requires Partitions(p) && Covers(o, p) && |s.slots| == p.tests && IsTest(p, t) && SlotsOK(p, o, s)
    ensures s.slots[t - 1].state == Running ==> t < s.firstNotGivenTest
  {
    SlotsGiveSlot(p, o, s, t);
  }

  lemma OpenGroupsAreNotPruned(p: Problem, s: State, t: nat)
    requires Sized(p, s) && IsTest(p, t)
    ensures t < s.firstNotGivenTest || GroupOf(p, t).name !in s.closed ==> Prune(p, s).slots[t - 1] == s.slots[t - 1]
  {
    hide Prune, GroupIndex, GroupOf;
    PruneMarksClosedTests(p, s);
  }

  lemma SlotsGiveSlot(p: Problem, o: Oracle, s: State, t: nat)
    requires Partitions(p) && Covers(o, p) && |s.slots| == p.tests && IsTest(p, t) && SlotsOK(p, o, s)
    ensures SlotOK(p, o, s, t)
  {
  }

  lemma FlagsGiveSets(p: Problem, o: Oracle, s: State)
    requires Sized(p, s) && Covers(o, p) && FlagsOK(p, o, s)
    ensures s.closed <= Dead(p, o, s.firstNotGivenTest - 1) && s.skip == Dead(p, o, s.firstNotCompletedTest - 1)
  {
  }

  /** A test is only ever given before its position is published. */
  lemma GivenTestIsUnpublished(p: Problem, o: Oracle, s: State)
    requires WellFormed(p) && Sized(p, s) && Covers(o, p) && SlotsOK(p, o, s) && FlagsOK(p, o, s) && CompilesOK(o)
    requires IsTest(p, s.firstNotGivenTest) && GroupOf(p, s.firstNotGivenTest).name !in s.closed
    ensures s.firstNotCompletedTest <= s.firstNotGivenTest
  {
    hide Fails, Built, JudgeTest;
    var t := s.firstNotGivenTest;
    assert SlotOK(p, o, s, t);
    if t < s.firstNotCompletedTest {
      DeadGrows(p, o, t - 1, s.firstNotCompletedTest - 1);
    }
  }

  /** `Give` on a state whose cursor stands on a test that may be given. */
  ghost predicate Givable(p: Problem, o: Oracle, s: State, id: Id)
    requires Sized(p, s) && Covers(o, p)
  {
    && SlotsOK(p, o, s) && FlagsOK(p, o, s) && JobsOK(p, s)
    && IsTest(p, s.firstNotGivenTest)
    && s.firstNotCompletedTest <= s.firstNotGivenTest
    && id !in s.given
  }

  lemma GiveKeepsSlots(p: Problem, o: Oracle, s: State, id: Id)
    requires Bounded(p, s) && Covers(o, p) && Givable(p, o, s, id)
    ensures SlotsOK(p, o, Give(p, s, id))
  {
    hide Fails, Built, JudgeTest, FlagsOK, JobsOK, TestJobFor;
    var r := Give(p, s, id);
    forall t: nat | IsTest(p, t)
      ensures SlotOK(p, o, r, t)
    {
      assert SlotOK(p, o, s, t);
    }
  }

  lemma GiveKeepsFlags(p: Problem, o: Oracle, s: State, id: Id)
    requires Bounded(p, s) && Covers(o, p) && Givable(p, o, s, id)
    ensures FlagsOK(p, o, Give(p, s, id))
  {
    hide Fails, FlagsOK, WellFormed, JobsOK, SlotsOK, TestJobFor, HasCause;
    FlagsCarry(p, o, s, Give(p, s, id));
  }

  lemma GiveKeepsJobs(p: Problem, o: Oracle, s: State, id: Id)
    requires Bounded(p, s) && Covers(o, p) && Givable(p, o, s, id)
    ensures JobsOK(p, Give(p, s, id))
  {
    hide Fails, Built, JudgeTest, FlagsOK;
    var r := Give(p, s, id);
    var g := s.firstNotGivenTest;
    assert SlotOK(p, o, s, g);
    forall i | i in r.given
      ensures JobOK(p, r, i)
    {
      assert i != id ==> JobOK(p, s, i);
    }
    forall i, j, t | RunsTest(r.given, i, t) && RunsTest(r.given, j, t)
      ensures i == j
    {
      assert i != id ==> RunsTest(s.given, i, t) && JobOK(p, s, i);
      assert j != id ==> RunsTest(s.given, j, t) && JobOK(p, s, j);
    }
    forall t: nat | IsTest(p, t) && r.slots[t - 1].state == Running
      ensures HasJob(r.given, t)
    {
      if t == g {
        assert RunsTest(r.given, id, t);
      } else {
        assert HasJob(s.given, t);
        var i :| RunsTest(s.given, i, t);
        assert RunsTest(r.given, i, t);
      }
    }
  }

  lemma GiveKeepsRequired(p: Problem, o: Oracle, s: State, id: Id, used: set<Id>)
    requires Bounded(p, s) && Covers(o, p) && Givable(p, o, s, id) && RequiredOK(p, s)
    requires id !in used && forall k :: k in s.given ==> s.given[k].required <= used
    ensures RequiredOK(p, Give(p, s, id))
  {
    hide Fails, Built, JudgeTest, FlagsOK, DependsOnJob;
    var r := Give(p, s, id);
    forall k, j | k in r.given && j in r.given[k].required && j in r.given && IsTest(p, r.given[k].test)
      ensures r.given[j].test < r.given[k].test && DependsOnJob(p, GroupOf(p, r.given[k].test), r.given[j])
    {
      if k == id {
        assert JobOK(p, s, j) && SlotOK(p, o, s, s.given[j].test);
      }
    }
  }

  // ---------- test results ----------

  /** An answer for test t that keeps to the oracle, or is SK for a test the judge skips. */
  predicate Plausible(p: Problem, o: Oracle, t: nat, r: JobResult)
    requires Partitions(p) && Covers(o, p) && IsTest(p, t)
  {
    r == o.tests[t - 1] || (r.verdict == SK && GroupOf(p, t).name in Dead(p, o, t - 1))
  }

  lemma PreventingAnswerFails(p: Problem, o: Oracle, t: nat)
    requires Partitions(p) && Covers(o, p) && IsTest(p, t)
    ensures Prevents(GroupOf(p, t), Populate(GroupOf(p, t), o.tests[t - 1]).verdict) == Fails(p, o, t)
  {
    SkippedVerdictPreventsLikeFailure(GroupOf(p, t), Built(p, t, o.tests[t - 1]));
  }

  lemma AnswerKeepsClosed(p: Problem, o: Oracle, s: State, t: nat, r: JobResult)
    requires WellFormed(p) && Sized(p, s) && Covers(o, p) && FlagsOK(p, o, s)
    requires IsTest(p, t) && t < s.firstNotGivenTest && Plausible(p, o, t, r)
    ensures s.closed <= ClosedAfter(p, s, t, r) <= Dead(p, o, s.firstNotGivenTest - 1)
    ensures ClosedUnder(p, ClosedAfter(p, s, t, r))
    ensures r == o.tests[t - 1] && Fails(p, o, t) ==> GroupOf(p, t).name in ClosedAfter(p, s, t, r)
  {
    hide Fails, WellFormed, Populate, Prevents, Built;
    var g := GroupOf(p, t);
    var dead := Dead(p, o, s.firstNotGivenTest - 1);
    PreventingAnswerFails(p, o, t);
    if Prevents(g, Populate(g, r).verdict) {
      if r == o.tests[t - 1] {
        FailingTestKillsItsGroup(p, o, t, s.firstNotGivenTest - 1);
      } else {
        DeadGrows(p, o, t - 1, s.firstNotGivenTest - 1);
      }
      DeadIsClosed(p, o, s.firstNotGivenTest - 1);
      PropagateIsLeastClosedSuperset(p, s.closed + {g.name});
      assert s.closed + {g.name} <= dead;
    }
  }

  lemma AnswerKeepsFlags(p: Problem, o: Oracle, s: State, t: nat, r: JobResult)
    requires WellFormed(p) && Sized(p, s) && Covers(o, p) && FlagsOK(p, o, s)
    requires IsTest(p, t) && t < s.firstNotGivenTest && Plausible(p, o, t, r)
    ensures FlagsOK(p, o, TestDone(p, s, t, r))
  {
    hide Fails, WellFormed, Built, ClosedUnder, ClosedAfter;
    AnswerKeepsClosed(p, o, s, t, r);
    var s' := TestDone(p, s, t, r);
    forall u: nat | IsTest(p, u)
      ensures Noted(p, o, s', u)
    {
      assert Noted(p, o, s, u);
    }
  }

  lemma AnswerKeepsSlots(p: Problem, o: Oracle, s: State, t: nat, r: JobResult)
    requires WellFormed(p) && Sized(p, s) && Covers(o, p) && SlotsOK(p, o, s)
    requires IsTest(p, t) && s.slots[t - 1].state == Running && Plausible(p, o, t, r)
    ensures SlotsOK(p, o, TestDone(p, s, t, r))
  {
    assert Built(p, t, r).testNumber == t && Partitions(p);
    hide Fails, WellFormed, Built, ClosedAfter, Partitions, Dead, GroupIndex, GroupOf, SlotOK, Plausible;
    var s' := TestDone(p, s, t, r);
    forall u: nat | IsTest(p, u)
      ensures SlotOK(p, o, s', u)
    {
      assert SlotOK(p, o, s, u);
      AnswerKeepsSlot(p, o, s, t, r, u);
    }
  }

  lemma AnswerKeepsSlot(p: Problem, o: Oracle, s: State, t: nat, r: JobResult, u: nat)
    requires Partitions(p) && |s.slots| == p.tests && Covers(o, p) && IsTest(p, t) && IsTest(p, u)
    requires SlotOK(p, o, s, t) && SlotOK(p, o, s, u) && s.slots[t - 1].state == Running && Plausible(p, o, t, r)
    requires Built(p, t, r).testNumber == t
    ensures SlotOK(p, o, TestDone(p, s, t, r), u)
  {
    hide Partitions, Dead, Built, ClosedAfter, GroupIndex;
  }

  lemma AnswerKeepsJobs(p: Problem, s: State, id: Id, r: JobResult)
    requires Bounded(p, s) && JobsOK(p, s) && id in s.given && s.given[id].kind == TestJob
    ensures JobsOK(p, Received(p, s, id, r))
  {
    hide Built, ClosedAfter, WellFormed, HasCause;
    var s' := Received(p, s, id, r);
    var t := s.given[id].test;
    assert JobOK(p, s, id) && RunsTest(s.given, id, t);
    forall i | i in s'.given
      ensures JobOK(p, s', i)
    {
      assert JobOK(p, s, i) && RunsTest(s.given, i, s.given[i].test);
    }
    forall i, j, u | RunsTest(s'.given, i, u) && RunsTest(s'.given, j, u)
      ensures i == j
    {
      assert RunsTest(s.given, i, u) && RunsTest(s.given, j, u);
    }
    forall u: nat | IsTest(p, u) && s'.slots[u - 1].state == Running
      ensures HasJob(s'.given, u)
    {
      assert HasJob(s.given, u);
      var i :| RunsTest(s.given, i, u);
      assert RunsTest(s'.given, i, u);
    }
  }

  lemma AnswerKeepsRequired(p: Problem, s: State, id: Id, r: JobResult)
    requires Bounded(p, s) && RequiredOK(p, s) && id in s.given && s.given[id].kind == TestJob
    ensures RequiredOK(p, Received(p, s, id, r))
  {
    hide Built, ClosedAfter, WellFormed, HasCause, DependsOnJob;
  }

  // ---------- cancellation ----------

  /** An answer that makes the registry stop a job belongs to a group the stopped job depends on, so the
      judge skips the stopped job's test as well. */
  lemma StoppedJobIsSkipped(p: Problem, o: Oracle, s: State, k: Id, id: Id, r: JobResult)
    requires WellFormed(p) && Covers(o, p) && |s.slots| == p.tests && JobsOK(p, s) && RequiredOK(p, s)
    requires k in s.given && id in s.given && id in s.given[k].required
    requires IsTest(p, s.given[id].test) && Plausible(p, o, s.given[id].test, r)
    requires r.verdict != OK && r.verdict != PT
    ensures IsTest(p, s.given[k].test) && GroupOf(p, s.given[k].test).name in Dead(p, o, s.given[k].test - 1)
  {
    hide Dead, WellFormed, Fails, Partitions, Built;
    WellFormedPartitions(p);
    assert JobOK(p, s, k);
    var u, job := s.given[k].test, s.given[id];
    assert job.test < u && DependsOnJob(p, GroupOf(p, u), job);
    hide JobsOK, RequiredOK;
    BadAnswerKillsItsGroup(p, o, job, r, u);
    DependencyIsDead(p, o, job, u);
  }

  lemma PopulateKeepsBadVerdicts(g: Group, r: JobResult)
    ensures r.verdict != PT ==> Populate(g, r).verdict == r.verdict
  {
  }

  lemma BadAnswerKillsItsGroup(p: Problem, o: Oracle, job: Job, r: JobResult, u: nat)
    requires WellFormed(p) && Covers(o, p) && IsTest(p, job.test) && IsTest(p, u) && job.test < u
    requires DependsOnJob(p, GroupOf(p, u), job) && Plausible(p, o, job.test, r) && r.verdict != OK && r.verdict != PT
    ensures GroupOf(p, job.test).name in Dead(p, o, u - 1)
  {
    hide Dead, WellFormed, Fails, Partitions, DependsOnJob, GroupIndex, GroupOf;
    WellFormedPartitions(p);
    if r == o.tests[job.test - 1] {
      BadOwnAnswerFails(p, o, job, u);
      FailingTestKillsItsGroup(p, o, job.test, u - 1);
    } else {
      DeadGrows(p, o, job.test - 1, u - 1);
    }
  }

  lemma BadOwnAnswerFails(p: Problem, o: Oracle, job: Job, u: nat)
    requires WellFormed(p) && Covers(o, p) && IsTest(p, job.test) && IsTest(p, u) && DependsOnJob(p, GroupOf(p, u), job)
    requires o.tests[job.test - 1].verdict != OK && o.tests[job.test - 1].verdict != PT
    ensures Fails(p, o, job.test)
  {
    hide WellFormed, Fails, Partitions, Built, DependsOnJob, Populate, Prevents, GroupIndex;
    WellFormedPartitions(p);
    var r := o.tests[job.test - 1];
    PopulateKeepsBadVerdicts(GroupOf(p, job.test), r);
    BadAnswerOfDependency(p, GroupOf(p, u), job, r.verdict, u);
    PreventingAnswerFails(p, o, job.test);
  }

  /** A group whose dependency is dead is dead itself. */
  lemma DependencyIsDead(p: Problem, o: Oracle, job: Job, u: nat)
    requires WellFormed(p) && Covers(o, p) && IsTest(p, job.test) && IsTest(p, u)
    requires DependsOnJob(p, GroupOf(p, u), job) && GroupOf(p, job.test).name in Dead(p, o, u - 1)
    ensures GroupOf(p, u).name in Dead(p, o, u - 1)
  {
    hide Dead, WellFormed, Fails, Partitions;
    WellFormedPartitions(p);
    DeadIsClosed(p, o, u - 1);
    var h := GroupOf(p, u);
    assert GroupOf(p, job.test).name in h.required ==> RequiresOneOf(h, Dead(p, o, u - 1));
  }

  lemma BadAnswerOfDependency(p: Problem, h: Group, job: Job, v: Verdict, u: nat)
    requires WellFormed(p) && IsTest(p, job.test) && IsTest(p, u) && h == GroupOf(p, u) && DependsOnJob(p, h, job)
    requires v != OK && v != PT
    ensures Prevents(GroupOf(p, job.test), v)
  {
    var i, j := GroupIndex(p, job.test), GroupIndex(p, u);
    if GroupOf(p, job.test).name in h.required {
      assert RequiresEarlier(p, j, p.groups[i].name);
      var e :| 0 <= e < j && p.groups[e].name == p.groups[i].name && p.groups[e].scoring == Complete;
      assert i < e ==> NamesDiffer(p, i, e);
      assert e < i ==> NamesDiffer(p, e, i);
    } else {
      assert i < j ==> NamesDiffer(p, i, j);
      assert j < i ==> NamesDiffer(p, j, i);
      assert HasScores(p.groups[i]);
    }
  }
}
