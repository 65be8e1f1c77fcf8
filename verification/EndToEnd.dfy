/** From submission to verdict: in every run of the master each submission is returned at most once, and none is
    stuck once the queue has nothing left to hand out. */
module EndToEnd {
  import opened Models
  import opened Lists
  import opened MasterQueue
  import opened QueueLaws
  import opened InvokerMachine
  import opened Dispatch
  import opened DispatchInvariant
  import opened DispatchSteps
  import opened DispatchTheorems
  import Generators
  import OpenRuns

  // ---------- what asking the active generators does to each of them ----------

  /** Every generator is asked at most once. */
  lemma {:induction false} EachIsAskedAtMostOnce(q: Queue, newID: Id)
    requires Wired(q) && Distinct(q.activeGenerators)
    ensures var r := AskActive(q, newID).0;
            && r.generators.Keys == q.generators.Keys
            && (forall g :: g in q.generators && g !in q.activeGenerators ==> r.generators[g] == q.generators[g])
            && (forall g :: g in q.generators ==>
                  r.generators[g] == q.generators[g] || r.generators[g] == Generators.NextJob(q.generators[g], newID).0)
    decreases |q.activeGenerators|
  {
    hide Generators.NextJob, Generators.Healthy, Generators.Given, Distinct;
    if q.activeGenerators != [] {
      var g := q.activeGenerators[0];
      var (generator, job) := Generators.NextJob(q.generators[g], newID);
      Generators.NextJobGivesAtMostOne(q.generators[g], newID);
      if job.None? {
        TailIsDistinct(q.activeGenerators);
        assert g !in q.activeGenerators[1..] by {
          assert g !in Elements(q.activeGenerators[1..]);
        }
        EachIsAskedAtMostOnce(Retire(q, generator), newID);
      }
    }
  }

  // ---------- the history of every generator ----------

  ghost predicate GeneratorTraced(s: System, g: nat)
    requires g in s.queue.generators
  {
    g in s.submitted && OpenRuns.Reached(s.queue.generators[g], s.submitted[g], s.used)
  }

  predicate IsReturned(s: System, g: nat) {
    exists k :: 0 <= k < |s.returned| && s.returned[k].0 == g
  }

  predicate ReturnOK(s: System, k: nat)
    requires k < |s.returned|
  {
    var (g, sub) := s.returned[k];
    && g in s.queue.generators
    && Generators.Finished(s.queue.generators[g]) && Generators.Result(s.queue.generators[g]) == sub
  }

  /** Finished generators are those whose submission was returned, and it was returned once. */
  ghost predicate ReturnsOK(s: System) {
    && (forall k: nat {:trigger ReturnOK(s, k)} :: k < |s.returned| ==> ReturnOK(s, k))
    && (forall i, k :: 0 <= i < |s.returned| && 0 <= k < |s.returned| && s.returned[i].0 == s.returned[k].0 ==> i == k)
    && (forall g {:trigger IsReturned(s, g)} ::
          g in s.queue.generators && Generators.Finished(s.queue.generators[g]) ==> IsReturned(s, g))
  }

  ghost predicate Traced(s: System) {
    && (forall g {:trigger GeneratorTraced(s, g)} :: g in s.queue.generators ==> GeneratorTraced(s, g))
    && ReturnsOK(s)
  }

  /** A step that leaves the generators alone. */
  lemma SameGeneratorsStayTraced(s: System, r: System)
    requires Traced(s) && r.queue.generators == s.queue.generators && s.used <= r.used
    requires r.submitted == s.submitted && r.returned == s.returned
    ensures Traced(r)
  {
    hide OpenRuns.Reached, Generators.Finished;
    forall g | g in r.queue.generators
      ensures GeneratorTraced(r, g)
    {
      assert GeneratorTraced(s, g);
      OpenRuns.ReachedLater(s.queue.generators[g], s.submitted[g], s.used, r.used);
    }
    SameReturns(s, r);
  }

  lemma SameReturns(s: System, r: System)
    requires ReturnsOK(s) && r.returned == s.returned
    requires forall g :: g in s.queue.generators ==> g in r.queue.generators
    requires forall g :: g in r.queue.generators ==>
               if g in s.queue.generators then
                 && (Generators.Finished(r.queue.generators[g]) <==> Generators.Finished(s.queue.generators[g]))
                 && Generators.Result(r.queue.generators[g]) == Generators.Result(s.queue.generators[g])
               else !Generators.Finished(r.queue.generators[g])
    ensures ReturnsOK(r)
  {
    hide Generators.Finished, Generators.Result;
    forall k: nat | k < |r.returned|
      ensures ReturnOK(r, k)
    {
      assert ReturnOK(s, k);
    }
    forall g | g in r.queue.generators && Generators.Finished(r.queue.generators[g])
      ensures IsReturned(r, g)
    {
      assert IsReturned(s, g);
    }
  }

  lemma FreshIsUnfinished(g: Generators.Generator, submitId: nat)
    requires Generators.IsFresh(g, submitId)
    ensures !Generators.Finished(g)
  {
  }

  lemma SubmitKeepsTraced(s: System, g: nat, kind: Generators.Generator, submitId: nat)
    requires Traced(s) && Enabled(s, SubmitStep(g, kind, submitId))
    ensures Traced(Next(s, SubmitStep(g, kind, submitId)))
  {
    var r := Next(s, SubmitStep(g, kind, submitId));
    hide Wellformed, OpenRuns.Reached, Generators.Finished;
    FreshIsUnfinished(kind, submitId);
    OpenRuns.FreshIsReached(kind, submitId, s.used);
    forall k | k in r.queue.generators
      ensures GeneratorTraced(r, k)
    {
      assert k != g ==> GeneratorTraced(s, k);
    }
    SameReturns(s, r);
  }

  /** Being asked for a job keeps a generator reached, and does not finish it or change its submission. */
  lemma AskingKeepsReached(g: Generators.Generator, submitId: nat, used: set<Id>, newID: Id)
    requires OpenRuns.Reached(g, submitId, used) && Generators.Healthy(g) && newID !in used
    ensures var r := Generators.NextJob(g, newID).0;
            && OpenRuns.Reached(r, submitId, used + {newID})
            && (Generators.Finished(r) <==> Generators.Finished(g))
            && Generators.Result(r) == Generators.Result(g)
  {
    OpenRuns.CallReaches(g, submitId, used, OpenRuns.Ask(newID));
    hide OpenRuns.Reached, Generators.Sound, Generators.Finished;
    var o := OpenRuns.ReachedHasAnOracle(g, submitId, used, OpenRuns.AnyOracle(Generators.Tests(g)));
    Generators.NextJobKeepsSound(g, o, submitId, {}, used, newID);
    Generators.NextJobKeepsResult(g, newID);
  }

  lemma FetchKeepsTraced(s: System, newID: Id)
    requires Inv(s) && Traced(s) && Enabled(s, FetchStep(newID))
    ensures Traced(Next(s, FetchStep(newID)))
  {
    var r := Next(s, FetchStep(newID));
    if s.queue.newFailedJobs != [] {
      hide OpenRuns.Reached, Generators.Finished;
      SameGeneratorsStayTraced(s, r);
    } else {
      EachIsAskedAtMostOnce(s.queue, newID);
      hide OpenRuns.Reached, Generators.Finished, Generators.NextJob, Generators.Healthy, AskActive, Distinct,
        PlacesOK, MachinesOK, InflightOK, AliasesOK, Generators.Result;
      forall g | g in s.queue.generators
        ensures GeneratorTraced(r, g)
        ensures Generators.Finished(r.queue.generators[g]) <==> Generators.Finished(s.queue.generators[g])
        ensures Generators.Result(r.queue.generators[g]) == Generators.Result(s.queue.generators[g])
      {
        assert GeneratorTraced(s, g);
        AskingKeepsReached(s.queue.generators[g], s.submitted[g], s.used, newID);
        OpenRuns.ReachedLater(s.queue.generators[g], s.submitted[g], s.used, s.used + {newID});
      }
      SameReturns(s, r);
    }
  }

  /** What applying a result does to the generators and to what has been returned. */
  lemma ApplyReachesItsGenerator(s: System, id: Id)
    requires Inv(s) && Wellformed(s) && s.fault == Fine && id in s.accepted && Apply(s, id).fault == Fine
    ensures var j, r := Original(s.queue, id), Apply(s, id);
            && j in s.queue.originalJobIDToGenerator
            && var g := s.queue.originalJobIDToGenerator[j];
            && g in s.queue.generators && j in Generators.Given(s.queue.generators[g])
            && var (generator, outcome) := Generators.JobCompleted(s.queue.generators[g], j, s.accepted[id]);
            && r.queue.generators == s.queue.generators[g := generator]
            && r.used == s.used && r.submitted == s.submitted
            && !outcome.Panicked?
            && r.returned == if outcome.Finalized? then s.returned + [(g, outcome.sub)] else s.returned
  {
    hide AliasesOK, GeneratorsOK, Generators.Healthy, Generators.JobCompleted, Generators.Given, MachinesOK, Distinct,
      PendingOK, InflightOK, DeliveredOK, TestingOK;
    assert Current(s.queue, id);
    JobCompletedReachesItsGenerator(s.queue, s.used, id, s.accepted[id]);
    hide Valid, PlacesOK;
  }

  /** A result keeps a generator reached; the submission is returned exactly when this finishes the generator. */
  lemma CompletingKeepsReached(g: Generators.Generator, submitId: nat, used: set<Id>, j: Id, result: JobResult)
    requires OpenRuns.Reached(g, submitId, used) && Generators.Healthy(g) && j in Generators.Given(g)
    requires !Generators.JobCompleted(g, j, result).1.Panicked?
    ensures var (r, outcome) := Generators.JobCompleted(g, j, result);
            && OpenRuns.Reached(r, submitId, used)
            && !Generators.Finished(g)
            && (outcome.Finalized? <==> Generators.Finished(r))
            && (outcome.Finalized? ==> outcome.sub == Generators.Result(r))
  {
    OpenRuns.CallReaches(g, submitId, used, OpenRuns.Complete(j, result));
    hide OpenRuns.Reached, Generators.Sound, Generators.Finished;
    var o := OpenRuns.AnswerHasAnOracle(g, submitId, used, j, result);
    Generators.JobCompletedKeepsSound(g, o, submitId, {}, used, j, result);
    Generators.JobCompletedTakesOne(g, j, result);
  }

  lemma ApplyKeepsTraced(s: System, id: Id)
    requires Inv(s) && Traced(s) && Wellformed(s) && s.fault == Fine && id in s.accepted && Apply(s, id).fault == Fine
    ensures Traced(Apply(s, id))
  {
    ApplyReachesItsGenerator(s, id);
    var g := s.queue.originalJobIDToGenerator[Original(s.queue, id)];
    GeneratorsAreHealthy(s, g);
    hide *;
    ResultKeepsTraced(s, Apply(s, id), g, Original(s.queue, id), s.accepted[id]);
  }

  lemma GeneratorsAreHealthy(s: System, g: nat)
    requires Wellformed(s) && g in s.queue.generators
    ensures Generators.Healthy(s.queue.generators[g])
  {
  }

  lemma ResultKeepsTraced(s: System, r: System, g: nat, j: Id, result: JobResult)
    requires Traced(s) && g in s.queue.generators && Generators.Healthy(s.queue.generators[g])
    requires j in Generators.Given(s.queue.generators[g])
    requires var (generator, outcome) := Generators.JobCompleted(s.queue.generators[g], j, result);
             && r.queue.generators == s.queue.generators[g := generator]
             && r.used == s.used && r.submitted == s.submitted
             && !outcome.Panicked?
             && r.returned == if outcome.Finalized? then s.returned + [(g, outcome.sub)] else s.returned
    ensures Traced(r)
  {
    hide ReturnsOK, OpenRuns.Reached, Generators.Finished, Generators.JobCompleted, Generators.Healthy,
      Generators.Result;
    assert GeneratorTraced(s, g);
    CompletingKeepsReached(s.queue.generators[g], s.submitted[g], s.used, j, result);
    forall k | k in r.queue.generators
      ensures GeneratorTraced(r, k)
    {
      assert GeneratorTraced(s, k);
    }
    var outcome := Generators.JobCompleted(s.queue.generators[g], j, result).1;
    if outcome.Finalized? {
      OneMoreReturn(s, r, g, outcome.sub);
    } else {
      SameReturnsButOne(s, r, g);
    }
  }

  lemma SameReturnsButOne(s: System, r: System, g: nat)
    requires ReturnsOK(s) && r.returned == s.returned && g in s.queue.generators && g in r.queue.generators
    requires r.queue.generators == s.queue.generators[g := r.queue.generators[g]]
    requires !Generators.Finished(s.queue.generators[g]) && !Generators.Finished(r.queue.generators[g])
    ensures ReturnsOK(r)
  {
    hide Generators.Finished, Generators.Result;
    forall k: nat | k < |r.returned|
      ensures ReturnOK(r, k)
    {
      assert ReturnOK(s, k);
    }
    forall k | k in r.queue.generators && Generators.Finished(r.queue.generators[k])
      ensures IsReturned(r, k)
    {
      assert IsReturned(s, k);
    }
  }

  lemma OneMoreReturn(s: System, r: System, g: nat, sub: Submission)
    requires ReturnsOK(s) && r.returned == s.returned + [(g, sub)]
    requires g in s.queue.generators && g in r.queue.generators
    requires r.queue.generators == s.queue.generators[g := r.queue.generators[g]]
    requires !Generators.Finished(s.queue.generators[g])
    requires Generators.Finished(r.queue.generators[g]) && Generators.Result(r.queue.generators[g]) == sub
    ensures ReturnsOK(r)
  {
    hide Generators.Finished, Generators.Result;
    forall k: nat | k < |s.returned|
      ensures s.returned[k].0 != g && ReturnOK(r, k)
    {
      assert ReturnOK(s, k);
    }
    assert ReturnOK(r, |s.returned|);
    forall k | k in r.queue.generators && Generators.Finished(r.queue.generators[k])
      ensures IsReturned(r, k)
    {
      if k != g {
        assert IsReturned(s, k);
        var i :| 0 <= i < |s.returned| && s.returned[i].0 == k;
        assert r.returned[i].0 == k;
      } else {
        assert r.returned[|s.returned|].0 == g;
      }
    }
  }

  lemma {:induction false} ReschedulingKeepsGenerators(s: System, i: nat, order: seq<Id>, newIDs: seq<Id>, k: nat)
    requires Wellformed(s) && i in s.extracted && k <= |order| == |newIDs|
    ensures var r := Reschedule(s, i, order, newIDs, k);
            && r.queue.generators == s.queue.generators && s.used <= r.used
            && r.submitted == s.submitted && r.returned == s.returned
    decreases |order| - k
  {
    hide Wellformed;
    if k < |order| {
      ReschedulingKeepsGenerators(RescheduleOne(s, i, order[k], newIDs[k]), i, order, newIDs, k + 1);
    }
  }

  lemma StepKeepsTraced(s: System, e: Step)
    requires Inv(s) && Traced(s) && Enabled(s, e) && Next(s, e).fault == Fine
    ensures Traced(Next(s, e))
  {
    hide Inv, Traced, Next, Enabled;
    if e.SubmitStep? {
      SubmitKeepsTraced(s, e.generator, e.kind, e.submitId);
    } else if e.FetchStep? {
      FetchKeepsTraced(s, e.newID);
    } else if e.ApplyStep? {
      StepIsApply(s, e);
      ApplyKeepsTraced(s, e.id);
    } else {
      OthersKeepGenerators(s, e);
      SameGeneratorsStayTraced(s, Next(s, e));
    }
  }

  lemma StepIsApply(s: System, e: Step)
    requires Enabled(s, e) && e.ApplyStep?
    ensures Wellformed(s) && s.fault == Fine && e.id in s.accepted && Next(s, e) == Apply(s, e.id)
  {
  }

  /** All other steps leave the generators alone. */
  lemma OthersKeepGenerators(s: System, e: Step)
    requires Inv(s) && Enabled(s, e) && !e.SubmitStep? && !e.FetchStep? && !e.ApplyStep?
    ensures var r := Next(s, e);
            && r.queue.generators == s.queue.generators && s.used <= r.used
            && r.submitted == s.submitted && r.returned == s.returned
  {
    hide Inv, Wired, Reschedule, Generators.IsFresh, Distinct, IsOrder, Offer, UpdateStatus, Send, Receive, Sent,
      Upsert;
    match e
    case SendStep(i) => SendKeepsDropped(s, i);
    case ReceiveStep(id, result) => ReceiveChanges(s, id, result);
    case SentStep(i, j, reply) => SentKeepsDropped(s, i, j, reply);
    case RescheduleStep(i, order, newIDs) => ReschedulingKeepsGenerators(s, i, order, newIDs, 0);
    case UpsertStep(status, orders, i) => UpsertKeepsDropped(s, status, orders, i);
    case _ =>
  }

  lemma {:induction false} RunKeepsTraced(s: System, steps: seq<Step>, r: System)
    requires Safe(s) && Run(s, steps, r) && r.fault == Fine && Traced(s)
    ensures Traced(r) && Inv(r)
    decreases |steps|
  {
    FaultIsFinal(s, steps, r);
    if steps != [] {
      FaultIsFinal(Next(s, steps[0]), steps[1..], r);
      StepKeepsSafe(s, steps[0]);
      hide Inv, Enabled, Next, Traced;
      StepKeepsTraced(s, steps[0]);
      RunKeepsTraced(Next(s, steps[0]), steps[1..], r);
    }
  }

  lemma InitialIsTraced()
    ensures Traced(Initial)
  {
  }

  lemma RunIsTraced(steps: seq<Step>, s: System)
    requires Run(Initial, steps, s) && s.fault == Fine
    ensures Traced(s) && Inv(s) && Wellformed(s)
  {
    InitialIsSafe();
    InitialIsTraced();
    hide Inv, Traced, Wellformed;
    RunKeepsTraced(Initial, steps, s);
    InvIsWellformed(s);
  }

  // ---------- exactly once ----------

  /** The submissions returned so far are those of the finished generators, each returned once, with the result the
      generator ended with. */
  lemma ReturnedExactlyOnce(steps: seq<Step>, s: System, g: nat)
    requires Run(Initial, steps, s) && s.fault == Fine && g in s.queue.generators
    ensures Generators.Finished(s.queue.generators[g]) <==> exists k :: 0 <= k < |s.returned| && s.returned[k].0 == g
    ensures forall i, k ::
              0 <= i < |s.returned| && 0 <= k < |s.returned| && s.returned[i].0 == s.returned[k].0 ==> i == k
    ensures forall k :: 0 <= k < |s.returned| && s.returned[k].0 == g ==>
              s.returned[k].1 == Generators.Result(s.queue.generators[g])
  {
    hide Run, Inv, Wellformed, Generators.Finished, Generators.Result, GeneratorTraced;
    RunIsTraced(steps, s);
    assert Generators.Finished(s.queue.generators[g]) ==> IsReturned(s, g);
    forall k: nat | k < |s.returned| && s.returned[k].0 == g
      ensures Generators.Finished(s.queue.generators[g]) && s.returned[k].1 == Generators.Result(s.queue.generators[g])
    {
      assert ReturnOK(s, k);
    }
  }

  /** Whatever the invokers answered, every submission returned is what the sequential judge makes of some outcome. */
  lemma ReturnedIsAJudgement(steps: seq<Step>, s: System, k: nat)
    requires Run(Initial, steps, s) && s.fault == Fine && k < |s.returned|
    ensures var (g, sub) := s.returned[k];
            && g in s.queue.generators && g in s.submitted && Generators.Healthy(s.queue.generators[g])
            && exists o: Oracle ::
                 |o.tests| == Generators.Tests(s.queue.generators[g])
                 && sub == Generators.Judgement(s.queue.generators[g], o, s.submitted[g])
  {
    RunIsTraced(steps, s);
    hide Inv, Generators.Finished, Generators.Result, Generators.Judgement, Generators.Healthy, OpenRuns.Reached, Run;
    assert ReturnOK(s, k);
    var g := s.returned[k].0;
    assert GeneratorTraced(s, g);
    GeneratorsAreHealthy(s, g);
    SomeOracleJudges(s.queue.generators[g], s.submitted[g], s.used);
  }

  lemma SomeOracleJudges(g: Generators.Generator, submitId: nat, used: set<Id>)
    requires OpenRuns.Reached(g, submitId, used) && Generators.Healthy(g) && Generators.Finished(g)
    ensures exists o: Oracle ::
              |o.tests| == Generators.Tests(g) && Generators.Result(g) == Generators.Judgement(g, o, submitId)
  {
    hide OpenRuns.Reached, Generators.Finished, Generators.Judgement, Generators.Healthy;
    var o := OpenRuns.ReachedHasAnOracle(g, submitId, used, OpenRuns.AnyOracle(Generators.Tests(g)));
    Generators.FinishedIsTheJudgement(g, o, submitId, {}, used);
  }

  // ---------- no stuck submission ----------

  /** A generator that waits for nothing and would give nothing is finished. */
  lemma QuietReachedIsFinished(g: Generators.Generator, submitId: nat, used: set<Id>)
    requires OpenRuns.Reached(g, submitId, used) && Generators.Healthy(g) && Generators.Quiet(g)
    requires Generators.Given(g) == map[]
    ensures Generators.Finished(g)
  {
    hide OpenRuns.Reached, Generators.Sound, Generators.Finished, Generators.Quiet;
    var o := OpenRuns.ReachedHasAnOracle(g, submitId, used, OpenRuns.AnyOracle(Generators.Tests(g)));
    Generators.IdleGeneratorIsFinished(g, o, submitId, {}, used);
  }

  lemma NoJobsNoWaiting(q: Queue, g: nat)
    requires GeneratorsOK(q) && g in q.generators
    requires forall j :: j in q.originalJobIDToGenerator ==> q.originalJobIDToGenerator[j] != g
    ensures Generators.Given(q.generators[g]) == map[]
  {
    assert AwaitsItsJobs(q, g);
    assert Generators.Given(q.generators[g]).Keys == {};
  }

  lemma OffTheListIsQuiet(q: Queue, g: nat)
    requires GeneratorsOK(q) && g in q.generators && q.activeGenerators == []
    ensures Generators.Healthy(q.generators[g]) && Generators.Quiet(q.generators[g])
  {
    assert ListedOrQuiet(q, g);
  }

  /** No invoker has a job, no result waits to be applied, and asked for a job the queue has none. */
  ghost predicate NothingLeft(s: System, newID: Id)
    requires Wellformed(s)
  {
    && s.nextJob.None? && s.invokerByJobID == map[] && s.accepted == map[]
    && newID !in s.used && Fetch(s, newID).nextJob.None?
  }

  /** Only lost jobs are still live then. */
  lemma OnlyDroppedAreLeft(s: System, newID: Id)
    requires Inv(s) && Wellformed(s) && NothingLeft(s, newID)
    ensures s.queue.newFailedJobs == [] && s.queue.originalJobIDToJob == s.dropped
  {
    NextJobKeepsValid(s.queue, s.used, newID);
    assert s.queue.newFailedJobs == [];
    hide Valid, MachinesOK, InflightOK, PendingOK, DeliveredOK, TestingOK, NextJob;
    forall j | IsLive(s.queue, j)
      ensures j in s.dropped
    {
      assert PlacedOnce(s.queue, s.nextJob, s.invokerByJobID, s.accepted, s.dropped, j);
    }
  }

  /** Whenever no job is out and the queue has none to hand out, every submission has been returned, whatever the
      invokers answered and however often they failed, as long as no result was discarded. */
  lemma NoSubmissionIsStuck(steps: seq<Step>, s: System, newID: Id, g: nat)
    requires Run(Initial, steps, s) && s.fault == Fine && Wellformed(s) && NothingLeft(s, newID)
    requires NeverDiscards(Initial, steps, s) && g in s.queue.generators
    ensures IsReturned(s, g)
  {
    RunIsTraced(steps, s);
    InitialIsSafe();
    hide Run, NeverDiscards, Inv, Wellformed, Traced, NothingLeft;
    RunDropsExactly(Initial, steps, s);
    OnlyDroppedAreLeft(s, newID);
    NothingLeftMeansReturned(s, newID, g);
  }

  /** A result for one of the submission's jobs was discarded. */
  predicate LostOne(s: System, g: nat) {
    exists j :: j in s.dropped && j in s.queue.originalJobIDToGenerator && s.queue.originalJobIDToGenerator[j] == g
  }

  lemma {:induction false} NothingIssuedKeepsOwners(q: Queue, newID: Id)
    requires Wired(q) && AskActive(q, newID).1.None?
    ensures AskActive(q, newID).0.originalJobIDToGenerator == q.originalJobIDToGenerator
    decreases |q.activeGenerators|
  {
    hide Generators.NextJob, Generators.Healthy, Generators.Given;
    if q.activeGenerators != [] {
      var (generator, job) := Generators.NextJob(q.generators[q.activeGenerators[0]], newID);
      Generators.NextJobGivesAtMostOne(q.generators[q.activeGenerators[0]], newID);
      NothingIssuedKeepsOwners(Retire(q, generator), newID);
    }
  }

  lemma NothingLeftMeansReturned(s: System, newID: Id, g: nat)
    requires Inv(s) && Traced(s) && s.fault == Fine && Wellformed(s) && NothingLeft(s, newID)
    requires s.queue.newFailedJobs == [] && s.queue.originalJobIDToJob == s.dropped && g in s.queue.generators
    requires !LostOne(s, g)
    ensures IsReturned(s, g)
  {
    AliasesNameOwners(s.queue, s.used);
    NothingIssuedKeepsOwners(s.queue, newID);
    var r := Fetch(s, newID);
    assert Enabled(s, FetchStep(newID));
    FetchKeepsInv(s, newID);
    FetchKeepsTraced(s, newID);
    NextJobKeepsValid(s.queue, s.used, newID);
    FetchKeepsReturned(s, newID);
    assert r.queue.generators.Keys == s.queue.generators.Keys;
    assert r.queue.originalJobIDToGenerator == s.queue.originalJobIDToGenerator;
    assert r.queue.activeGenerators == [];
    hide OpenRuns.Reached, Generators.Finished, Generators.Quiet, Generators.Given, Fetch, PlacesOK, MachinesOK,
      AliasesOK, InflightOK, ReturnsOK;
    assert GeneratorTraced(r, g);
    NoJobsNoWaiting(r.queue, g);
    OffTheListIsQuiet(r.queue, g);
    QuietReachedIsFinished(r.queue.generators[g], r.submitted[g], r.used);
    ReturnsName(r, g);
  }

  /** A generator that waits for a job has not finished. */
  lemma WaitingIsUnfinished(g: Generators.Generator, submitId: nat, used: set<Id>, j: Id)
    requires OpenRuns.Reached(g, submitId, used) && Generators.Healthy(g) && j in Generators.Given(g)
    ensures !Generators.Finished(g)
  {
    hide OpenRuns.Reached, Generators.Sound, Generators.Finished;
    var o := OpenRuns.AnswerHasAnOracle(g, submitId, used, j, OpenRuns.AnyAnswer);
    Generators.JobCompletedKeepsSound(g, o, submitId, {}, used, j, OpenRuns.AnyAnswer);
  }

  /** A submission one of whose jobs is lost is never returned. */
  lemma LostJobBlocksItsSubmission(s: System, j: Id)
    requires Inv(s) && Wellformed(s) && Traced(s) && j in s.dropped
    ensures j in s.queue.originalJobIDToGenerator
    ensures var g := s.queue.originalJobIDToGenerator[j]; g in s.queue.generators && !IsReturned(s, g)
  {
    DroppedAreLive(s);
    AliasesNameOwners(s.queue, s.used);
    var g := s.queue.originalJobIDToGenerator[j];
    hide Run, MachinesOK, PlacesOK, InflightOK, PendingOK, DeliveredOK, TestingOK, AliasesOK, OpenRuns.Reached,
      Generators.Finished, Generators.Healthy, Generators.Given, Generators.Quiet;
    assert AwaitsItsJobs(s.queue, g);
    assert GeneratorTraced(s, g);
    GeneratorsAreHealthy(s, g);
    WaitingIsUnfinished(s.queue.generators[g], s.submitted[g], s.used, j);
    ReturnedIsFinished(s, g);
  }

  lemma ReturnedIsFinished(s: System, g: nat)
    requires ReturnsOK(s) && g in s.queue.generators
    ensures IsReturned(s, g) ==> Generators.Finished(s.queue.generators[g])
  {
    if IsReturned(s, g) {
      var k :| 0 <= k < |s.returned| && s.returned[k].0 == g;
      assert ReturnOK(s, k);
    }
  }

  /** Once nothing is left to do, a submission has been returned exactly if no result for one of its jobs was discarded:
      the others are not affected. */
  lemma ReturnedUnlessLost(steps: seq<Step>, s: System, newID: Id, g: nat)
    requires Run(Initial, steps, s) && s.fault == Fine && Wellformed(s) && NothingLeft(s, newID)
    requires g in s.queue.generators
    ensures IsReturned(s, g) <==> !LostOne(s, g)
  {
    RunIsTraced(steps, s);
    hide Run, Inv, Wellformed, Traced, NothingLeft, IsReturned;
    OnlyDroppedAreLeft(s, newID);
    if LostOne(s, g) {
      var j :| j in s.dropped && j in s.queue.originalJobIDToGenerator && s.queue.originalJobIDToGenerator[j] == g;
      LostJobBlocksItsSubmission(s, j);
    } else {
      NothingLeftMeansReturned(s, newID, g);
    }
  }

  /** Once nothing is left to do, every submission has been returned exactly if no result was discarded in the run. */
  lemma AllReturnedExactly(steps: seq<Step>, s: System, newID: Id)
    requires Run(Initial, steps, s) && s.fault == Fine && Wellformed(s) && NothingLeft(s, newID)
    ensures (forall g {:trigger IsReturned(s, g)} :: g in s.queue.generators ==> IsReturned(s, g))
            <==> NeverDiscards(Initial, steps, s)
  {
    RunIsTraced(steps, s);
    InitialIsSafe();
    hide Run, NeverDiscards, Inv, Wellformed, Traced, NothingLeft, IsReturned;
    RunDropsExactly(Initial, steps, s);
    if NeverDiscards(Initial, steps, s) {
      forall g | g in s.queue.generators
        ensures IsReturned(s, g)
      {
        NoSubmissionIsStuck(steps, s, newID, g);
      }
    } else {
      var j :| j in s.dropped;
      LostJobBlocksItsSubmission(s, j);
    }
  }

  /** A submission really can get stuck: nothing is left to do, and it has not been returned. */
  lemma AStuckSubmission(result: JobResult) returns (steps: seq<Step>, s: System)
    ensures Run(Initial, steps, s) && s.fault == Fine && Wellformed(s) && NothingLeft(s, 2)
    ensures 0 in s.queue.generators && !IsReturned(s, 0)
  {
    hide Run, NeverDiscards, Inv, Traced, Wired, NextJob, FailedOnItsWay;
    steps, s := ALostJob(result);
    RunIsTraced(steps, s);
    WellformedIsWired(s);
    NothingToFetch(s.queue);
  }

  lemma WellformedIsWired(s: System)
    requires Wellformed(s)
    ensures Wired(s.queue)
  {
  }

  lemma NothingToFetch(q: Queue)
    requires q == FailedOnItsWay.queue && Wired(q)
    ensures NextJob(q, 2).1.None? && 0 in q.generators
  {
    assert q.generators[0] == Compiling;
    assert Generators.NextJob(Compiling, 2) == (Compiling, None);
    assert q.activeGenerators == [0] && Retire(q, Compiling).activeGenerators == [];
    assert AskActive(q, 2) == AskActive(Retire(q, Compiling), 2);
    assert AskActive(Retire(q, Compiling), 2).1.None?;
  }

  lemma AliasesNameOwners(q: Queue, used: set<Id>)
    requires AliasesOK(q, used)
    ensures q.originalJobIDToGenerator.Keys == q.originalJobIDToJob
  {
  }

  lemma ReturnsName(s: System, g: nat)
    requires ReturnsOK(s) && g in s.queue.generators && Generators.Finished(s.queue.generators[g])
    ensures exists k :: 0 <= k < |s.returned| && s.returned[k].0 == g
  {
    assert IsReturned(s, g);
  }

  lemma FetchKeepsReturned(s: System, newID: Id)
    requires Wellformed(s)
    ensures Fetch(s, newID).returned == s.returned
  {
  }
}
