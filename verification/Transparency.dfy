/** Cancellation, rescheduling, failures and duplicates do not show: if invokers report the outcome each test has,
    and SK only for jobs the registry told them to stop, then every submission returned is the sequential judge's. */
module Transparency {
  import opened Models
  import opened Lists
  import opened MasterQueue
  import opened QueueLaws
  import opened InvokerMachine
  import opened Dispatch
  import opened DispatchInvariant
  import opened DispatchSteps
  import opened DispatchTheorems
  import Generators
  import EndToEnd
  import OpenRuns

  /** The outcome every submission would have, by generator. */
  type Outcomes = map<nat, Oracle>

  /** The result is the job's outcome, or SK for an ID some invoker was asked to stop. */
  predicate HonestResult(O: Outcomes, s: System, id: Id, r: JobResult) {
    var j := Original(s.queue, id);
    && j in s.queue.jobs && j in s.queue.originalJobIDToGenerator && s.queue.originalJobIDToGenerator[j] in O
    && Honest(O[s.queue.originalJobIDToGenerator[j]], s.stopped, id, s.queue.jobs[j], r)
  }

  /** Only results the registry accepts have to be honest. */
  predicate HonestStep(O: Outcomes, s: System, e: Step)
    requires Enabled(s, e)
  {
    match e
    case SubmitStep(g, kind, _) => g in O && |O[g].tests| == Generators.Tests(kind)
    case ReceiveStep(id, r) => id in s.invokerByJobID ==> HonestResult(O, s, id, r)
    case _ => true
  }

  predicate HonestRun(O: Outcomes, s: System, steps: seq<Step>, r: System)
    requires Run(s, steps, r)
    decreases |steps|
  {
    steps == [] || (HonestStep(O, s, steps[0]) && HonestRun(O, Next(s, steps[0]), steps[1..], r))
  }

  // ---------- the invariant ----------

  /** The jobs of a generator whose current ID some invoker was asked to stop. */
  function StoppedOf(s: System, g: nat): set<Id>
    requires g in s.queue.generators
  {
    set j | j in Generators.Given(s.queue.generators[g]) && j in s.queue.jobs && s.queue.jobs[j].id in s.stopped
  }

  ghost predicate JudgedBy(O: Outcomes, s: System, g: nat)
    requires g in s.queue.generators
  {
    && g in O && g in s.submitted
    && Generators.Sound(s.queue.generators[g], O[g], s.submitted[g], StoppedOf(s, g), s.used)
  }

  /** A job requires jobs of its own generator only, under the IDs they were issued with. */
  predicate RequiresOwn(q: Queue, k: Id)
    requires k in q.jobs
  {
    && q.jobs[k].required <= q.jobs.Keys
    && (k in q.originalJobIDToGenerator ==>
          forall j :: j in q.jobs[k].required && j in q.originalJobIDToGenerator ==>
            q.originalJobIDToGenerator[j] == q.originalJobIDToGenerator[k])
  }

  ghost predicate Faithful(O: Outcomes, s: System) {
    && (forall g {:trigger JudgedBy(O, s, g)} :: g in s.queue.generators ==> JudgedBy(O, s, g))
    && (forall id {:trigger HonestResult(O, s, id, s.accepted[id])} ::
          id in s.accepted ==> HonestResult(O, s, id, s.accepted[id]))
    && (forall k {:trigger RequiresOwn(s.queue, k)} :: k in s.queue.jobs ==> RequiresOwn(s.queue, k))
    && s.stopped <= s.used
  }

  // ---------- steps that change neither queue nor results ----------

  lemma SameStaysFaithful(O: Outcomes, s: System, r: System)
    requires Faithful(O, s) && r.queue == s.queue && r.accepted == s.accepted && r.stopped == s.stopped
    requires r.used == s.used && r.submitted == s.submitted
    ensures Faithful(O, r)
  {
    hide Generators.Sound;
    forall g | g in r.queue.generators
      ensures JudgedBy(O, r, g)
    {
      assert JudgedBy(O, s, g) && StoppedOf(s, g) == StoppedOf(r, g);
    }
    forall id | id in r.accepted
      ensures HonestResult(O, r, id, r.accepted[id])
    {
      assert HonestResult(O, s, id, s.accepted[id]);
    }
  }

  lemma SubmitKeepsFaithful(O: Outcomes, s: System, g: nat, kind: Generators.Generator, submitId: nat)
    requires Faithful(O, s) && Enabled(s, SubmitStep(g, kind, submitId))
    requires HonestStep(O, s, SubmitStep(g, kind, submitId))
    ensures Faithful(O, Next(s, SubmitStep(g, kind, submitId)))
  {
    hide Generators.Sound, Wired, Generators.Given, Generators.IsFresh;
    var r := Next(s, SubmitStep(g, kind, submitId));
    FreshHasNoJobs(kind, submitId);
    Generators.FreshIsSound(kind, O[g], submitId);
    Generators.SoundForFewerStops(kind, O[g], submitId, {}, {}, {}, s.used);
    forall k | k in r.queue.generators
      ensures JudgedBy(O, r, k)
    {
      if k != g {
        assert JudgedBy(O, s, k);
        assert StoppedOf(s, k) == StoppedOf(r, k);
      } else {
        assert StoppedOf(r, g) == {};
      }
    }
    forall id | id in r.accepted
      ensures HonestResult(O, r, id, r.accepted[id])
    {
      assert HonestResult(O, s, id, s.accepted[id]);
    }
    forall k | k in r.queue.jobs
      ensures RequiresOwn(r.queue, k)
    {
      assert RequiresOwn(s.queue, k);
    }
  }

  // ---------- fetching ----------

  /** A fresh job goes with the generator that gave it and requires jobs that generator waits for. */
  predicate IssuedBy(q: Queue, r: Queue, g: nat, j: Id) {
    && g in q.generators
    && r.originalJobIDToGenerator == q.originalJobIDToGenerator[j := g]
    && j in r.jobs && r.jobs[j].required <= Generators.Given(q.generators[g]).Keys
  }

  lemma {:induction false} AskActiveIssues(q: Queue, newID: Id)
    requires Wired(q)
    ensures var (r, job) := AskActive(q, newID);
            && (job.None? ==> r.originalJobIDToGenerator == q.originalJobIDToGenerator)
            && (job.Some? ==> exists g :: IssuedBy(q, r, g, job.value))
    decreases |q.activeGenerators|
  {
    hide Generators.NextJob, Generators.Healthy, Generators.Given;
    if q.activeGenerators != [] {
      var g := q.activeGenerators[0];
      var (generator, job) := Generators.NextJob(q.generators[g], newID);
      Generators.NextJobGivesAtMostOne(q.generators[g], newID);
      if job.None? {
        var retired := Retire(q, generator);
        AskActiveIssues(retired, newID);
        var (r, later) := AskActive(retired, newID);
        if later.Some? {
          IssuedAfterRetiring(q, r, generator, later.value);
        }
      } else {
        assert IssuedBy(q, Issue(q, generator, job.value), g, job.value.id);
      }
    }
  }

  lemma IssuedAfterRetiring(q: Queue, r: Queue, generator: Generators.Generator, j: Id)
    requires q.activeGenerators != [] && q.activeGenerators[0] in q.generators
    requires Generators.Given(generator) == Generators.Given(q.generators[q.activeGenerators[0]])
    requires exists g :: IssuedBy(Retire(q, generator), r, g, j)
    ensures exists g :: IssuedBy(q, r, g, j)
  {
    hide Generators.Given;
    var g :| IssuedBy(Retire(q, generator), r, g, j);
    assert IssuedBy(q, r, g, j);
  }

  lemma IssueKeepsRequired(q: Queue, used: set<Id>, r: Queue, newID: Id, job: Option<Id>)
    requires AliasesOK(q, used) && newID !in used && IssuesAtMost(q, r, newID, job)
    requires forall g {:trigger AwaitsItsJobs(q, g)} :: g in q.generators ==> AwaitsItsJobs(q, g)
    requires job.None? ==> r.originalJobIDToGenerator == q.originalJobIDToGenerator
    requires job.Some? ==> exists g :: IssuedBy(q, r, g, job.value)
    requires forall k {:trigger RequiresOwn(q, k)} :: k in q.jobs ==> RequiresOwn(q, k)
    ensures forall k {:trigger RequiresOwn(r, k)} :: k in r.jobs ==> RequiresOwn(r, k)
  {
    hide Generators.Given;
    assert newID in q.jobs ==> NamedOK(q, used, newID);
    if job.Some? {
      var g :| IssuedBy(q, r, g, newID);
      assert AwaitsItsJobs(q, g);
    }
    forall k | k in r.jobs
      ensures RequiresOwn(r, k)
    {
      if k in q.jobs {
        assert RequiresOwn(q, k);
      }
    }
  }

  lemma FetchKeepsFaithful(O: Outcomes, s: System, newID: Id)
    requires Inv(s) && Faithful(O, s) && Enabled(s, FetchStep(newID))
    ensures Faithful(O, Next(s, FetchStep(newID)))
  {
    hide Inv, Wired, AskActive, JudgedBy, HonestResult, RequiresOwn;
    if s.queue.newFailedJobs != [] {
      hide Faithful;
      MoreUsedStaysFaithful(O, s, Fetch(s, newID));
    } else {
      IssueKeepsHonest(O, s, newID);
      AskingKeepsSound(O, s, newID);
      IssueKeepsRequirements(O, s, newID);
    }
  }

  lemma IssueKeepsRequirements(O: Outcomes, s: System, newID: Id)
    requires Inv(s) && Faithful(O, s) && Wellformed(s) && newID !in s.used && s.queue.newFailedJobs == []
    ensures var q := Fetch(s, newID).queue; forall k {:trigger RequiresOwn(q, k)} :: k in q.jobs ==> RequiresOwn(q, k)
  {
    hide PlacesOK, MachinesOK, PendingOK, InflightOK, DeliveredOK, TestingOK, Wired, Distinct, AskActive, JudgedBy,
      HonestResult, ListedOrQuiet, RequiresOwn;
    NextJobKeepsValid(s.queue, s.used, newID);
    AskActiveIssues(s.queue, newID);
    var r := Fetch(s, newID);
    IssueKeepsRequired(s.queue, s.used, r.queue, newID, r.nextJob);
  }

  lemma MoreUsedStaysFaithful(O: Outcomes, s: System, r: System)
    requires Faithful(O, s) && r.queue == s.queue.(newFailedJobs := r.queue.newFailedJobs)
    requires r.accepted == s.accepted && r.stopped == s.stopped && s.used <= r.used && r.submitted == s.submitted
    ensures Faithful(O, r)
  {
    hide Generators.Sound, Generators.Given;
    forall g | g in r.queue.generators
      ensures JudgedBy(O, r, g)
    {
      assert JudgedBy(O, s, g) && StoppedOf(s, g) == StoppedOf(r, g);
      Generators.SoundForFewerStops(s.queue.generators[g], O[g], s.submitted[g], StoppedOf(s, g), s.used,
                                    StoppedOf(r, g), r.used);
    }
    forall id | id in r.accepted
      ensures HonestResult(O, r, id, r.accepted[id])
    {
      assert HonestResult(O, s, id, s.accepted[id]);
    }
    forall k | k in r.queue.jobs
      ensures RequiresOwn(r.queue, k)
    {
      assert RequiresOwn(s.queue, k);
    }
  }

  lemma IssueKeepsHonest(O: Outcomes, s: System, newID: Id)
    requires Inv(s) && Faithful(O, s) && Enabled(s, FetchStep(newID)) && s.queue.newFailedJobs == []
    ensures var r := Fetch(s, newID);
            forall id {:trigger HonestResult(O, r, id, r.accepted[id])} ::
              id in r.accepted ==> HonestResult(O, r, id, r.accepted[id])
  {
    hide Generators.Sound, Generators.Healthy, Generators.Given, PlacesOK, MachinesOK, PendingOK, InflightOK,
      DeliveredOK, Distinct, AskActive;
    var r := Fetch(s, newID);
    NextJobKeepsValid(s.queue, s.used, newID);
    AskActiveIssues(s.queue, newID);
    assert newID in s.queue.jobs ==> NamedOK(s.queue, s.used, newID);
    hide AliasesOK, GeneratorsOK, Wellformed;
    forall id | id in r.accepted
      ensures HonestResult(O, r, id, r.accepted[id])
    {
      assert HonestResult(O, s, id, s.accepted[id]);
    }
  }

  lemma AskingKeepsSound(O: Outcomes, s: System, newID: Id)
    requires Inv(s) && Faithful(O, s) && Enabled(s, FetchStep(newID)) && s.queue.newFailedJobs == []
    ensures var r := Fetch(s, newID);
            forall g {:trigger JudgedBy(O, r, g)} :: g in r.queue.generators ==> JudgedBy(O, r, g)
  {
    hide Generators.Sound, Generators.NextJob, Generators.Healthy, Generators.Given, PlacesOK, MachinesOK, PendingOK,
      InflightOK, DeliveredOK, Distinct, AskActive;
    var r := Fetch(s, newID);
    EndToEnd.EachIsAskedAtMostOnce(s.queue, newID);
    NextJobKeepsValid(s.queue, s.used, newID);
    assert newID in s.queue.jobs ==> NamedOK(s.queue, s.used, newID);
    hide AliasesOK, Wired, JudgedBy;
    forall g | g in r.queue.generators
      ensures JudgedBy(O, r, g)
    {
      assert JudgedBy(O, s, g);
      assert AwaitsItsJobs(s.queue, g);
      EndToEnd.GeneratorsAreHealthy(s, g);
      AskedOnceStaysSound(O, s, r, g, newID);
    }
  }

  lemma AskedOnceStaysSound(O: Outcomes, s: System, r: System, g: nat, newID: Id)
    requires g in s.queue.generators && g in r.queue.generators && Generators.Healthy(s.queue.generators[g])
    requires JudgedBy(O, s, g) && AwaitsItsJobs(s.queue, g) && newID !in s.used
    requires newID !in s.queue.jobs && s.stopped <= s.used
    requires r.queue.generators[g] == s.queue.generators[g]
             || r.queue.generators[g] == Generators.NextJob(s.queue.generators[g], newID).0
    requires forall j :: j in s.queue.jobs ==> j in r.queue.jobs && r.queue.jobs[j] == s.queue.jobs[j]
    requires newID in r.queue.jobs ==> r.queue.jobs[newID].id == newID
    requires r.stopped == s.stopped && r.submitted == s.submitted && r.used == s.used + {newID}
    ensures JudgedBy(O, r, g)
  {
    hide Generators.Sound, Generators.NextJob, Generators.Healthy, Generators.Given;
    Generators.NextJobGivesAtMostOne(s.queue.generators[g], newID);
    Generators.NextJobKeepsSound(s.queue.generators[g], O[g], s.submitted[g], StoppedOf(s, g), s.used, newID);
    Generators.SoundForFewerStops(s.queue.generators[g], O[g], s.submitted[g], StoppedOf(s, g), s.used, StoppedOf(s, g),
                                  r.used);
    assert StoppedOf(r, g) == StoppedOf(s, g);
  }

  // ---------- receiving ----------

  /** The running jobs of the generator that require job j. */
  function Requiring(s: System, g: nat, j: Id): set<Id>
    requires g in s.queue.generators
  {
    set k | k in Generators.Given(s.queue.generators[g]) && j in Generators.Given(s.queue.generators[g])[k].required
            && k in s.queue.jobs && s.queue.jobs[k].id in s.testingJobs
  }

  /** The jobs stopped because of a result that is neither OK nor PT are, for their generators, exactly the running ones
      that require the job it belongs to. IDs given by rescheduling are nobody's requirement: the result of a job that
      was rescheduled stops nothing. */
  lemma StopsAreRequirements(O: Outcomes, s: System, id: Id, r: JobResult, g: nat)
    requires Inv(s) && Faithful(O, s) && Wellformed(s) && id in s.invokerByJobID && g in s.queue.generators
    ensures var j, n := Original(s.queue, id), Receive(s, id, r);
            && j in s.queue.originalJobIDToGenerator && n.queue == s.queue
            && StoppedOf(n, g) == StoppedOf(s, g) +
                 (if r.verdict !in {OK, PT} && id == j && g == s.queue.originalJobIDToGenerator[j]
                  then Requiring(s, g, j) else {})
  {
    hide Generators.Sound, Generators.Healthy, Generators.Given, PlacesOK, MachinesOK, PendingOK, InflightOK,
      DeliveredOK, Distinct, Receive, Wired;
    assert Current(s.queue, id) by { HeldIsCurrent(s, id); }
    ReceiveStops(s, id, r);
    var j, n := Original(s.queue, id), Receive(s, id, r);
    forall k | k in Generators.Given(s.queue.generators[g])
      ensures k in s.queue.jobs && IsLive(s.queue, k)
      ensures s.queue.jobs[k].id in Dependents(s, id) <==>
              id == j && g == s.queue.originalJobIDToGenerator[j] && k in Requiring(s, g, j)
    {
      DependentsOfOne(O, s, id, g, k);
    }
    hide Dependents, Faithful, Inv;
    StoppedByOne(s, n, g, if r.verdict !in {OK, PT} then Dependents(s, id) else {});
  }

  lemma StoppedByOne(s: System, n: System, g: nat, stops: set<Id>)
    requires g in s.queue.generators && n.queue == s.queue && n.stopped == s.stopped + stops
    ensures StoppedOf(n, g) == StoppedOf(s, g) +
              set k | k in Generators.Given(s.queue.generators[g]) && k in s.queue.jobs && s.queue.jobs[k].id in stops
  {
    hide Generators.Given;
  }

  lemma DependentsOfOne(O: Outcomes, s: System, id: Id, g: nat, k: Id)
    requires Inv(s) && Faithful(O, s) && Wellformed(s) && Current(s.queue, id) && g in s.queue.generators
    requires k in Generators.Given(s.queue.generators[g])
    ensures k in s.queue.jobs && IsLive(s.queue, k)
    ensures var j := Original(s.queue, id);
            && j in s.queue.originalJobIDToGenerator
            && (s.queue.jobs[k].id in Dependents(s, id) <==>
                id == j && g == s.queue.originalJobIDToGenerator[j] && k in Requiring(s, g, j))
  {
    hide Generators.Sound, Generators.Healthy, Generators.Given, PlacesOK, MachinesOK, PendingOK, InflightOK,
      DeliveredOK, Distinct, Wired;
    assert AwaitsItsJobs(s.queue, g);
    LiveJobsAreCurrent(s.queue, s.used, k);
    assert RequiresOwn(s.queue, k);
    assert id in s.queue.jobIDToOriginalJobID ==> AliasOK(s.queue, s.used, id);
    assert Generators.Given(s.queue.generators[g])[k].required == s.queue.jobs[k].required;
  }

  lemma ReceiveStops(s: System, id: Id, r: JobResult)
    requires Inv(s) && Wellformed(s) && id in s.invokerByJobID
    ensures var n := Receive(s, id, r);
            n.queue == s.queue && n.stopped == s.stopped + (if r.verdict !in {OK, PT} then Dependents(s, id) else {})
  {
    hide Wired, JobTested, Valid, PlacesOK, MachinesOK, PendingOK, InflightOK, DeliveredOK;
    assert Dependents(s, id) <= s.invokerByJobID.Keys;
    hide Dependents, Inv;
  }

  lemma HeldIsCurrent(s: System, id: Id)
    requires Inv(s) && (id in s.invokerByJobID || id in s.accepted)
    ensures Current(s.queue, id) && id in s.used
  {
    PlacedIdsAreUsed(s, id);
  }

  /** In the generator's own terms an honest result is an honest answer to the job it gave. */
  lemma HonestForItsGenerator(O: Outcomes, s: System, id: Id, r: JobResult)
    requires Valid(s.queue, s.used) && Current(s.queue, id) && HonestResult(O, s, id, r)
    ensures var j := Original(s.queue, id);
            var g := s.queue.originalJobIDToGenerator[j];
            && g in s.queue.generators && j in Generators.Given(s.queue.generators[g])
            && Generators.Given(s.queue.generators[g])[j].id == j
            && Honest(O[g], StoppedOf(s, g), j, Generators.Given(s.queue.generators[g])[j], r)
  {
    hide Generators.Healthy, Generators.Given, Distinct, AliasesOK;
    var j := Original(s.queue, id);
    assert AwaitsItsJobs(s.queue, s.queue.originalJobIDToGenerator[j]);
  }

  /** The jobs stopped for a result are among those the generator allows to be stopped. */
  lemma RequiringMayStop(s: System, g: nat, j: Id, r: JobResult)
    requires g in s.queue.generators && r.verdict !in {OK, PT}
    ensures Requiring(s, g, j) <= Stops(Generators.Given(s.queue.generators[g]), j, r)
  {
    hide Generators.Given;
  }

  lemma ReceiveKeepsSound(O: Outcomes, s: System, id: Id, r: JobResult, g: nat)
    requires Inv(s) && Faithful(O, s) && Wellformed(s) && id in s.invokerByJobID && g in s.queue.generators
    requires HonestResult(O, s, id, r)
    ensures JudgedBy(O, Receive(s, id, r), g)
  {
    hide Generators.Sound, Generators.Healthy, Generators.Given, PlacesOK, MachinesOK, PendingOK, InflightOK,
      DeliveredOK, Distinct, AliasesOK, Stops, Honest;
    HeldIsCurrent(s, id);
    var j, n := Original(s.queue, id), Receive(s, id, r);
    assert JudgedBy(O, s, g);
    StopsAreRequirements(O, s, id, r, g);
    EndToEnd.GeneratorsAreHealthy(s, g);
    var generator := s.queue.generators[g];
    var stopping := if g == s.queue.originalJobIDToGenerator[j] then Stops(Generators.Given(generator), j, r) else {};
    if g == s.queue.originalJobIDToGenerator[j] {
      HonestForItsGenerator(O, s, id, r);
      Generators.StoppingKeepsSound(generator, O[g], s.submitted[g], StoppedOf(s, g), s.used, j, r);
      if r.verdict !in {OK, PT} {
        RequiringMayStop(s, g, j, r);
      }
    } else {
      assert StoppedOf(s, g) + {} == StoppedOf(s, g);
    }
    hide Requiring, Dependents, Receive, Inv, Faithful;
    Generators.SoundForFewerStops(generator, O[g], s.submitted[g], StoppedOf(s, g) + stopping, s.used, StoppedOf(n, g),
                                  s.used);
    ReceiveKeepsNames(s, id, r);
  }

  lemma ReceiveKeepsNames(s: System, id: Id, r: JobResult)
    requires Wellformed(s)
    ensures var n := Receive(s, id, r);
            && n.queue == s.queue && n.used == s.used && n.submitted == s.submitted
            && s.stopped <= n.stopped <= s.stopped + Dependents(s, id)
            && (n.accepted == s.accepted || (id in s.invokerByJobID && n.accepted == s.accepted[id := r]))
  {
    hide Wired, Dependents;
  }

  lemma ReceiveKeepsFaithful(O: Outcomes, s: System, id: Id, r: JobResult)
    requires Inv(s) && Faithful(O, s) && Wellformed(s)
    requires id in s.invokerByJobID ==> HonestResult(O, s, id, r)
    ensures Faithful(O, Receive(s, id, r))
  {
    hide Inv, Wired, JudgedBy, HonestResult, RequiresOwn;
    if id in s.invokerByJobID {
      var n := Receive(s, id, r);
      ReceiveKeepsNames(s, id, r);
      TestingIsUsed(s);
      hide Receive;
      forall g | g in n.queue.generators
        ensures JudgedBy(O, n, g)
      {
        ReceiveKeepsSound(O, s, id, r, g);
      }
      MoreStopsStayHonest(O, s, n, id, r);
    }
  }

  lemma MoreStopsStayHonest(O: Outcomes, s: System, n: System, id: Id, r: JobResult)
    requires HonestResult(O, s, id, r)
    requires forall a {:trigger HonestResult(O, s, a, s.accepted[a])} ::
               a in s.accepted ==> HonestResult(O, s, a, s.accepted[a])
    requires n.queue == s.queue && s.stopped <= n.stopped
    requires n.accepted == s.accepted || n.accepted == s.accepted[id := r]
    ensures forall a {:trigger HonestResult(O, n, a, n.accepted[a])} ::
              a in n.accepted ==> HonestResult(O, n, a, n.accepted[a])
  {
    forall a | a in n.accepted
      ensures HonestResult(O, n, a, n.accepted[a])
    {
      assert a in s.accepted ==> HonestResult(O, s, a, s.accepted[a]);
    }
  }

  lemma TestingIsUsed(s: System)
    requires Inv(s)
    ensures s.testingJobs.Keys <= s.used
  {
    hide Valid, PlacesOK, MachinesOK, PendingOK, InflightOK, DeliveredOK;
    forall id | id in s.testingJobs
      ensures id in s.used
    {
      HeldIsCurrent(s, id);
    }
  }

  // ---------- applying ----------

  /** What applying a result does, spelled out for the invariant. */
  lemma ApplyKeepsNames(s: System, id: Id)
    requires Inv(s) && Wellformed(s) && s.fault == Fine && id in s.accepted && Apply(s, id).fault == Fine
    ensures var n, j := Apply(s, id), Original(s.queue, id);
            && Current(s.queue, id)
            && n.queue.jobs == s.queue.jobs && n.queue.jobIDToOriginalJobID == s.queue.jobIDToOriginalJobID - {id}
            && n.queue.originalJobIDToGenerator == s.queue.originalJobIDToGenerator - {j}
            && n.accepted == s.accepted - {id} && n.stopped == s.stopped
  {
    hide AliasesOK, GeneratorsOK, JobCompleted, Generators.Given, Generators.Healthy, MachinesOK, Distinct, PendingOK,
      InflightOK, DeliveredOK, TestingOK, Apply;
    assert Current(s.queue, id);
    JobCompletedReachesItsGenerator(s.queue, s.used, id, s.accepted[id]);
    ApplyShape(s, id);
    hide Valid, PlacesOK, Wired;
  }

  lemma ApplyShape(s: System, id: Id)
    requires Wellformed(s) && id in s.accepted
    ensures var n, q := Apply(s, id), JobCompleted(s.queue, id, s.accepted[id]).0;
            n.queue == q && n.accepted == s.accepted - {id} && n.stopped == s.stopped
  {
    hide Wired, JobCompleted;
  }

  lemma ApplyKeepsFaithful(O: Outcomes, s: System, id: Id)
    requires Inv(s) && Faithful(O, s) && Wellformed(s) && s.fault == Fine
    requires id in s.accepted && Apply(s, id).fault == Fine
    ensures Faithful(O, Apply(s, id))
  {
    var n := Apply(s, id);
    ApplyKeepsNames(s, id);
    EndToEnd.ApplyReachesItsGenerator(s, id);
    hide MachinesOK, PendingOK, InflightOK, DeliveredOK, TestingOK, Apply, Generators.Sound, Generators.JobCompleted,
      Generators.Given, Generators.Healthy, Wellformed, GeneratorsOK, Wired;
    forall g | g in n.queue.generators
      ensures JudgedBy(O, n, g)
    {
      ApplyKeepsSound(O, s, id, g);
    }
    hide JudgedBy, AliasesOK;
    CompletionKeepsHonest(O, s, n, id);
    CompletionKeepsRequired(s.queue, n.queue, Original(s.queue, id));
  }

  lemma CompletionKeepsHonest(O: Outcomes, s: System, n: System, id: Id)
    requires AliasesOK(s.queue, s.used) && Current(s.queue, id)
    requires PlacesOK(s.queue, s.nextJob, s.invokerByJobID, s.accepted, s.dropped)
    requires forall a {:trigger HonestResult(O, s, a, s.accepted[a])} ::
               a in s.accepted ==> HonestResult(O, s, a, s.accepted[a])
    requires n.queue.jobs == s.queue.jobs && n.queue.jobIDToOriginalJobID == s.queue.jobIDToOriginalJobID - {id}
    requires n.queue.originalJobIDToGenerator == s.queue.originalJobIDToGenerator - {Original(s.queue, id)}
    requires n.accepted == s.accepted - {id} && n.stopped == s.stopped
    ensures forall a {:trigger HonestResult(O, n, a, n.accepted[a])} ::
              a in n.accepted ==> HonestResult(O, n, a, n.accepted[a])
  {
    forall a | a in n.accepted
      ensures HonestResult(O, n, a, n.accepted[a])
    {
      assert HonestResult(O, s, a, s.accepted[a]);
      assert Current(s.queue, a);
      if Original(s.queue, a) == Original(s.queue, id) {
        AliasingIsInjective(s.queue, s.used, a, id);
      }
    }
  }

  lemma CompletionKeepsRequired(q: Queue, r: Queue, j: Id)
    requires forall k {:trigger RequiresOwn(q, k)} :: k in q.jobs ==> RequiresOwn(q, k)
    requires r.jobs == q.jobs && r.originalJobIDToGenerator == q.originalJobIDToGenerator - {j}
    ensures forall k {:trigger RequiresOwn(r, k)} :: k in r.jobs ==> RequiresOwn(r, k)
  {
    forall k | k in r.jobs
      ensures RequiresOwn(r, k)
    {
      assert RequiresOwn(q, k);
    }
  }

  lemma ApplyKeepsSound(O: Outcomes, s: System, id: Id, g: nat)
    requires Inv(s) && Faithful(O, s) && Wellformed(s) && s.fault == Fine
    requires id in s.accepted && Apply(s, id).fault == Fine
    requires g in s.queue.generators && g in Apply(s, id).queue.generators
    ensures JudgedBy(O, Apply(s, id), g)
  {
    hide PlacesOK, MachinesOK, PendingOK, InflightOK, DeliveredOK, TestingOK, Apply, Generators.Sound,
      Generators.JobCompleted, Generators.Given, Generators.Healthy, Honest, Wellformed, Valid, Current, RequiresOwn;
    var n, j := Apply(s, id), Original(s.queue, id);
    ApplyKeepsNames(s, id);
    EndToEnd.ApplyReachesItsGenerator(s, id);
    assert JudgedBy(O, s, g);
    assert HonestResult(O, s, id, s.accepted[id]);
    if g == s.queue.originalJobIDToGenerator[j] {
      EndToEnd.GeneratorsAreHealthy(s, g);
      HonestForItsGenerator(O, s, id, s.accepted[id]);
      var stopped := StoppedOf(s, g);
      Generators.JobCompletedKeepsSound(s.queue.generators[g], O[g], s.submitted[g], stopped, s.used, j,
                                        s.accepted[id]);
      Generators.JobCompletedTakesOne(s.queue.generators[g], j, s.accepted[id]);
      Generators.SoundForFewerStops(n.queue.generators[g], O[g], s.submitted[g], stopped, s.used, StoppedOf(n, g),
                                    n.used);
    } else {
      assert StoppedOf(n, g) == StoppedOf(s, g);
    }
  }

  // ---------- losing an invoker ----------

  lemma RescheduleOneKeepsFaithful(O: Outcomes, s: System, i: nat, id: Id, newID: Id)
    requires Inv(s) && Faithful(O, s) && Wellformed(s) && InExtracted(s.extracted, i, id) && newID !in s.used
    ensures Faithful(O, RescheduleOne(s, i, id, newID))
  {
    hide AliasesOK, GeneratorsOK, MachinesOK, InflightOK, DeliveredOK, TestingOK, PlacesOK, PendingOK,
      Generators.Healthy, Distinct, JudgedBy, HonestResult, RequiresOwn;
    var r := RescheduleOne(s, i, id, newID);
    if id !in s.invokerByJobID {
      hide Inv, Wired, Faithful;
      SameStaysFaithful(O, s, r);
    } else {
      PlacedIdsAreUsed(s, id);
      RescheduleKeepsValid(s.queue, s.used, id, newID);
      forall a | a in s.accepted
        ensures a != id && a != newID
      {
        AcceptedKeepsItsName(s, id, newID, a);
      }
      hide Inv, Wired;
      RenamingStaysSound(O, s, r, id, newID);
      RenamingStaysHonest(O, s, r, id, newID);
    }
  }

  /** What rescheduling one job does, spelled out for the invariant. */
  predicate Renamed(s: System, r: System, id: Id, newID: Id) {
    && Current(s.queue, id) && newID !in s.stopped
    && Renames(s.queue, r.queue, id, newID)
    && r.queue.generators == s.queue.generators
    && r.queue.originalJobIDToGenerator == s.queue.originalJobIDToGenerator
    && r.accepted == s.accepted && r.stopped == s.stopped && r.submitted == s.submitted && r.used == s.used + {newID}
  }

  lemma RenamingStaysSound(O: Outcomes, s: System, r: System, id: Id, newID: Id)
    requires Faithful(O, s) && Renamed(s, r, id, newID)
    ensures forall g {:trigger JudgedBy(O, r, g)} :: g in r.queue.generators ==> JudgedBy(O, r, g)
  {
    hide Generators.Sound, Generators.Given;
    forall g | g in r.queue.generators
      ensures JudgedBy(O, r, g)
    {
      assert JudgedBy(O, s, g);
      Generators.SoundForFewerStops(s.queue.generators[g], O[g], s.submitted[g], StoppedOf(s, g), s.used,
                                    StoppedOf(r, g), r.used);
    }
  }

  lemma RenamingStaysHonest(O: Outcomes, s: System, r: System, id: Id, newID: Id)
    requires Faithful(O, s) && Renamed(s, r, id, newID)
    requires forall a :: a in s.accepted ==> a != id && a != newID
    ensures forall a {:trigger HonestResult(O, r, a, r.accepted[a])} ::
              a in r.accepted ==> HonestResult(O, r, a, r.accepted[a])
    ensures forall k {:trigger RequiresOwn(r.queue, k)} :: k in r.queue.jobs ==> RequiresOwn(r.queue, k)
  {
    hide JudgedBy;
    forall a | a in r.accepted
      ensures HonestResult(O, r, a, r.accepted[a])
    {
      assert HonestResult(O, s, a, s.accepted[a]);
    }
    forall k | k in r.queue.jobs
      ensures RequiresOwn(r.queue, k)
    {
      assert RequiresOwn(s.queue, k);
    }
  }

  lemma AcceptedKeepsItsName(s: System, id: Id, newID: Id, a: Id)
    requires Inv(s) && id in s.invokerByJobID && newID !in s.used && a in s.accepted
    ensures a != id && a != newID
  {
    PlacedIdsAreUsed(s, a);
    AcceptedIdIsNotHeld(s, a);
  }

  lemma {:induction false} RescheduleKeepsFaithful(
      O: Outcomes, s: System, i: nat, order: seq<Id>, newIDs: seq<Id>, k: nat)
    requires k <= |order| == |newIDs| && Inv(s) && Wellformed(s)
    requires Faithful(O, s) && StillToReschedule(s, i, order, newIDs, k)
    ensures i in s.extracted && Faithful(O, Reschedule(s, i, order, newIDs, k))
    decreases |order| - k
  {
    hide Inv, Wellformed, StillToReschedule, RescheduleOne, Faithful;
    if k < |order| {
      NextToReschedule(s, i, order, newIDs, k);
      var r := RescheduleOne(s, i, order[k], newIDs[k]);
      RescheduleOneKeepsInv(s, i, order[k], newIDs[k]);
      ReschedulingGoesOn(s, r, i, order, newIDs, k);
      RescheduleOneKeepsFaithful(O, s, i, order[k], newIDs[k]);
      RescheduleKeepsFaithful(O, r, i, order, newIDs, k + 1);
    } else {
      NothingLeftToReschedule(s, i, order, newIDs);
    }
  }

  lemma UnregisterKeepsFaithful(O: Outcomes, s: System, i: nat, order: seq<Id>, newIDs: seq<Id>)
    requires Inv(s) && Faithful(O, s) && Enabled(s, RescheduleStep(i, order, newIDs))
    ensures Faithful(O, Unregister(s, i, order, newIDs))
  {
    hide Inv, Wired, Distinct, Faithful;
    assert order[0..] == order && newIDs[0..] == newIDs;
    RescheduleKeepsFaithful(O, s, i, order, newIDs, 0);
    SameStaysFaithful(O, Reschedule(s, i, order, newIDs, 0), Unregister(s, i, order, newIDs));
  }

  // ---------- every run ----------

  lemma SendStaysFaithful(O: Outcomes, s: System, i: nat)
    requires Wellformed(s) && Faithful(O, s) && s.nextJob.Some? && i in s.machines
    ensures Faithful(O, Send(s, i))
  {
    hide Wired, TrySendJob, Faithful;
    SameStaysFaithful(O, s, Send(s, i));
  }

  lemma SentStaysFaithful(O: Outcomes, s: System, i: nat, j: Id, reply: Reply)
    requires Wellformed(s) && Faithful(O, s) && (i, j) in s.inflight
    ensures Faithful(O, Sent(s, i, j, reply))
  {
    hide Wired, Sent, Faithful;
    SentKeepsDropped(s, i, j, reply);
    SameStaysFaithful(O, s, Sent(s, i, j, reply));
  }

  lemma UpsertStaysFaithful(O: Outcomes, s: System, status: Status, orders: map<nat, seq<Id>>, i: nat)
    requires Inv(s) && Wellformed(s) && Faithful(O, s) && (forall k :: k in s.invokers ==> k in orders)
    ensures Faithful(O, Upsert(s, status, orders, i))
  {
    hide Wired, Inv, Offer, Faithful;
    OfferKeepsInv(s, status, orders, 0);
    SameStaysFaithful(O, s, Upsert(s, status, orders, i));
  }

  lemma StepKeepsFaithful(O: Outcomes, s: System, e: Step)
    requires Inv(s) && Faithful(O, s) && Enabled(s, e) && HonestStep(O, s, e) && Next(s, e).fault == Fine
    ensures Faithful(O, Next(s, e))
  {
    hide Inv, Faithful, Fetch, Send, Sent, Apply, Receive, Unregister, Upsert, Generators.IsFresh, Distinct, IsOrder,
      UpdateStatus, HonestResult, Wired;
    match e
    case SubmitStep(g, kind, submitId) => SubmitKeepsFaithful(O, s, g, kind, submitId);
    case FetchStep(newID) => FetchKeepsFaithful(O, s, newID);
    case SendStep(i) => SendStaysFaithful(O, s, i);
    case ReceiveStep(id, result) => ReceiveKeepsFaithful(O, s, id, result);
    case ApplyStep(id) => ApplyKeepsFaithful(O, s, id);
    case FailStep(i) => SameStaysFaithful(O, s, Next(s, e));
    case ExtractStep(i) => SameStaysFaithful(O, s, Next(s, e));
    case RescheduleStep(i, order, newIDs) => UnregisterKeepsFaithful(O, s, i, order, newIDs);
    case UpsertStep(status, orders, i) => UpsertStaysFaithful(O, s, status, orders, i);
    case PingStep(i, status, order) => SameStaysFaithful(O, s, Next(s, e));
    case SentStep(i, j, reply) => SentStaysFaithful(O, s, i, j, reply);
    case TimeoutStep(i, id) => SameStaysFaithful(O, s, Next(s, e));
  }

  lemma {:induction false} RunKeepsFaithful(O: Outcomes, s: System, steps: seq<Step>, r: System)
    requires Safe(s) && Run(s, steps, r) && HonestRun(O, s, steps, r) && r.fault == Fine && Faithful(O, s)
    ensures Faithful(O, r)
    decreases |steps|
  {
    FaultIsFinal(s, steps, r);
    if steps != [] {
      FaultIsFinal(Next(s, steps[0]), steps[1..], r);
      StepKeepsSafe(s, steps[0]);
      hide Inv, Enabled, Next, Faithful, HonestStep;
      StepKeepsFaithful(O, s, steps[0]);
      RunKeepsFaithful(O, Next(s, steps[0]), steps[1..], r);
    }
  }

  lemma SoundForItsTests(O: Outcomes, s: System, g: nat)
    requires g in s.queue.generators && JudgedBy(O, s, g)
    ensures |O[g].tests| == Generators.Tests(s.queue.generators[g])
  {
  }

  lemma InitialIsFaithful(O: Outcomes)
    ensures Faithful(O, Initial)
  {
  }

  /** Every submission returned by the queue is the one the sequential judge makes of the outcomes. */
  lemma ReturnedIsTheJudgement(O: Outcomes, steps: seq<Step>, s: System, k: nat)
    requires Run(Initial, steps, s) && HonestRun(O, Initial, steps, s) && s.fault == Fine && k < |s.returned|
    ensures var (g, sub) := s.returned[k];
            && g in O && g in s.queue.generators && g in s.submitted && Generators.Healthy(s.queue.generators[g])
            && |O[g].tests| == Generators.Tests(s.queue.generators[g])
            && sub == Generators.Judgement(s.queue.generators[g], O[g], s.submitted[g])
  {
    hide Inv, HonestRun, Run, Wellformed, HonestResult, RequiresOwn, Generators.Finished, Generators.Judgement,
      Generators.Healthy, Generators.Sound, EndToEnd.GeneratorTraced;
    InitialIsSafe();
    InitialIsFaithful(O);
    EndToEnd.RunIsTraced(steps, s);
    RunKeepsFaithful(O, Initial, steps, s);
    assert EndToEnd.ReturnOK(s, k);
    var g := s.returned[k].0;
    assert JudgedBy(O, s, g);
    SoundForItsTests(O, s, g);
    EndToEnd.GeneratorsAreHealthy(s, g);
    Generators.FinishedIsTheJudgement(s.queue.generators[g], O[g], s.submitted[g], StoppedOf(s, g), s.used);
  }

  // ---------- no verdict is repaired ----------

  /** Applying a result makes its generator turn an SK into CF. */
  predicate RepairsAt(s: System, e: Step)
    requires Enabled(s, e)
  {
    e.ApplyStep? &&
    var j := Original(s.queue, e.id);
    j in s.queue.originalJobIDToGenerator &&
    Generators.RepairsOn(s.queue.generators[s.queue.originalJobIDToGenerator[j]], j, s.accepted[e.id])
  }

  predicate EverRepairs(s: System, steps: seq<Step>, r: System)
    requires Run(s, steps, r)
    decreases |steps|
  {
    steps != [] && (RepairsAt(s, steps[0]) || EverRepairs(Next(s, steps[0]), steps[1..], r))
  }

  predicate NobodyAnswersSkip(O: Outcomes) {
    forall g, i :: g in O && 0 <= i < |O[g].tests| ==> O[g].tests[i].verdict != SK
  }

  lemma StepNeverRepairs(O: Outcomes, s: System, e: Step)
    requires Inv(s) && Faithful(O, s) && Enabled(s, e) && NobodyAnswersSkip(O)
    ensures !RepairsAt(s, e)
  {
    hide MachinesOK, InflightOK, PendingOK, DeliveredOK, TestingOK, Generators.Sound, Generators.JobCompleted,
      Generators.Given, Generators.Healthy, Honest, AliasesOK, GeneratorsOK, Generators.RepairsOn;
    if RepairsAt(s, e) {
      var id := e.id;
      assert Current(s.queue, id) by { HeldIsCurrent(s, id); }
      assert HonestResult(O, s, id, s.accepted[id]);
      HonestForItsGenerator(O, s, id, s.accepted[id]);
      var j := Original(s.queue, id);
      var g := s.queue.originalJobIDToGenerator[j];
      assert JudgedBy(O, s, g);
      EndToEnd.GeneratorsAreHealthy(s, g);
      Generators.OnlyOwnSkipsAreRepaired(s.queue.generators[g], O[g], s.submitted[g], StoppedOf(s, g), s.used, j,
                                         s.accepted[id]);
    }
  }

  lemma {:induction false} RunNeverRepairs(O: Outcomes, s: System, steps: seq<Step>, r: System)
    requires Safe(s) && Run(s, steps, r) && HonestRun(O, s, steps, r)
    requires r.fault == Fine && Faithful(O, s) && NobodyAnswersSkip(O)
    ensures !EverRepairs(s, steps, r)
    decreases |steps|
  {
    FaultIsFinal(s, steps, r);
    if steps != [] {
      FaultIsFinal(Next(s, steps[0]), steps[1..], r);
      StepKeepsSafe(s, steps[0]);
      hide Inv, Enabled, Next, Faithful, HonestStep, NobodyAnswersSkip, RepairsAt;
      StepNeverRepairs(O, s, steps[0]);
      StepKeepsFaithful(O, s, steps[0]);
      RunNeverRepairs(O, Next(s, steps[0]), steps[1..], r);
    }
  }

  /** However jobs are cancelled, a stopped job's SK never ends up as CF: among honest invokers that happens only if
      the own run of some test answers SK. */
  lemma NoSkipIsRepaired(O: Outcomes, steps: seq<Step>, s: System)
    requires Run(Initial, steps, s) && HonestRun(O, Initial, steps, s) && s.fault == Fine && NobodyAnswersSkip(O)
    ensures !EverRepairs(Initial, steps, s)
  {
    InitialIsSafe();
    RunNeverRepairs(O, Initial, steps, s);
  }

  // ---------- no panic at all ----------

  /** Only submissions whose outcomes can be scored are handed in. */
  predicate ScorableRun(O: Outcomes, s: System, steps: seq<Step>, r: System)
    requires Run(s, steps, r) && HonestRun(O, s, steps, r)
    decreases |steps|
  {
    steps == [] ||
    (&& (steps[0].SubmitStep? ==> !Generators.Unscorable(steps[0].kind, O[steps[0].generator]))
     && ScorableRun(O, Next(s, steps[0]), steps[1..], r))
  }

  ghost predicate Scorable(O: Outcomes, s: System) {
    forall g {:trigger s.queue.generators[g]} ::
      g in s.queue.generators && g in O ==> !Generators.Unscorable(s.queue.generators[g], O[g])
  }

  lemma StepKeepsScorable(O: Outcomes, s: System, e: Step)
    requires Inv(s) && Enabled(s, e) && HonestStep(O, s, e) && Next(s, e).fault == Fine && Scorable(O, s)
    requires e.SubmitStep? ==> !Generators.Unscorable(e.kind, O[e.generator])
    ensures Scorable(O, Next(s, e))
  {
    hide Inv, Fetch, Apply, Receive, Reschedule, Generators.IsFresh, Distinct, IsOrder, Offer, UpdateStatus,
      HonestResult, Wired, TrySendJob, CompleteSendJob, Generators.Unscorable, Generators.JobCompleted,
      Generators.NextJob, Generators.Healthy;
    match e
    case SubmitStep(g, kind, submitId) =>
    case FetchStep(newID) => FetchKeepsScorable(O, s, newID);
    case ReceiveStep(id, result) => ReceiveKeepsNames(s, id, result);
    case ApplyStep(id) => ApplyKeepsScorable(O, s, id);
    case RescheduleStep(i, order, newIDs) => EndToEnd.ReschedulingKeepsGenerators(s, i, order, newIDs, 0);
    case UpsertStep(status, orders, i) => OfferKeepsInv(s, status, orders, 0);
    case _ =>
  }

  lemma FetchKeepsScorable(O: Outcomes, s: System, newID: Id)
    requires Inv(s) && Wellformed(s) && Scorable(O, s)
    ensures Scorable(O, Fetch(s, newID))
  {
    hide PlacesOK, MachinesOK, InflightOK, AliasesOK, Generators.NextJob, Generators.JobCompleted,
      Generators.Unscorable, AskActive;
    if s.queue.newFailedJobs == [] {
      EndToEnd.EachIsAskedAtMostOnce(s.queue, newID);
      var r := Fetch(s, newID);
      forall g | g in r.queue.generators && g in O
        ensures !Generators.Unscorable(r.queue.generators[g], O[g])
      {
        EndToEnd.GeneratorsAreHealthy(s, g);
        Generators.StepsKeepUnscorable(s.queue.generators[g], O[g], newID, OpenRuns.AnyAnswer);
      }
    }
  }

  lemma ApplyKeepsScorable(O: Outcomes, s: System, id: Id)
    requires Inv(s) && Wellformed(s) && s.fault == Fine && id in s.accepted
    requires Apply(s, id).fault == Fine && Scorable(O, s)
    ensures Scorable(O, Apply(s, id))
  {
    EndToEnd.ApplyReachesItsGenerator(s, id);
    hide Inv, Apply, Generators.Unscorable, Generators.JobCompleted, Generators.NextJob;
    ResultKeepsScorable(O, s, Apply(s, id), s.queue.originalJobIDToGenerator[Original(s.queue, id)],
                        Original(s.queue, id), s.accepted[id]);
  }

  lemma ResultKeepsScorable(O: Outcomes, s: System, r: System, g: nat, j: Id, result: JobResult)
    requires Wellformed(s) && Scorable(O, s) && g in s.queue.generators
    requires Generators.Healthy(s.queue.generators[g])
    requires r.queue.generators == s.queue.generators[g := Generators.JobCompleted(s.queue.generators[g], j, result).0]
    ensures Scorable(O, r)
  {
    hide Generators.NextJob, Generators.JobCompleted, Generators.Unscorable, Wired, Generators.Healthy;
    if g in O {
      Generators.StepsKeepUnscorable(s.queue.generators[g], O[g], j, result);
    }
    forall k | k in r.queue.generators && k in O
      ensures !Generators.Unscorable(r.queue.generators[k], O[k])
    {
      assert k != g ==> r.queue.generators[k] == s.queue.generators[k];
    }
  }

  /** An honest result panics a generator only where judging the outcomes meets a group without a score. */
  lemma ScorableNeverPanics(O: Outcomes, s: System, e: Step)
    requires Inv(s) && Faithful(O, s) && Enabled(s, e) && Scorable(O, s)
    ensures Next(s, e).fault == Fine
  {
    hide Inv, Faithful, Scorable, Wired, Apply;
    if e.ApplyStep? {
      ScorableApplyNeverPanics(O, s, e.id);
    } else {
      OnlyApplyingPanics(s, e);
    }
  }

  lemma ScorableApplyNeverPanics(O: Outcomes, s: System, id: Id)
    requires Inv(s) && Faithful(O, s) && Wellformed(s) && s.fault == Fine && id in s.accepted && Scorable(O, s)
    ensures Apply(s, id).fault == Fine
  {
    hide MachinesOK, PendingOK, InflightOK, DeliveredOK, TestingOK, Generators.Sound, Generators.JobCompleted,
      Generators.Given, Generators.Healthy, Honest, Wired, AliasesOK, GeneratorsOK, Generators.Unscorable;
    assert Current(s.queue, id) by { HeldIsCurrent(s, id); }
    JobCompletedReachesItsGenerator(s.queue, s.used, id, s.accepted[id]);
    assert HonestResult(O, s, id, s.accepted[id]);
    HonestForItsGenerator(O, s, id, s.accepted[id]);
    var j := Original(s.queue, id);
    var g := s.queue.originalJobIDToGenerator[j];
    assert JudgedBy(O, s, g);
    EndToEnd.GeneratorsAreHealthy(s, g);
    Generators.PanicMeansUnscorable(s.queue.generators[g], O[g], s.submitted[g], StoppedOf(s, g), s.used, j,
                                    s.accepted[id]);
  }

  lemma OnlyApplyingPanics(s: System, e: Step)
    requires Inv(s) && Enabled(s, e) && !e.ApplyStep?
    ensures Next(s, e).fault == Fine
  {
    hide Inv, Wired, Fetch, Send, Receive, Extract, Unregister, Upsert, Sent, UpdateStatus, Generators.IsFresh,
      IsOrder, Distinct;
    match e
    case FetchStep(newID) => FetchKeepsInv(s, newID);
    case SendStep(i) => SendKeepsInv(s, i);
    case ReceiveStep(id, result) => ReceiveKeepsInv(s, id, result);
    case ExtractStep(i) => ExtractKeepsInv(s, i);
    case RescheduleStep(i, order, newIDs) => UnregisterKeepsInv(s, i, order, newIDs);
    case UpsertStep(status, orders, i) => UpsertKeepsInv(s, status, orders, i);
    case SentStep(i, j, reply) => SentKeepsInv(s, i, j, reply);
    case _ =>
  }

  lemma {:induction false} HonestRunsNeverPanicFrom(O: Outcomes, s: System, steps: seq<Step>, r: System)
    requires s.fault == Fine && Inv(s) && Run(s, steps, r) && HonestRun(O, s, steps, r) && ScorableRun(O, s, steps, r)
    requires Faithful(O, s) && Scorable(O, s)
    ensures r.fault == Fine
    decreases |steps|
  {
    if steps != [] {
      hide Inv, Enabled, Next, Faithful, HonestStep, Scorable, Generators.Unscorable;
      ScorableNeverPanics(O, s, steps[0]);
      StepKeepsInv(s, steps[0]);
      StepKeepsFaithful(O, s, steps[0]);
      StepKeepsScorable(O, s, steps[0]);
      HonestRunsNeverPanicFrom(O, Next(s, steps[0]), steps[1..], r);
    }
  }

  /** Nothing panics in a run among honest invokers whose submissions can all be scored. */
  lemma HonestRunsNeverPanic(O: Outcomes, steps: seq<Step>, s: System)
    requires Run(Initial, steps, s) && HonestRun(O, Initial, steps, s) && ScorableRun(O, Initial, steps, s)
    ensures s.fault == Fine
  {
    InitialIsSafe();
    HonestRunsNeverPanicFrom(O, Initial, steps, s);
  }

  /** The whole path: once no job is out and the queue has none to hand out, every submission has been returned with
      the sequential judge's result, exactly if no result was discarded in the run. */
  lemma EverySubmissionIsJudged(O: Outcomes, steps: seq<Step>, s: System, newID: Id)
    requires Run(Initial, steps, s) && HonestRun(O, Initial, steps, s) && ScorableRun(O, Initial, steps, s)
    requires Wellformed(s) && EndToEnd.NothingLeft(s, newID)
    ensures (forall g {:trigger IsJudged(O, s, g)} :: g in s.queue.generators ==> IsJudged(O, s, g))
            <==> NeverDiscards(Initial, steps, s)
  {
    HonestRunsNeverPanic(O, steps, s);
    hide Run, HonestRun, ScorableRun, NeverDiscards, Wellformed, EndToEnd.NothingLeft, IsJudged, EndToEnd.IsReturned;
    EndToEnd.AllReturnedExactly(steps, s, newID);
    forall g | g in s.queue.generators
      ensures IsJudged(O, s, g) <==> EndToEnd.IsReturned(s, g)
    {
      JudgedMeansReturned(O, steps, s, g);
    }
  }

  /** The submission has been returned, with the judgement of its outcomes. */
  ghost predicate IsJudged(O: Outcomes, s: System, g: nat) {
    && g in s.queue.generators && g in O && g in s.submitted && Generators.Healthy(s.queue.generators[g])
    && |O[g].tests| == Generators.Tests(s.queue.generators[g])
    && exists k :: 0 <= k < |s.returned| &&
         s.returned[k] == (g, Generators.Judgement(s.queue.generators[g], O[g], s.submitted[g]))
  }

  lemma JudgedMeansReturned(O: Outcomes, steps: seq<Step>, s: System, g: nat)
    requires Run(Initial, steps, s) && HonestRun(O, Initial, steps, s) && s.fault == Fine && g in s.queue.generators
    ensures IsJudged(O, s, g) <==> EndToEnd.IsReturned(s, g)
  {
    hide Run, HonestRun, Generators.Judgement, Generators.Healthy;
    if EndToEnd.IsReturned(s, g) {
      var k :| 0 <= k < |s.returned| && s.returned[k].0 == g;
      ReturnedIsTheJudgement(O, steps, s, k);
      assert s.returned[k] == (g, s.returned[k].1);
    }
  }
}
