/** The invariant of the dispatch protocol: every live job is in exactly one place, under its one current ID, unless its
    result was discarded. */
module DispatchInvariant {
  import opened Models
  import opened Lists
  import opened MasterQueue
  import opened QueueLaws
  import opened InvokerMachine
  import opened Dispatch
  import Generators
  import OpenRuns

  // ---------- the places of a job ----------

  function One(b: bool): nat {
    if b then 1 else 0
  }

  /** A live job is in exactly one of newFailedJobs, nextJob, invokerByJobID and the results taken in but not applied,
      or else its result was discarded. */
  predicate PlacedOnce(
      q: Queue, next: Option<Id>, byJob: map<Id, nat>, accepted: map<Id, JobResult>, dropped: set<Id>, j: Id)
    requires j in q.jobs
  {
    One(j in q.newFailedJobs) + One(next == Some(j)) + One(q.jobs[j].id in byJob)
      + One(q.jobs[j].id in accepted) + One(j in dropped) == 1
  }

  /** Nothing but live jobs, by their current IDs, is in any of the places. */
  ghost predicate PlacesOK(
      q: Queue, next: Option<Id>, byJob: map<Id, nat>, accepted: map<Id, JobResult>, dropped: set<Id>)
  {
    && Distinct(q.newFailedJobs)
    && dropped <= q.originalJobIDToJob <= q.jobs.Keys
    && (forall j :: j in q.newFailedJobs ==> IsLive(q, j))
    && (next.Some? ==> IsLive(q, next.value))
    && (forall id {:trigger Current(q, id)} :: id in byJob ==> Current(q, id))
    && (forall id {:trigger Current(q, id)} :: id in accepted ==> Current(q, id))
    && (forall j {:trigger PlacedOnce(q, next, byJob, accepted, dropped, j)} ::
          IsLive(q, j) ==> PlacedOnce(q, next, byJob, accepted, dropped, j))
  }

  // ---------- registry and invokers ----------

  predicate TestingOK(q: Queue, byJob: map<Id, nat>, testing: map<Id, Id>) {
    testing.Keys == byJob.Keys && forall id :: id in testing ==> testing[id] == Original(q, id)
  }

  predicate HeldBy(machines: map<nat, Invoker>, byJob: map<Id, nat>, testing: map<Id, Id>, id: Id)
    requires id in byJob
  {
    var i := byJob[id];
    i in machines && id in machines[i].holders && id in testing && machines[i].holders[id].job == testing[id]
  }

  predicate MachineOK(
    machines: map<nat, Invoker>, invokers: seq<nat>, byJob: map<Id, nat>, extracted: map<nat, set<Id>>, i: nat)
    requires i in machines
  {
    && Counted(machines[i])
    && (forall id :: id in machines[i].holders ==> id in byJob && byJob[id] == i)
    && (i !in invokers || i in extracted ==> machines[i].failed && machines[i].holders == map[])
  }

  /** The job was taken from a failed invoker and waits to be rescheduled. */
  predicate InExtracted(extracted: map<nat, set<Id>>, i: nat, id: Id) {
    i in extracted && id in extracted[i]
  }

  /** The jobs of a registered invoker are those the registry maps to it, except the ones waiting to be rescheduled. */
  ghost predicate MachinesOK(
    machines: map<nat, Invoker>, invokers: seq<nat>, byJob: map<Id, nat>, testing: map<Id, Id>,
    extracted: map<nat, set<Id>>)
  {
    && Distinct(invokers)
    && (forall i :: i in invokers ==> i in machines)
    && (forall i :: i in extracted ==> i in invokers)
    && (forall i {:trigger MachineOK(machines, invokers, byJob, extracted, i)} ::
          i in machines ==> MachineOK(machines, invokers, byJob, extracted, i))
    && (forall id {:trigger byJob[id]} :: id in byJob ==> byJob[id] in invokers)
    && (forall id {:trigger HeldBy(machines, byJob, testing, id)} ::
          id in byJob ==> HeldBy(machines, byJob, testing, id) || InExtracted(extracted, byJob[id], id))
  }

  /** A job waiting to be rescheduled is still the registry's, or its result was discarded. */
  ghost predicate PendingOK(q: Queue, byJob: map<Id, nat>, extracted: map<nat, set<Id>>, dropped: set<Id>)
  {
    forall i, id {:trigger InExtracted(extracted, i, id)} :: InExtracted(extracted, i, id) ==>
      && Current(q, id)
      && if id in byJob then byJob[id] == i else Original(q, id) in dropped
  }

  /** While a send has not been answered, the invoker does not know the job as anything but being sent. */
  predicate Unanswered(jobs: map<Id, Job>, machines: map<nat, Invoker>, i: nat, j: Id) {
    && i in machines && j in jobs
    && (jobs[j].id in machines[i].holders ==> machines[i].holders[jobs[j].id].jobType == SendingJob)
  }

  ghost predicate InflightOK(jobs: map<Id, Job>, machines: map<nat, Invoker>, inflight: set<(nat, Id)>) {
    forall i, j {:trigger Unanswered(jobs, machines, i, j)} :: (i, j) in inflight ==> Unanswered(jobs, machines, i, j)
  }

  /** Results reach the queue once per job. */
  predicate DeliveredOK(q: Queue, delivered: seq<Id>) {
    Distinct(delivered) && forall j :: j in delivered ==> j in q.jobs && !IsLive(q, j)
  }

  ghost predicate Inv(s: System) {
    && Valid(s.queue, s.used)
    && PlacesOK(s.queue, s.nextJob, s.invokerByJobID, s.accepted, s.dropped)
    && TestingOK(s.queue, s.invokerByJobID, s.testingJobs)
    && MachinesOK(s.machines, s.invokers, s.invokerByJobID, s.testingJobs, s.extracted)
    && PendingOK(s.queue, s.invokerByJobID, s.extracted, s.dropped)
    && InflightOK(s.queue.jobs, s.machines, s.inflight)
    && DeliveredOK(s.queue, s.delivered)
  }

  /** What holds after every step: the invariant, or a generator has panicked. Nothing else ever panics. */
  ghost predicate Safe(s: System) {
    if s.fault == Fine then Inv(s) else s.fault == GeneratorPanicked
  }

  lemma InvIsWellformed(s: System)
    requires Inv(s)
    ensures Wellformed(s)
  {
    hide AliasesOK, GeneratorsOK, PlacedOnce, Distinct;
    forall id | id in s.testingJobs
      ensures s.testingJobs[id] in s.queue.jobs
    {
      assert Current(s.queue, id);
    }
    forall p | p in s.inflight
      ensures p.0 in s.machines && p.1 in s.queue.jobs
    {
      assert Unanswered(s.queue.jobs, s.machines, p.0, p.1);
    }
  }

  // ---------- steps of the queue ----------

  lemma SubmitKeepsInv(s: System, g: nat, kind: Generators.Generator, submitId: nat)
    requires Inv(s) && g !in s.queue.generators && Generators.IsFresh(kind, submitId)
    ensures Inv(s.(queue := Submit(s.queue, g, kind), submitted := s.submitted[g := submitId]))
  {
    hide Valid, Counted;
    FreshHasNoJobs(kind, submitId);
    SubmitKeepsValid(s.queue, s.used, g, kind);
    hide Generators.IsFresh;
    SamePlaces(s.queue, Submit(s.queue, g, kind), s.nextJob, s.invokerByJobID, s.accepted, s.dropped);
  }

  lemma FreshHasNoJobs(kind: Generators.Generator, submitId: nat)
    requires Generators.IsFresh(kind, submitId)
    ensures Generators.Healthy(kind) && Generators.Given(kind) == map[]
  {
    OpenRuns.FreshIsOrderly(kind, submitId);
  }

  lemma SamePlaces(
      q: Queue, r: Queue, next: Option<Id>, byJob: map<Id, nat>, accepted: map<Id, JobResult>, dropped: set<Id>)
    requires PlacesOK(q, next, byJob, accepted, dropped)
    requires r.jobs == q.jobs && r.originalJobIDToJob == q.originalJobIDToJob
    requires r.jobIDToOriginalJobID == q.jobIDToOriginalJobID && r.newFailedJobs == q.newFailedJobs
    ensures PlacesOK(r, next, byJob, accepted, dropped)
  {
    forall id | id in byJob || id in accepted
      ensures Current(r, id)
    {
      assert Current(q, id);
    }
    forall j | IsLive(r, j)
      ensures PlacedOnce(r, next, byJob, accepted, dropped, j)
    {
      assert PlacedOnce(q, next, byJob, accepted, dropped, j);
    }
  }
}
