/** Every step of the dispatch protocol keeps the invariant. */
module DispatchSteps {
  import opened Models
  import opened Lists
  import opened MasterQueue
  import opened QueueLaws
  import opened InvokerMachine
  import opened Dispatch
  import opened DispatchInvariant
  import Generators

  lemma PlacedIdsAreUsed(s: System, id: Id)
    requires Inv(s) && (id in s.invokerByJobID || id in s.accepted)
    ensures id in s.used && Current(s.queue, id)
  {
    assert Current(s.queue, id);
    assert NamedOK(s.queue, s.used, Original(s.queue, id));
  }

  lemma JobsAreUsed(q: Queue, used: set<Id>, j: Id)
    requires AliasesOK(q, used) && j in q.jobs
    ensures j in used && q.jobs[j].id in used
  {
    assert NamedOK(q, used, j);
  }

  // ---------- fetching ----------

  lemma FetchKeepsInv(s: System, newID: Id)
    requires Inv(s) && Wellformed(s) && s.nextJob.None? && newID !in s.used
    ensures Inv(Fetch(s, newID)) && Fetch(s, newID).fault == s.fault
  {
    hide MachinesOK, NextJob, Wired, AliasesOK, GeneratorsOK, Current, Distinct, PlacedOnce;
    NextJobKeepsValid(s.queue, s.used, newID);
    hide Valid;
    if s.queue.newFailedJobs != [] {
      var r := s.queue.(newFailedJobs := s.queue.newFailedJobs[1..]);
      FailedJobMovesToNext(s.queue, s.invokerByJobID, s.accepted, s.dropped);
      SameNamesKeepPending(s.queue, r, s.invokerByJobID, s.extracted, s.dropped);
      hide PendingOK, PlacesOK;
    } else {
      FreshIdIsNoJob(s, newID);
      var (r, job) := NextJob(s.queue, newID);
      IssuedJobIsNext(s.queue, r, s.invokerByJobID, s.accepted, s.dropped, newID, job);
      IssueKeepsRest(s, r, newID, job);
    }
  }

  lemma FreshIdIsNoJob(s: System, newID: Id)
    requires Inv(s) && newID !in s.used
    ensures newID !in s.queue.jobs && newID !in s.invokerByJobID && newID !in s.accepted
  {
    hide MachinesOK, PendingOK, InflightOK, GeneratorsOK, Wired;
    if newID in s.queue.jobs {
      JobsAreUsed(s.queue, s.used, newID);
    }
    if newID in s.invokerByJobID || newID in s.accepted {
      PlacedIdsAreUsed(s, newID);
    }
  }

  lemma FailedJobMovesToNext(q: Queue, byJob: map<Id, nat>, accepted: map<Id, JobResult>, dropped: set<Id>)
    requires PlacesOK(q, None, byJob, accepted, dropped) && q.newFailedJobs != []
    ensures PlacesOK(q.(newFailedJobs := q.newFailedJobs[1..]), Some(q.newFailedJobs[0]), byJob, accepted, dropped)
  {
    var r := q.(newFailedJobs := q.newFailedJobs[1..]);
    TailIsDistinct(q.newFailedJobs);
    assert q.newFailedJobs[0] in q.newFailedJobs;
    assert forall j :: j in r.newFailedJobs <==> j in Elements(r.newFailedJobs);
    assert forall j :: j in q.newFailedJobs <==> j in Elements(q.newFailedJobs);
    forall id | id in byJob || id in accepted
      ensures Current(r, id)
    {
      assert Current(q, id);
    }
    forall j | IsLive(r, j)
      ensures PlacedOnce(r, Some(q.newFailedJobs[0]), byJob, accepted, dropped, j)
    {
      assert PlacedOnce(q, None, byJob, accepted, dropped, j);
    }
  }

  lemma IssuedJobIsNext(
      q: Queue, r: Queue, byJob: map<Id, nat>, accepted: map<Id, JobResult>, dropped: set<Id>, newID: Id,
      job: Option<Id>)
    requires PlacesOK(q, None, byJob, accepted, dropped) && IssuesAtMost(q, r, newID, job)
    requires newID !in q.jobs && newID !in byJob && newID !in accepted
    ensures PlacesOK(r, job, byJob, accepted, dropped)
  {
    forall id | id in byJob || id in accepted
      ensures Current(r, id)
    {
      assert Current(q, id);
    }
    forall j | IsLive(r, j)
      ensures PlacedOnce(r, job, byJob, accepted, dropped, j)
    {
      if IsLive(q, j) {
        assert PlacedOnce(q, None, byJob, accepted, dropped, j);
      }
    }
  }

  lemma IssueKeepsRest(s: System, r: Queue, newID: Id, job: Option<Id>)
    requires TestingOK(s.queue, s.invokerByJobID, s.testingJobs)
    requires InflightOK(s.queue.jobs, s.machines, s.inflight) && DeliveredOK(s.queue, s.delivered)
    requires PendingOK(s.queue, s.invokerByJobID, s.extracted, s.dropped)
    requires IssuesAtMost(s.queue, r, newID, job) && newID !in s.queue.jobs
    ensures TestingOK(r, s.invokerByJobID, s.testingJobs)
    ensures InflightOK(r.jobs, s.machines, s.inflight) && DeliveredOK(r, s.delivered)
    ensures PendingOK(r, s.invokerByJobID, s.extracted, s.dropped)
  {
    forall i, j | (i, j) in s.inflight
      ensures Unanswered(r.jobs, s.machines, i, j)
    {
      assert Unanswered(s.queue.jobs, s.machines, i, j);
    }
  }

  lemma SameNamesKeepPending(q: Queue, r: Queue, byJob: map<Id, nat>, extracted: map<nat, set<Id>>, dropped: set<Id>)
    requires PendingOK(q, byJob, extracted, dropped)
    requires r.jobs == q.jobs && r.originalJobIDToJob == q.originalJobIDToJob
    requires r.jobIDToOriginalJobID == q.jobIDToOriginalJobID
    ensures PendingOK(r, byJob, extracted, dropped)
  {
  }

  // ---------- sending ----------

  lemma SendKeepsInv(s: System, i: nat)
    requires Inv(s) && Wellformed(s) && s.nextJob.Some? && i in s.invokers
    ensures Inv(Send(s, i)) && Send(s, i).fault == s.fault
  {
    hide AliasesOK, GeneratorsOK, Wired, Wellformed, Generators.Healthy;
    var j := s.nextJob.value;
    var id := s.queue.jobs[j].id;
    LiveJobsAreCurrent(s.queue, s.used, j);
    assert PlacedOnce(s.queue, s.nextJob, s.invokerByJobID, s.accepted, s.dropped, j);
    assert MachineOK(s.machines, s.invokers, s.invokerByJobID, s.extracted, i);
    SendRespectsTheLimit(s.machines[i], id, j);
    if TrySendJob(s.machines[i], id, j).1 {
      NextMovesToInvoker(s, i);
      SendKeepsMachines(s, i);
      SendKeepsInflight(s, i);
      SendKeepsPending(s, i);
      assert TestingOK(s.queue, s.invokerByJobID[id := i], s.testingJobs[id := j]);
      hide Valid, MachinesOK, PlacesOK, InflightOK, Wellformed, DeliveredOK, TestingOK, Counted, MachineOK, PendingOK;
    }
  }

  lemma NextMovesToInvoker(s: System, i: nat)
    requires AliasesOK(s.queue, s.used) && s.nextJob.Some?
    requires PlacesOK(s.queue, s.nextJob, s.invokerByJobID, s.accepted, s.dropped)
    ensures PlacesOK(s.queue, None, s.invokerByJobID[s.queue.jobs[s.nextJob.value].id := i], s.accepted, s.dropped)
  {
    var j := s.nextJob.value;
    var id := s.queue.jobs[j].id;
    LiveJobsAreCurrent(s.queue, s.used, j);
    forall k | IsLive(s.queue, k)
      ensures PlacedOnce(s.queue, None, s.invokerByJobID[id := i], s.accepted, s.dropped, k)
    {
      assert PlacedOnce(s.queue, s.nextJob, s.invokerByJobID, s.accepted, s.dropped, k);
    }
  }

  lemma SendKeepsMachines(s: System, i: nat)
    requires MachinesOK(s.machines, s.invokers, s.invokerByJobID, s.testingJobs, s.extracted) && i in s.invokers
    requires s.nextJob.Some? && s.nextJob.value in s.queue.jobs
    requires s.queue.jobs[s.nextJob.value].id !in s.invokerByJobID
    requires !s.machines[i].failed
    ensures var j := s.nextJob.value;
            var id := s.queue.jobs[j].id;
            MachinesOK(s.machines[i := AddJob(s.machines[i], id, j)], s.invokers,
                       s.invokerByJobID[id := i], s.testingJobs[id := j], s.extracted)
  {
    var j := s.nextJob.value;
    var id := s.queue.jobs[j].id;
    assert MachineOK(s.machines, s.invokers, s.invokerByJobID, s.extracted, i);
    AddJobIsCounted(s.machines[i], id, j);
    var machines := s.machines[i := AddJob(s.machines[i], id, j)];
    hide Counted, Distinct;
    forall k | k in machines
      ensures MachineOK(machines, s.invokers, s.invokerByJobID[id := i], s.extracted, k)
    {
      assert MachineOK(s.machines, s.invokers, s.invokerByJobID, s.extracted, k);
    }
    var byJob := s.invokerByJobID[id := i];
    forall a | a in byJob
      ensures HeldBy(machines, byJob, s.testingJobs[id := j], a) || InExtracted(s.extracted, byJob[a], a)
    {
      assert a != id ==>
          HeldBy(s.machines, s.invokerByJobID, s.testingJobs, a) || InExtracted(s.extracted, byJob[a], a);
    }
  }

  lemma SendKeepsPending(s: System, i: nat)
    requires AliasesOK(s.queue, s.used)
    requires PendingOK(s.queue, s.invokerByJobID, s.extracted, s.dropped) && s.nextJob.Some?
    requires PlacesOK(s.queue, s.nextJob, s.invokerByJobID, s.accepted, s.dropped)
    ensures PendingOK(s.queue, s.invokerByJobID[s.queue.jobs[s.nextJob.value].id := i], s.extracted, s.dropped)
  {
    LiveJobsAreCurrent(s.queue, s.used, s.nextJob.value);
    assert PlacedOnce(s.queue, s.nextJob, s.invokerByJobID, s.accepted, s.dropped, s.nextJob.value);
  }

  lemma SendKeepsInflight(s: System, i: nat)
    requires AliasesOK(s.queue, s.used) && InflightOK(s.queue.jobs, s.machines, s.inflight) && i in s.machines
    requires s.nextJob.Some? && s.nextJob.value in s.queue.jobs
    ensures var j := s.nextJob.value;
            var id := s.queue.jobs[j].id;
            InflightOK(s.queue.jobs, s.machines[i := AddJob(s.machines[i], id, j)], s.inflight + {(i, j)})
  {
    var j := s.nextJob.value;
    var id := s.queue.jobs[j].id;
    var machines := s.machines[i := AddJob(s.machines[i], id, j)];
    forall l, k | (l, k) in s.inflight + {(i, j)}
      ensures Unanswered(s.queue.jobs, machines, l, k)
    {
      assert (l, k) != (i, j) ==> Unanswered(s.queue.jobs, s.machines, l, k);
    }
  }

  // ---------- receiving ----------

  /** The registry knows whose the job is, but its invoker does not have it any more. */
  predicate BadReceive(s: System, id: Id) {
    id in s.invokerByJobID && (s.invokerByJobID[id] in s.machines ==> id !in s.machines[s.invokerByJobID[id]].holders)
  }

  /** The panic on a testing job without an invoker is unreachable, and a result the registry takes in is accepted or
      discarded according to whether the invoker still has the job. */
  lemma ReceiveKeepsInv(s: System, id: Id, result: JobResult)
    requires Inv(s) && Wellformed(s)
    ensures Inv(Receive(s, id, result)) && Receive(s, id, result).fault == s.fault
    ensures var r := Receive(s, id, result);
            if BadReceive(s, id) then r.accepted == s.accepted && r.dropped == s.dropped + {Original(s.queue, id)}
            else
              && r.accepted == (if id in s.invokerByJobID then s.accepted[id := result] else s.accepted)
              && r.dropped == s.dropped
  {
    hide AliasesOK, GeneratorsOK, Generators.Healthy, Distinct;
    if id in s.invokerByJobID {
      var i := s.invokerByJobID[id];
      assert MachineOK(s.machines, s.invokers, s.invokerByJobID, s.extracted, i);
      assert Dependents(s, id) <= s.invokerByJobID.Keys;
      ReceiveKeepsMachines(s, id);
      ReceiveKeepsPending(s, id);
      if id in s.machines[i].holders {
        RemoveJobIsCounted(s.machines[i], id);
        InvokerMovesToAccepted(s, id, result);
        RemovalKeepsInflight(s.queue.jobs, s.machines, s.inflight, i, id);
      } else {
        assert s.machines[i := s.machines[i]] == s.machines;
        InvokerMovesToDropped(s, id);
      }
      hide Valid, MachinesOK, PlacesOK, InflightOK, Wellformed, Distinct, Dependents, PendingOK;
    }
  }

  lemma InvokerMovesToAccepted(s: System, id: Id, result: JobResult)
    requires PlacesOK(s.queue, s.nextJob, s.invokerByJobID, s.accepted, s.dropped) && id in s.invokerByJobID
    ensures PlacesOK(s.queue, s.nextJob, s.invokerByJobID - {id}, s.accepted[id := result], s.dropped)
  {
    var j := Original(s.queue, id);
    assert Current(s.queue, id);
    assert PlacedOnce(s.queue, s.nextJob, s.invokerByJobID, s.accepted, s.dropped, j);
    forall k | IsLive(s.queue, k)
      ensures PlacedOnce(s.queue, s.nextJob, s.invokerByJobID - {id}, s.accepted[id := result], s.dropped, k)
    {
      assert PlacedOnce(s.queue, s.nextJob, s.invokerByJobID, s.accepted, s.dropped, k);
    }
  }

  lemma InvokerMovesToDropped(s: System, id: Id)
    requires AliasesOK(s.queue, s.used) && id in s.invokerByJobID
    requires PlacesOK(s.queue, s.nextJob, s.invokerByJobID, s.accepted, s.dropped)
    ensures PlacesOK(s.queue, s.nextJob, s.invokerByJobID - {id}, s.accepted, s.dropped + {Original(s.queue, id)})
  {
    var j := Original(s.queue, id);
    assert Current(s.queue, id);
    forall k | IsLive(s.queue, k)
      ensures PlacedOnce(s.queue, s.nextJob, s.invokerByJobID - {id}, s.accepted, s.dropped + {j}, k)
    {
      assert PlacedOnce(s.queue, s.nextJob, s.invokerByJobID, s.accepted, s.dropped, k);
      LiveJobsAreCurrent(s.queue, s.used, k);
    }
  }

  /** The job leaves the registry and, if it was still there, its invoker. */
  lemma ReceiveKeepsMachines(s: System, id: Id)
    requires MachinesOK(s.machines, s.invokers, s.invokerByJobID, s.testingJobs, s.extracted) && id in s.invokerByJobID
    ensures var i := s.invokerByJobID[id];
            && i in s.machines
            && MachinesOK(s.machines[i := JobTested(s.machines[i], id).0], s.invokers,
                          s.invokerByJobID - {id}, s.testingJobs - {id}, s.extracted)
  {
    var i := s.invokerByJobID[id];
    assert MachineOK(s.machines, s.invokers, s.invokerByJobID, s.extracted, i);
    if id in s.machines[i].holders {
      RemoveJobIsCounted(s.machines[i], id);
    }
    var machines := s.machines[i := JobTested(s.machines[i], id).0];
    var byJob, testing := s.invokerByJobID - {id}, s.testingJobs - {id};
    hide Counted, Distinct;
    forall k | k in machines
      ensures MachineOK(machines, s.invokers, byJob, s.extracted, k)
    {
      assert MachineOK(s.machines, s.invokers, s.invokerByJobID, s.extracted, k);
    }
    forall a | a in byJob
      ensures HeldBy(machines, byJob, testing, a) || InExtracted(s.extracted, byJob[a], a)
    {
      assert HeldBy(s.machines, s.invokerByJobID, s.testingJobs, a) || InExtracted(s.extracted, byJob[a], a);
    }
  }

  /** An accepted result never belongs to a job waiting to be rescheduled. */
  lemma ReceiveKeepsPending(s: System, id: Id)
    requires MachinesOK(s.machines, s.invokers, s.invokerByJobID, s.testingJobs, s.extracted) && id in s.invokerByJobID
    requires PendingOK(s.queue, s.invokerByJobID, s.extracted, s.dropped)
    ensures PendingOK(s.queue, s.invokerByJobID - {id}, s.extracted, s.dropped + {Original(s.queue, id)})
    ensures !BadReceive(s, id) ==> PendingOK(s.queue, s.invokerByJobID - {id}, s.extracted, s.dropped)
  {
    hide Counted, Distinct;
    assert MachineOK(s.machines, s.invokers, s.invokerByJobID, s.extracted, s.invokerByJobID[id]);
  }

  lemma RemovalKeepsInflight(jobs: map<Id, Job>, machines: map<nat, Invoker>, inflight: set<(nat, Id)>, i: nat, id: Id)
    requires InflightOK(jobs, machines, inflight) && i in machines && id in machines[i].holders
    ensures InflightOK(jobs, machines[i := RemoveJob(machines[i], id)], inflight)
  {
    forall l, k | (l, k) in inflight
      ensures Unanswered(jobs, machines[i := RemoveJob(machines[i], id)], l, k)
    {
      assert Unanswered(jobs, machines, l, k);
    }
  }

  // ---------- applying ----------

  /** The alias panic of the queue is unreachable, and the result never belongs to an unknown job. */
  lemma ApplyKeepsSafe(s: System, id: Id)
    requires Inv(s) && Wellformed(s) && s.fault == Fine && id in s.accepted
    ensures Safe(Apply(s, id))
    ensures JobCompleted(s.queue, id, s.accepted[id]).1.Passed?
  {
    hide AliasesOK, GeneratorsOK, Generators.Healthy, Generators.JobCompleted, Generators.Given, MachinesOK, Distinct;
    var (q, completion) := JobCompleted(s.queue, id, s.accepted[id]);
    assert Current(s.queue, id);
    JobCompletedKeepsValid(s.queue, s.used, id, s.accepted[id]);
    if !completion.outcome.Panicked? {
      AcceptedIsDone(s, q, id, completion);
      AcceptedIdIsNotHeld(s, id);
      ApplyKeepsRest(s, q, id);
      ApplyKeepsPending(s, q, id);
    }
    assert completion.outcome.Panicked? ==> Apply(s, id).fault == GeneratorPanicked;
    hide *;
    if !completion.outcome.Panicked? {
      AppliedParts(s, id);
    }
  }

  lemma AppliedParts(s: System, id: Id)
    requires Wellformed(s) && id in s.accepted && Apply(s, id).fault == Fine
    requires var (q, completion) := JobCompleted(s.queue, id, s.accepted[id]);
             && completion.Passed? && !completion.outcome.Panicked? && Valid(q, s.used)
             && PlacesOK(q, s.nextJob, s.invokerByJobID, s.accepted - {id}, s.dropped)
             && TestingOK(q, s.invokerByJobID, s.testingJobs)
             && MachinesOK(s.machines, s.invokers, s.invokerByJobID, s.testingJobs, s.extracted)
             && PendingOK(q, s.invokerByJobID, s.extracted, s.dropped)
             && InflightOK(q.jobs, s.machines, s.inflight)
             && DeliveredOK(q, s.delivered + [Original(s.queue, id)])
    ensures Inv(Apply(s, id))
  {
    hide Valid, MachinesOK, PlacesOK, PendingOK, InflightOK, Wellformed, DeliveredOK, TestingOK, JobCompleted;
  }

  lemma AcceptedIsDone(s: System, q: Queue, id: Id, completion: Completion)
    requires AliasesOK(s.queue, s.used) && id in s.accepted
    requires Current(s.queue, id) && Completes(s.queue, q, id, completion)
    requires PlacesOK(s.queue, s.nextJob, s.invokerByJobID, s.accepted, s.dropped)
    ensures PlacesOK(q, s.nextJob, s.invokerByJobID, s.accepted - {id}, s.dropped)
  {
    var j := Original(s.queue, id);
    assert PlacedOnce(s.queue, s.nextJob, s.invokerByJobID, s.accepted, s.dropped, j);
    forall a | a in s.invokerByJobID || a in s.accepted - {id}
      ensures Current(q, a)
    {
      assert Current(s.queue, a);
      if Original(s.queue, a) == j {
        AliasingIsInjective(s.queue, s.used, a, id);
      }
    }
    forall k | IsLive(q, k)
      ensures PlacedOnce(q, s.nextJob, s.invokerByJobID, s.accepted - {id}, s.dropped, k)
    {
      assert PlacedOnce(s.queue, s.nextJob, s.invokerByJobID, s.accepted, s.dropped, k);
    }
  }

  lemma ApplyKeepsPending(s: System, q: Queue, id: Id)
    requires PlacesOK(s.queue, s.nextJob, s.invokerByJobID, s.accepted, s.dropped) && id in s.accepted
    requires PendingOK(s.queue, s.invokerByJobID, s.extracted, s.dropped) && AliasesOK(s.queue, s.used)
    requires q.jobs == s.queue.jobs && q.jobIDToOriginalJobID == s.queue.jobIDToOriginalJobID - {id}
    requires q.originalJobIDToJob == s.queue.originalJobIDToJob - {Original(s.queue, id)}
    ensures PendingOK(q, s.invokerByJobID, s.extracted, s.dropped)
  {
    assert Current(s.queue, id);
    assert PlacedOnce(s.queue, s.nextJob, s.invokerByJobID, s.accepted, s.dropped, Original(s.queue, id));
    forall i, a | InExtracted(s.extracted, i, a)
      ensures Current(q, a) && if a in s.invokerByJobID then s.invokerByJobID[a] == i else Original(q, a) in s.dropped
    {
      if Original(s.queue, a) == Original(s.queue, id) {
        AliasingIsInjective(s.queue, s.used, a, id);
      }
    }
  }

  lemma ApplyKeepsRest(s: System, q: Queue, id: Id)
    requires TestingOK(s.queue, s.invokerByJobID, s.testingJobs) && DeliveredOK(s.queue, s.delivered)
    requires id !in s.invokerByJobID && Current(s.queue, id)
    requires q.jobs == s.queue.jobs && q.jobIDToOriginalJobID == s.queue.jobIDToOriginalJobID - {id}
    requires q.originalJobIDToJob == s.queue.originalJobIDToJob - {Original(s.queue, id)}
    ensures TestingOK(q, s.invokerByJobID, s.testingJobs)
    ensures DeliveredOK(q, s.delivered + [Original(s.queue, id)])
  {
    AppendIsDistinct(s.delivered, Original(s.queue, id));
    hide Distinct;
  }

  lemma AcceptedIdIsNotHeld(s: System, id: Id)
    requires PlacesOK(s.queue, s.nextJob, s.invokerByJobID, s.accepted, s.dropped) && id in s.accepted
    ensures id !in s.invokerByJobID
  {
    assert Current(s.queue, id);
    assert PlacedOnce(s.queue, s.nextJob, s.invokerByJobID, s.accepted, s.dropped, Original(s.queue, id));
  }

  // ---------- what happens to one invoker ----------

  /** A step that changes what is known about one invoker, but not which jobs it has. */
  lemma MachineStepKeepsMachines(s: System, i: nat, m: Invoker)
    requires MachinesOK(s.machines, s.invokers, s.invokerByJobID, s.testingJobs, s.extracted) && i in s.machines
    requires SameJobs(s.machines[i], m) && Counted(m) && (s.machines[i].failed ==> m.failed)
    ensures MachinesOK(s.machines[i := m], s.invokers, s.invokerByJobID, s.testingJobs, s.extracted)
  {
    hide Counted, Distinct;
    var machines := s.machines[i := m];
    assert MachineOK(s.machines, s.invokers, s.invokerByJobID, s.extracted, i);
    assert m.holders.Keys == {} ==> m.holders == map[];
    forall k | k in machines
      ensures MachineOK(machines, s.invokers, s.invokerByJobID, s.extracted, k)
    {
      assert MachineOK(s.machines, s.invokers, s.invokerByJobID, s.extracted, k);
    }
    forall a | a in s.invokerByJobID
      ensures HeldBy(machines, s.invokerByJobID, s.testingJobs, a) || InExtracted(s.extracted, s.invokerByJobID[a], a)
    {
      assert HeldBy(s.machines, s.invokerByJobID, s.testingJobs, a) || InExtracted(s.extracted, s.invokerByJobID[a], a);
    }
  }

  lemma SameSendingKeepsInflight(s: System, i: nat, m: Invoker)
    requires InflightOK(s.queue.jobs, s.machines, s.inflight) && i in s.machines
    requires SameJobs(s.machines[i], m)
    requires OfType(m.holders, SendingJob) == OfType(s.machines[i].holders, SendingJob)
    ensures InflightOK(s.queue.jobs, s.machines[i := m], s.inflight)
  {
    forall l, k | (l, k) in s.inflight
      ensures Unanswered(s.queue.jobs, s.machines[i := m], l, k)
    {
      assert Unanswered(s.queue.jobs, s.machines, l, k);
      if l == i && s.queue.jobs[k].id in m.holders {
        assert s.queue.jobs[k].id in OfType(s.machines[i].holders, SendingJob);
        assert s.queue.jobs[k].id in OfType(m.holders, SendingJob);
      }
    }
  }

  lemma MachineStepKeepsInv(s: System, i: nat, m: Invoker)
    requires Inv(s) && i in s.machines
    requires SameJobs(s.machines[i], m) && Counted(m) && (s.machines[i].failed ==> m.failed)
    requires OfType(m.holders, SendingJob) == OfType(s.machines[i].holders, SendingJob)
    ensures Inv(s.(machines := s.machines[i := m]))
  {
    hide Valid, PlacesOK, PendingOK, MachinesOK, InflightOK, DeliveredOK, TestingOK, Counted;
    MachineStepKeepsMachines(s, i, m);
    SameSendingKeepsInflight(s, i, m);
  }

  lemma FailKeepsInv(s: System, i: nat)
    requires Inv(s) && i in s.machines
    ensures Inv(s.(machines := s.machines[i := MarkFailed(s.machines[i])]))
  {
    assert MachineOK(s.machines, s.invokers, s.invokerByJobID, s.extracted, i);
    SameCounts(s.machines[i], MarkFailed(s.machines[i]));
    hide Inv, Counted;
    MachineStepKeepsInv(s, i, MarkFailed(s.machines[i]));
  }

  lemma TimeoutKeepsInv(s: System, i: nat, id: Id)
    requires Inv(s) && i in s.machines
    ensures Inv(s.(machines := s.machines[i := EnsureJobIsNotLost(s.machines[i], id)]))
  {
    FailKeepsInv(s, i);
    assert s.machines[i := s.machines[i]] == s.machines;
  }

  lemma UpdateKeepsInv(s: System, i: nat, status: Status, order: seq<Id>)
    requires Inv(s) && i in s.machines
    ensures Inv(s.(machines := s.machines[i := UpdateStatus(s.machines[i], status, order)]))
  {
    assert MachineOK(s.machines, s.invokers, s.invokerByJobID, s.extracted, i);
    UpdateKeeps(s.machines[i], status, order);
    hide Inv, Counted, UpdateStatus;
    MachineStepKeepsInv(s, i, UpdateStatus(s.machines[i], status, order));
  }

  // ---------- the reply to a send ----------

  /** The panic on a job that is unexpectedly past sending is unreachable. */
  lemma SentKeepsInv(s: System, i: nat, j: Id, reply: Reply)
    requires Inv(s) && Wellformed(s) && (i, j) in s.inflight
    ensures Inv(Sent(s, i, j, reply)) && Sent(s, i, j, reply).fault == s.fault
  {
    hide Valid, PlacesOK, PendingOK, MachinesOK, DeliveredOK, TestingOK, Counted, Wired, UpdateStatus;
    assert Unanswered(s.queue.jobs, s.machines, i, j);
    AnsweringKeepsInv(s, i, j);
    match reply
    case Failure => FailKeepsInv(s.(inflight := s.inflight - {(i, j)}), i);
    case Success(status, order) =>
      var answered := ReplyNoted(s, i, j);
      UpdateKeepsInv(answered, i, status, order);
      var m := UpdateStatus(answered.machines[i], status, order);
      assert answered.machines[i := m] == s.machines[i := m];
  }

  /** The reply has come: a job still held is known to be testing. */
  function ReplyNoted(s: System, i: nat, j: Id): System
    requires i in s.machines && j in s.queue.jobs
  {
    var id := s.queue.jobs[j].id;
    var rest := s.(inflight := s.inflight - {(i, j)});
    if id in s.machines[i].holders then rest.(machines := s.machines[i := SetJobType(s.machines[i], id, TestingJob)])
    else rest
  }

  lemma AnsweringKeepsInv(s: System, i: nat, j: Id)
    requires Inv(s) && i in s.machines && j in s.queue.jobs && (i, j) in s.inflight
    ensures Inv(s.(inflight := s.inflight - {(i, j)}))
    ensures Inv(ReplyNoted(s, i, j))
  {
    var id := s.queue.jobs[j].id;
    FewerInflight(s, i, j);
    if id in s.machines[i].holders {
      assert MachineOK(s.machines, s.invokers, s.invokerByJobID, s.extracted, i);
      SetJobTypeIsCounted(s.machines[i], id, TestingJob);
      MachineStepKeepsMachines(s, i, SetJobType(s.machines[i], id, TestingJob));
      TestingKeepsInflight(s, i, j);
    }
    hide Valid, PlacesOK, PendingOK, MachinesOK, DeliveredOK, TestingOK, Counted, InflightOK;
  }

  lemma FewerInflight(s: System, i: nat, j: Id)
    requires InflightOK(s.queue.jobs, s.machines, s.inflight)
    ensures InflightOK(s.queue.jobs, s.machines, s.inflight - {(i, j)})
  {
  }

  /** No other send in flight concerns the same ID. */
  lemma TestingKeepsInflight(s: System, i: nat, j: Id)
    requires AliasesOK(s.queue, s.used) && InflightOK(s.queue.jobs, s.machines, s.inflight)
    requires i in s.machines && j in s.queue.jobs && s.queue.jobs[j].id in s.machines[i].holders
    ensures var m := SetJobType(s.machines[i], s.queue.jobs[j].id, TestingJob);
            InflightOK(s.queue.jobs, s.machines[i := m], s.inflight - {(i, j)})
  {
    var m := SetJobType(s.machines[i], s.queue.jobs[j].id, TestingJob);
    forall l, k | (l, k) in s.inflight - {(i, j)}
      ensures Unanswered(s.queue.jobs, s.machines[i := m], l, k)
    {
      assert Unanswered(s.queue.jobs, s.machines, l, k);
    }
  }

  // ---------- registering ----------

  lemma {:induction false} OfferKeepsInv(s: System, status: Status, orders: map<nat, seq<Id>>, k: nat)
    requires Inv(s) && Wellformed(s) && k <= |s.invokers| && (forall i :: i in s.invokers ==> i in orders)
    ensures var r := Offer(s, status, orders, k).0;
            && Inv(r) && r == s.(machines := r.machines) && r.machines.Keys == s.machines.Keys
    decreases |s.invokers| - k
  {
    hide Inv, Wired, UpdateStatus;
    if k < |s.invokers| {
      var i := s.invokers[k];
      UpdateKeepsInv(s, i, status, orders[i]);
      var (m, taken) := VerifyAndUpdateStatus(s.machines[i], status, orders[i]);
      assert s.machines[i := s.machines[i]] == s.machines;
      if !taken {
        OfferKeepsInv(s.(machines := s.machines[i := m]), status, orders, k + 1);
      }
    }
  }

  lemma UpsertKeepsInv(s: System, status: Status, orders: map<nat, seq<Id>>, i: nat)
    requires Inv(s) && Wellformed(s) && (forall i :: i in s.invokers ==> i in orders) && i !in s.machines
    ensures Inv(Upsert(s, status, orders, i)) && Upsert(s, status, orders, i).fault == s.fault
  {
    OfferKeepsInv(s, status, orders, 0);
    var (r, taken) := Offer(s, status, orders, 0);
    if !taken {
      hide Valid, PlacesOK, PendingOK, DeliveredOK, TestingOK, Wellformed, Offer;
      NewInvokerIsOK(r, status, i);
      hide MachinesOK, InflightOK;
    }
  }

  lemma NewInvokerIsOK(s: System, status: Status, i: nat)
    requires MachinesOK(s.machines, s.invokers, s.invokerByJobID, s.testingJobs, s.extracted) && i !in s.machines
    requires InflightOK(s.queue.jobs, s.machines, s.inflight)
    ensures MachinesOK(s.machines[i := NewInvoker(status)], s.invokers + [i], s.invokerByJobID, s.testingJobs,
                       s.extracted)
    ensures InflightOK(s.queue.jobs, s.machines[i := NewInvoker(status)], s.inflight)
  {
    var machines := s.machines[i := NewInvoker(status)];
    AppendIsDistinct(s.invokers, i);
    forall t
      ensures TypeCounted(NewInvoker(status), t)
    {
    }
    hide Distinct;
    forall k | k in machines
      ensures MachineOK(machines, s.invokers + [i], s.invokerByJobID, s.extracted, k)
    {
      assert k != i ==> MachineOK(s.machines, s.invokers, s.invokerByJobID, s.extracted, k);
    }
    forall a | a in s.invokerByJobID
      ensures HeldBy(machines, s.invokerByJobID, s.testingJobs, a) || InExtracted(s.extracted, s.invokerByJobID[a], a)
    {
      assert HeldBy(s.machines, s.invokerByJobID, s.testingJobs, a) || InExtracted(s.extracted, s.invokerByJobID[a], a);
    }
    forall l, k | (l, k) in s.inflight
      ensures Unanswered(s.queue.jobs, machines, l, k)
    {
      assert Unanswered(s.queue.jobs, s.machines, l, k);
    }
  }

  // ---------- losing an invoker ----------

  lemma ExtractKeepsInv(s: System, i: nat)
    requires Inv(s) && Wellformed(s) && i in s.invokers && s.machines[i].failed && i !in s.extracted
    ensures var r := Extract(s, i);
            && Inv(r) && r.fault == s.fault && r.dropped == s.dropped
            && r.machines == s.machines[i := ExtractJobs(s.machines[i])] && r.invokers == s.invokers
  {
    hide Valid, PlacesOK, DeliveredOK, TestingOK, Distinct;
    ExtractKeepsPending(s, i);
    var r := Extract(s, i);
    forall t
      ensures TypeCounted(r.machines[i], t)
    {
    }
    hide Counted, PendingOK;
    assert MachineOK(s.machines, s.invokers, s.invokerByJobID, s.extracted, i);
    forall k | k in r.machines
      ensures MachineOK(r.machines, s.invokers, s.invokerByJobID, r.extracted, k)
    {
      assert MachineOK(s.machines, s.invokers, s.invokerByJobID, s.extracted, k);
    }
    forall a | a in s.invokerByJobID
      ensures HeldBy(r.machines, s.invokerByJobID, s.testingJobs, a) || InExtracted(r.extracted, s.invokerByJobID[a], a)
    {
      assert HeldBy(s.machines, s.invokerByJobID, s.testingJobs, a) || InExtracted(s.extracted, s.invokerByJobID[a], a);
    }
    forall l, k | (l, k) in s.inflight
      ensures Unanswered(s.queue.jobs, r.machines, l, k)
    {
      assert Unanswered(s.queue.jobs, s.machines, l, k);
    }
  }

  lemma ExtractKeepsPending(s: System, i: nat)
    requires Inv(s) && i in s.machines
    ensures PendingOK(s.queue, s.invokerByJobID, Extract(s, i).extracted, s.dropped)
  {
    hide Valid, DeliveredOK, TestingOK, InflightOK, Counted, Distinct, Current;
    assert MachineOK(s.machines, s.invokers, s.invokerByJobID, s.extracted, i);
    forall k, id | InExtracted(Extract(s, i).extracted, k, id)
      ensures Current(s.queue, id)
      ensures if id in s.invokerByJobID then s.invokerByJobID[id] == k else Original(s.queue, id) in s.dropped
    {
      if k != i {
        assert InExtracted(s.extracted, k, id);
      }
    }
  }

  /** What RescheduleJob does to the names of jobs. */
  predicate Renames(q: Queue, r: Queue, id: Id, newID: Id)
    requires Current(q, id)
  {
    var j := Original(q, id);
    && r.jobs == q.jobs[j := q.jobs[j].(id := newID)]
    && r.jobIDToOriginalJobID == (q.jobIDToOriginalJobID - {id})[newID := j]
    && r.originalJobIDToJob == q.originalJobIDToJob
    && r.newFailedJobs == q.newFailedJobs + [j]
  }

  lemma InvokerMovesToFailed(s: System, q: Queue, id: Id, newID: Id)
    requires Inv(s) && id in s.invokerByJobID && newID !in s.used
    requires Current(s.queue, id) && Renames(s.queue, q, id, newID)
    ensures PlacesOK(q, s.nextJob, s.invokerByJobID - {id}, s.accepted, s.dropped)
    ensures TestingOK(q, s.invokerByJobID - {id}, s.testingJobs - {id})
    ensures DeliveredOK(q, s.delivered)
  {
    hide MachinesOK, GeneratorsOK, InflightOK, Wired, Distinct, AliasesOK, PendingOK;
    var byJob := s.invokerByJobID - {id};
    forall a | a in byJob || a in s.accepted
      ensures Current(q, a) && Original(q, a) == Original(s.queue, a) && a != newID
    {
      assert PlacedOnce(s.queue, s.nextJob, s.invokerByJobID, s.accepted, s.dropped, Original(s.queue, id));
      RenamingKeepsOthers(s, q, id, newID, a);
    }
    PlacedIdsAreUsed(s, id);
    if newID in s.accepted {
      PlacedIdsAreUsed(s, newID);
    }
    forall k | IsLive(s.queue, k) && s.queue.jobs[k].id == id
      ensures k == Original(s.queue, id)
    {
      LiveJobsAreCurrent(s.queue, s.used, k);
    }
    hide DeliveredOK;
    InvokerMovesToFailedOnce(s.queue, q, s.nextJob, s.invokerByJobID, s.accepted, s.dropped, id, newID);
  }

  lemma InvokerMovesToFailedOnce(
      q: Queue, r: Queue, next: Option<Id>, byJob: map<Id, nat>, accepted: map<Id, JobResult>, dropped: set<Id>,
      id: Id, newID: Id)
    requires PlacesOK(q, next, byJob, accepted, dropped) && id in byJob
    requires Current(q, id) && Renames(q, r, id, newID)
    requires newID !in byJob && newID !in accepted
    requires forall k :: IsLive(q, k) && q.jobs[k].id == id ==> k == Original(q, id)
    requires forall a :: a in byJob - {id} || a in accepted ==> Current(r, a)
    ensures PlacesOK(r, next, byJob - {id}, accepted, dropped)
  {
    var j := Original(q, id);
    assert PlacedOnce(q, next, byJob, accepted, dropped, j);
    AppendIsDistinct(q.newFailedJobs, j);
    hide Distinct;
    forall k | IsLive(r, k)
      ensures PlacedOnce(r, next, byJob - {id}, accepted, dropped, k)
    {
      assert PlacedOnce(q, next, byJob, accepted, dropped, k);
    }
  }

  lemma RenamingKeepsOthers(s: System, q: Queue, id: Id, newID: Id, a: Id)
    requires Inv(s) && id in s.invokerByJobID && newID !in s.used && Current(s.queue, id)
    requires a != id && Current(s.queue, a)
    requires Renames(s.queue, q, id, newID)
    ensures Current(q, a) && Original(q, a) == Original(s.queue, a) && a != newID
  {
    hide MachinesOK, GeneratorsOK, InflightOK, Wired, Distinct, DeliveredOK, TestingOK, PendingOK, PlacesOK;
    assert NamedOK(s.queue, s.used, Original(s.queue, a));
    if Original(s.queue, a) == Original(s.queue, id) {
      AliasingIsInjective(s.queue, s.used, a, id);
    }
  }

  /** The registry forgets a job that was waiting to be rescheduled. */
  lemma ForgettingKeepsMachines(s: System, i: nat, id: Id)
    requires Inv(s) && i in s.extracted && (id in s.invokerByJobID ==> s.invokerByJobID[id] == i)
    ensures MachinesOK(s.machines, s.invokers, s.invokerByJobID - {id}, s.testingJobs - {id},
                       s.extracted[i := s.extracted[i] - {id}])
  {
    hide Valid, PlacesOK, PendingOK, DeliveredOK, TestingOK, Counted, Distinct, InflightOK;
    var byJob, testing := s.invokerByJobID - {id}, s.testingJobs - {id};
    var extracted := s.extracted[i := s.extracted[i] - {id}];
    forall k | k in s.machines
      ensures MachineOK(s.machines, s.invokers, byJob, extracted, k)
    {
      assert MachineOK(s.machines, s.invokers, s.invokerByJobID, s.extracted, k);
      assert MachineOK(s.machines, s.invokers, s.invokerByJobID, s.extracted, i);
    }
    forall a | a in byJob
      ensures HeldBy(s.machines, byJob, testing, a) || InExtracted(extracted, byJob[a], a)
    {
      assert HeldBy(s.machines, s.invokerByJobID, s.testingJobs, a) || InExtracted(s.extracted, s.invokerByJobID[a], a);
    }
  }

  lemma RenamingKeepsInflight(s: System, j: Id, newID: Id)
    requires Inv(s) && j in s.queue.jobs && newID !in s.used
    ensures InflightOK(s.queue.jobs[j := s.queue.jobs[j].(id := newID)], s.machines, s.inflight)
  {
    var jobs := s.queue.jobs[j := s.queue.jobs[j].(id := newID)];
    hide Valid, PlacesOK, PendingOK, DeliveredOK, TestingOK, Counted, Distinct;
    forall l, k | (l, k) in s.inflight
      ensures Unanswered(jobs, s.machines, l, k)
    {
      assert Unanswered(s.queue.jobs, s.machines, l, k);
      assert MachineOK(s.machines, s.invokers, s.invokerByJobID, s.extracted, l);
      if newID in s.machines[l].holders {
        PlacedIdsAreUsed(s, newID);
      }
    }
  }

  lemma RenamingKeepsPending(s: System, q: Queue, i: nat, id: Id, newID: Id)
    requires Inv(s) && InExtracted(s.extracted, i, id) && id in s.invokerByJobID && newID !in s.used
    requires Current(s.queue, id) && Renames(s.queue, q, id, newID)
    ensures PendingOK(q, s.invokerByJobID - {id}, s.extracted[i := s.extracted[i] - {id}], s.dropped)
  {
    hide MachinesOK, GeneratorsOK, InflightOK, Wired, Distinct, AliasesOK, PlacesOK, DeliveredOK, TestingOK, Valid;
    var extracted, byJob := s.extracted[i := s.extracted[i] - {id}], s.invokerByJobID - {id};
    forall k, a | InExtracted(extracted, k, a)
      ensures Current(q, a) && if a in byJob then byJob[a] == k else Original(q, a) in s.dropped
    {
      assert InExtracted(s.extracted, k, a);
      RenamingKeepsOthers(s, q, id, newID, a);
    }
  }

  /** A job whose result was discarded needs no rescheduling any more. */
  lemma SkippingKeepsInv(s: System, i: nat, id: Id)
    requires Inv(s) && InExtracted(s.extracted, i, id) && id !in s.invokerByJobID
    ensures Inv(s.(extracted := s.extracted[i := s.extracted[i] - {id}]))
  {
    hide MachinesOK, Valid, PlacesOK, InflightOK, DeliveredOK, TestingOK;
    ForgettingKeepsMachines(s, i, id);
    assert s.invokerByJobID - {id} == s.invokerByJobID && s.testingJobs - {id} == s.testingJobs by {
      TestingIsPlaced(s, id);
    }
    var extracted := s.extracted[i := s.extracted[i] - {id}];
    forall k, a | InExtracted(extracted, k, a)
      ensures InExtracted(s.extracted, k, a)
    {
    }
  }

  lemma TestingIsPlaced(s: System, id: Id)
    requires Inv(s)
    ensures id in s.testingJobs <==> id in s.invokerByJobID
  {
  }

  lemma RescheduleOneKeepsInv(s: System, i: nat, id: Id, newID: Id)
    requires Inv(s) && Wellformed(s) && InExtracted(s.extracted, i, id) && newID !in s.used
    ensures var r := RescheduleOne(s, i, id, newID);
            && Inv(r) && s.used <= r.used <= s.used + {newID} && r.fault == s.fault
            && r.machines == s.machines && r.invokers == s.invokers && r.dropped == s.dropped
            && r.extracted == s.extracted[i := s.extracted[i] - {id}]
  {
    hide MachinesOK, InflightOK, DeliveredOK, Generators.Healthy, AliasesOK, GeneratorsOK, Distinct;
    if id !in s.invokerByJobID {
      SkippingKeepsInv(s, i, id);
    } else {
      assert Current(s.queue, id);
      RescheduleKeepsValid(s.queue, s.used, id, newID);
      ForgettingKeepsMachines(s, i, id);
      RenamingKeepsInflight(s, Original(s.queue, id), newID);
      var q := RescheduleJob(s.queue, id, newID).0;
      hide Valid, PlacesOK, MachinesOK, PendingOK, InflightOK, DeliveredOK, TestingOK, Inv;
      RenamingKeepsPending(s, q, i, id, newID);
      InvokerMovesToFailed(s, q, id, newID);
      RescheduledParts(s, i, id, newID);
    }
  }

  lemma RescheduledParts(s: System, i: nat, id: Id, newID: Id)
    requires Wellformed(s) && i in s.extracted && id in s.invokerByJobID && Current(s.queue, id)
    requires var q := RescheduleJob(s.queue, id, newID).0;
             && Valid(q, s.used + {newID})
             && PlacesOK(q, s.nextJob, s.invokerByJobID - {id}, s.accepted, s.dropped)
             && TestingOK(q, s.invokerByJobID - {id}, s.testingJobs - {id})
             && MachinesOK(s.machines, s.invokers, s.invokerByJobID - {id}, s.testingJobs - {id},
                           s.extracted[i := s.extracted[i] - {id}])
             && PendingOK(q, s.invokerByJobID - {id}, s.extracted[i := s.extracted[i] - {id}], s.dropped)
             && InflightOK(q.jobs, s.machines, s.inflight)
             && DeliveredOK(q, s.delivered)
    ensures Inv(RescheduleOne(s, i, id, newID))
  {
    hide Valid, PlacesOK, MachinesOK, PendingOK, InflightOK, DeliveredOK, TestingOK, Wellformed, RescheduleJob;
  }

  /** Between two turns of the rescheduling loop: exactly the jobs from order[k] on are left. */
  predicate StillToReschedule(s: System, i: nat, order: seq<Id>, newIDs: seq<Id>, k: nat)
    requires k <= |order| == |newIDs|
  {
    && i in s.extracted && s.extracted[i] == Elements(order[k..])
    && Distinct(order[k..]) && Distinct(newIDs[k..]) && Elements(newIDs[k..]) !! s.used
  }

  lemma ReschedulingGoesOn(s: System, r: System, i: nat, order: seq<Id>, newIDs: seq<Id>, k: nat)
    requires k < |order| == |newIDs| && StillToReschedule(s, i, order, newIDs, k)
    requires r.extracted == s.extracted[i := s.extracted[i] - {order[k]}] && r.used <= s.used + {newIDs[k]}
    ensures StillToReschedule(r, i, order, newIDs, k + 1)
  {
    assert order[k..][1..] == order[k + 1..] && newIDs[k..][1..] == newIDs[k + 1..];
    TailIsDistinct(order[k..]);
    TailIsDistinct(newIDs[k..]);
    hide Distinct;
  }

  lemma NextToReschedule(s: System, i: nat, order: seq<Id>, newIDs: seq<Id>, k: nat)
    requires k < |order| == |newIDs| && StillToReschedule(s, i, order, newIDs, k)
    ensures InExtracted(s.extracted, i, order[k]) && i in s.extracted && newIDs[k] !in s.used
  {
    assert order[k] in order[k..] && newIDs[k] in newIDs[k..];
  }

  lemma NothingLeftToReschedule(s: System, i: nat, order: seq<Id>, newIDs: seq<Id>)
    requires |order| == |newIDs| && StillToReschedule(s, i, order, newIDs, |order|)
    ensures i in s.extracted && s.extracted == s.extracted[i := {}]
  {
    assert order[|order|..] == [] && s.extracted[i] == {};
    assert s.extracted[i := s.extracted[i]] == s.extracted;
  }

  lemma {:induction false} RescheduleKeepsInv(s: System, i: nat, order: seq<Id>, newIDs: seq<Id>, k: nat)
    requires k <= |order| == |newIDs| && Inv(s) && Wellformed(s) && StillToReschedule(s, i, order, newIDs, k)
    ensures i in s.extracted
    ensures var r := Reschedule(s, i, order, newIDs, k);
            && Inv(r) && r.fault == s.fault && r.machines == s.machines && r.invokers == s.invokers
            && r.dropped == s.dropped && r.extracted == s.extracted[i := {}]
    decreases |order| - k
  {
    hide Inv, Wellformed, StillToReschedule, RescheduleOne;
    if k == |order| {
      NothingLeftToReschedule(s, i, order, newIDs);
    } else {
      NextToReschedule(s, i, order, newIDs, k);
      var r := RescheduleOne(s, i, order[k], newIDs[k]);
      RescheduleOneKeepsInv(s, i, order[k], newIDs[k]);
      ReschedulingGoesOn(s, r, i, order, newIDs, k);
      RescheduleKeepsInv(r, i, order, newIDs, k + 1);
    }
  }

  lemma UnregisteringKeepsInv(s: System, i: nat)
    requires Inv(s) && i in s.extracted && s.extracted[i] == {}
    ensures Inv(s.(invokers := Without(s.invokers, i), extracted := s.extracted - {i}))
  {
    hide Valid, PlacesOK, InflightOK, DeliveredOK, TestingOK, Counted, Distinct;
    WithoutIsRemoval(s.invokers, i);
    var invokers, extracted := Without(s.invokers, i), s.extracted - {i};
    assert MachineOK(s.machines, s.invokers, s.invokerByJobID, s.extracted, i);
    forall k | k in s.machines
      ensures MachineOK(s.machines, invokers, s.invokerByJobID, extracted, k)
    {
      assert MachineOK(s.machines, s.invokers, s.invokerByJobID, s.extracted, k);
    }
    forall a | a in s.invokerByJobID
      ensures s.invokerByJobID[a] != i
      ensures HeldBy(s.machines, s.invokerByJobID, s.testingJobs, a) || InExtracted(extracted, s.invokerByJobID[a], a)
    {
      assert HeldBy(s.machines, s.invokerByJobID, s.testingJobs, a) || InExtracted(s.extracted, s.invokerByJobID[a], a);
    }
    forall k, a | InExtracted(extracted, k, a)
      ensures InExtracted(s.extracted, k, a)
    {
    }
  }

  /** The alias panic of RescheduleJob is unreachable, whatever came in since the jobs were extracted. */
  lemma UnregisterKeepsInv(s: System, i: nat, order: seq<Id>, newIDs: seq<Id>)
    requires Inv(s) && Enabled(s, RescheduleStep(i, order, newIDs))
    ensures var r := Unregister(s, i, order, newIDs);
            && Inv(r) && r.fault == s.fault && r.dropped == s.dropped
            && r.machines == s.machines && r.invokers == Without(s.invokers, i)
  {
    hide Inv, Wired, Distinct;
    assert order[0..] == order && newIDs[0..] == newIDs;
    RescheduleKeepsInv(s, i, order, newIDs, 0);
    var r := Reschedule(s, i, order, newIDs, 0);
    UnregisteringKeepsInv(r, i);
    assert r.extracted - {i} == s.extracted - {i};
  }

  // ---------- every step, every run ----------

  lemma StepKeepsSafe(s: System, e: Step)
    requires Safe(s) && Enabled(s, e)
    ensures Safe(Next(s, e))
  {
    hide Inv, Wellformed, Wired, Fetch, Send, Receive, Apply, Extract, Unregister, Upsert, Sent, Submit, UpdateStatus,
      EnsureJobIsNotLost, Generators.IsFresh, IsOrder, Distinct;
    match e
    case SubmitStep(g, kind, submitId) => SubmitKeepsInv(s, g, kind, submitId);
    case FetchStep(newID) => FetchKeepsInv(s, newID);
    case SendStep(i) => SendKeepsInv(s, i);
    case ReceiveStep(id, result) => ReceiveKeepsInv(s, id, result);
    case ApplyStep(id) => ApplyKeepsSafe(s, id);
    case FailStep(i) => FailKeepsInv(s, i);
    case ExtractStep(i) =>
      ExtractKeepsInv(s, i);
    case RescheduleStep(i, order, newIDs) => UnregisterKeepsInv(s, i, order, newIDs);
    case UpsertStep(status, orders, i) => UpsertKeepsInv(s, status, orders, i);
    case PingStep(i, status, order) => UpdateKeepsInv(s, i, status, order);
    case SentStep(i, j, reply) => SentKeepsInv(s, i, j, reply);
    case TimeoutStep(i, id) => TimeoutKeepsInv(s, i, id);
  }

  lemma {:induction false} RunKeepsSafe(s: System, steps: seq<Step>, r: System)
    requires Safe(s) && Run(s, steps, r)
    ensures Safe(r)
    decreases |steps|
  {
    hide Safe, Enabled, Next;
    if steps != [] {
      StepKeepsSafe(s, steps[0]);
      RunKeepsSafe(Next(s, steps[0]), steps[1..], r);
    }
  }

  lemma InitialIsSafe()
    ensures Safe(Initial)
  {
  }
}
