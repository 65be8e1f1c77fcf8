/** The registry's invoker object: methods that update it in place, proved to do what the state machine says. */
module InvokerObject {
  import opened Models
  import opened Lists
  import opened InvokerMachine
  import Spec = InvokerMachine

  class Invoker {
    /** Stands for the object's identity in the state machine. */
    const name: nat
    var jobHolderByID: map<Id, Holder>
    var jobTypesCount: map<JobType, int>
    var status: Status
    var failed: bool

    ghost function View(): Spec.Invoker reads this {
      Spec.Invoker(jobHolderByID, jobTypesCount, status, failed)
    }

    constructor (name: nat, status: Status)
      ensures this.name == name && View() == NewInvoker(status)
    {
      this.name := name;
      jobHolderByID := map[];
      jobTypesCount := map[];
      this.status := status;
      failed := false;
    }

    method Bump(t: JobType, d: int)
      modifies this`jobTypesCount
      ensures jobTypesCount == Add(old(jobTypesCount), t, d)
    {
      jobTypesCount := jobTypesCount[t := Count(jobTypesCount, t) + d];
    }

    method AddJob(id: Id, job: Id)
      modifies this
      ensures View() == Spec.AddJob(old(View()), id, job)
    {
      jobHolderByID := jobHolderByID[id := Holder(job, SendingJob)];
      Bump(SendingJob, 1);
    }

    /** The original panics on an unknown job; its callers never pass one. */
    method SetJobType(id: Id, t: JobType)
      requires id in jobHolderByID
      modifies this
      ensures View() == Spec.SetJobType(old(View()), id, t)
    {
      var holder := jobHolderByID[id];
      Bump(holder.jobType, -1);
      jobHolderByID := jobHolderByID[id := holder.(jobType := t)];
      Bump(t, 1);
    }

    method RemoveJob(id: Id)
      requires id in jobHolderByID
      modifies this
      ensures View() == Spec.RemoveJob(old(View()), id)
    {
      Bump(jobHolderByID[id].jobType, -1);
      jobHolderByID := jobHolderByID - {id};
    }

    method MarkFailed()
      modifies this
      ensures View() == Spec.MarkFailed(old(View()))
    {
      if failed {
        return;
      }
      failed := true;
    }

    method TrySendJob(id: Id, job: Id) returns (sent: bool)
      modifies this
      ensures (View(), sent) == Spec.TrySendJob(old(View()), id, job)
    {
      if failed || Count(jobTypesCount, SendingJob) + 1 > status.maxNewJobs {
        return false;
      }
      AddJob(id, job);
      return true;
    }

    method ExtractJobs() returns (jobs: set<Id>)
      modifies this
      ensures jobs == old(jobHolderByID).Keys
      ensures View() == Spec.ExtractJobs(old(View()))
    {
      jobs := jobHolderByID.Keys;
      jobHolderByID := map[];
      jobTypesCount := map[];
    }

    method JobTested(id: Id) returns (known: bool)
      modifies this
      ensures (View(), known) == Spec.JobTested(old(View()), id)
    {
      if id !in jobHolderByID {
        return false;
      }
      RemoveJob(id);
      return true;
    }

    method EnsureJobIsNotLost(id: Id)
      modifies this
      ensures View() == Spec.EnsureJobIsNotLost(old(View()), id)
      ensures failed <==> old(failed) || (id in jobHolderByID && jobHolderByID[id].jobType == NoReplyJob)
      ensures jobHolderByID == old(jobHolderByID) && status == old(status)
    {
      if id in jobHolderByID && jobHolderByID[id].jobType == NoReplyJob {
        MarkFailed();
      }
    }

    /** `order` is the order in which the loop meets the jobs. */
    method UpdateStatus(newStatus: Status, order: seq<Id>)
      requires IsOrder(View(), order)
      modifies this
      ensures View() == Spec.UpdateStatus(old(View()), newStatus, order)
    {
      if failed || status.epoch >= newStatus.epoch {
        return;
      }
      status := newStatus;
      ghost var started := View();
      assert forall k :: 0 <= k < |order| ==> order[k] in Elements(order);
      for k := 0 to |order|
        invariant jobHolderByID.Keys == old(jobHolderByID).Keys
        invariant Scan(View(), order, k) == Scan(started, order, 0)
      {
        var id := order[k];
        assert id in jobHolderByID;
        match jobHolderByID[id].jobType {
          case SendingJob =>
          case TestingJob =>
            if id !in status.activeJobIDs {
              SetJobType(id, NoReplyJob);
            }
          case NoReplyJob =>
            if id in status.activeJobIDs {
              MarkFailed();
              return;
            }
        }
      }
    }

    method VerifyAndUpdateStatus(newStatus: Status, order: seq<Id>) returns (taken: bool)
      requires IsOrder(View(), order)
      modifies this
      ensures (View(), taken) == Spec.VerifyAndUpdateStatus(old(View()), newStatus, order)
    {
      if status.address != newStatus.address {
        return false;
      }
      UpdateStatus(newStatus, order);
      return !failed;
    }

    /** The job is not past sending: that is an invariant of the whole protocol. */
    method CompleteSendJob(id: Id, reply: Reply)
      requires reply.Success? ==> IsOrder(View(), reply.order)
      requires id in jobHolderByID ==> jobHolderByID[id].jobType == SendingJob
      modifies this
      ensures Spec.CompleteSendJob(old(View()), id, reply) == Some(View())
    {
      match reply
      case Failure => MarkFailed();
      case Success(newStatus, order) =>
        if id in jobHolderByID {
          SetJobType(id, TestingJob);
        }
        UpdateStatus(newStatus, order);
    }

    /** How many jobs the invoker still takes, as reported to the master's status page. */
    method FreeSlots() returns (free: int)
      requires Counted(View())
      ensures free == status.maxNewJobs - |OfType(jobHolderByID, SendingJob)|
    {
      assert TypeCounted(View(), SendingJob);
      free := status.maxNewJobs - Count(jobTypesCount, SendingJob);
    }
  }
}
