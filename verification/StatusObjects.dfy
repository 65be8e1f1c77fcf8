/** The master's status holder and the client's copy as objects, proved to do what the state machine says. */
module StatusObjects {
  import opened Models
  import opened Lists
  import Spec = StatusSync

  class QueueStatus {
    var activeSubmissions: map<nat, Spec.Holder>
    var submissionsOrderedByUpdate: seq<nat>
    /** The last epoch drawn; a new one is a parameter of the methods. */
    ghost var clock: nat

    ghost function View(): Spec.Master reads this {
      Spec.Master(activeSubmissions, submissionsOrderedByUpdate, clock)
    }

    ghost predicate Valid() reads this {
      Spec.Valid(View())
    }

    constructor ()
      ensures Valid() && View() == Spec.Master(map[], [], 0)
    {
      activeSubmissions := map[];
      submissionsOrderedByUpdate := [];
      clock := 0;
    }

    /** container/list removal of a submission's element. */
    method Unlist(id: nat)
      modifies this`submissionsOrderedByUpdate
      ensures submissionsOrderedByUpdate == Without(old(submissionsOrderedByUpdate), id)
    {
      var done, rest := [], submissionsOrderedByUpdate;
      while rest != []
        invariant Without(submissionsOrderedByUpdate, id) == done + Without(rest, id)
        decreases |rest|
      {
        if rest[0] != id {
          done := done + [rest[0]];
        }
        rest := rest[1..];
      }
      submissionsOrderedByUpdate := done;
    }

    /** The original panics when the submission is active already. */
    method AddSubmission(submission: Submission, epoch: nat)
      requires Valid() && submission.id !in activeSubmissions && clock <= epoch
      modifies this
      ensures Valid() && View() == Spec.Add(old(View()), submission, epoch)
    {
      Spec.FrontStaysSorted(View(), submission, epoch);
      hide Spec.Valid;
      activeSubmissions := activeSubmissions[submission.id := Spec.Holder(submission, epoch)];
      submissionsOrderedByUpdate := [submission.id] + submissionsOrderedByUpdate;
      clock := epoch;
    }

    /** The original panics when the submission is not active. */
    method FinishSubmissionTesting(id: nat)
      requires Valid() && id in activeSubmissions
      modifies this
      ensures Valid() && View() == Spec.Finish(old(View()), id)
    {
      Spec.RemovalStaysSorted(View(), id);
      hide Spec.Valid;
      activeSubmissions := activeSubmissions - {id};
      Unlist(id);
    }

    /** The original panics when the submission is not active. */
    method UpdateSubmission(submission: Submission, epoch: nat)
      requires Valid() && submission.id in activeSubmissions && clock <= epoch
      modifies this
      ensures Valid() && View() == Spec.Update(old(View()), submission, epoch)
      ensures activeSubmissions == old(activeSubmissions)[submission.id := Spec.Holder(submission, epoch)]
    {
      Spec.UpdateKeepsValid(View(), submission, epoch);
      hide Spec.Valid;
      activeSubmissions := activeSubmissions[submission.id := Spec.Holder(submission, epoch)];
      Unlist(submission.id);
      submissionsOrderedByUpdate := [submission.id] + submissionsOrderedByUpdate;
      clock := epoch;
    }

    /** The loop of GetStatus with its early break. */
    method CollectUpdated(prevEpoch: nat) returns (updated: seq<Submission>)
      requires Spec.Listed(View())
      ensures updated == Spec.UpdatedSince(View(), prevEpoch, 0)
    {
      updated := [];
      var k := 0;
      while k < |submissionsOrderedByUpdate|
        invariant k <= |submissionsOrderedByUpdate|
        invariant Spec.UpdatedSince(View(), prevEpoch, 0) == updated + Spec.UpdatedSince(View(), prevEpoch, k)
      {
        var holder := activeSubmissions[submissionsOrderedByUpdate[k]];
        if holder.lastUpdatedEpoch < prevEpoch {
          break;
        }
        updated := updated + [holder.submission];
        k := k + 1;
      }
      assert Spec.UpdatedSince(View(), prevEpoch, k) == [];
    }

    method GetStatus(prevEpoch: nat, epoch: nat) returns (status: Spec.Status)
      requires Valid() && clock <= epoch
      modifies this`clock
      ensures Valid() && (View(), status) == Spec.GetStatus(old(View()), prevEpoch, epoch)
    {
      Spec.GetStatusKeepsValid(View(), prevEpoch, epoch);
      var updated := CollectUpdated(prevEpoch);
      status := Spec.Status(epoch, activeSubmissions.Keys, updated);
      clock := epoch;
    }
  }

  class MasterStatus {
    var submissions: map<nat, Submission>
    var epoch: nat
    var testing: set<nat>

    ghost function View(): Spec.Client reads this {
      Spec.Client(submissions, epoch, testing)
    }

    constructor ()
      ensures View() == Spec.Client(map[], 0, {})
    {
      submissions := map[];
      epoch := 0;
      testing := {};
    }

    /** The part of updateStatus after the master has answered. */
    method TakeStatus(status: Spec.Status)
      modifies this
      ensures View() == Spec.Apply(old(View()), status)
    {
      epoch := status.epoch;
      testing := status.testing;
      var k := 0;
      assert status.updated[0..] == status.updated;
      while k < |status.updated|
        invariant k <= |status.updated|
        invariant epoch == status.epoch && testing == status.testing
        invariant Spec.Overwrite(submissions, status.updated[k..]) == Spec.Overwrite(old(submissions), status.updated)
      {
        var submission := status.updated[k];
        assert status.updated[k..][1..] == status.updated[k + 1..];
        submissions := submissions[submission.id := submission];
        k := k + 1;
      }
    }
  }
}
