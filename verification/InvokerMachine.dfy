/** What the registry knows about one invoker: the jobs it sent there, its last status, and whether it failed. */
module InvokerMachine {
  import opened Models
  import opened Lists

  datatype JobType = SendingJob | TestingJob | NoReplyJob

  /** A job object, named by the ID it was issued with, and how far it got. */
  datatype Holder = Holder(job: Id, jobType: JobType)

  datatype Status = Status(address: string, epoch: nat, maxNewJobs: int, activeJobIDs: seq<Id>)

  datatype Invoker = Invoker(holders: map<Id, Holder>, counts: map<JobType, int>, status: Status, failed: bool)

  function NewInvoker(status: Status): Invoker {
    Invoker(map[], map[], status, false)
  }

  /** A missing key counts as zero. */
  function Count(counts: map<JobType, int>, t: JobType): int {
    if t in counts then counts[t] else 0
  }

  function Add(counts: map<JobType, int>, t: JobType, d: int): map<JobType, int> {
    counts[t := Count(counts, t) + d]
  }

  function AddJob(m: Invoker, id: Id, job: Id): Invoker {
    m.(holders := m.holders[id := Holder(job, SendingJob)], counts := Add(m.counts, SendingJob, 1))
  }

  function SetJobType(m: Invoker, id: Id, t: JobType): Invoker
    requires id in m.holders
  {
    m.(holders := m.holders[id := m.holders[id].(jobType := t)],
       counts := Add(Add(m.counts, m.holders[id].jobType, -1), t, 1))
  }

  function RemoveJob(m: Invoker, id: Id): Invoker
    requires id in m.holders
  {
    m.(holders := m.holders - {id}, counts := Add(m.counts, m.holders[id].jobType, -1))
  }

  function TrySendJob(m: Invoker, id: Id, job: Id): (Invoker, bool) {
    if m.failed || Count(m.counts, SendingJob) + 1 > m.status.maxNewJobs then (m, false)
    else (AddJob(m, id, job), true)
  }

  function JobTested(m: Invoker, id: Id): (Invoker, bool) {
    if id !in m.holders then (m, false) else (RemoveJob(m, id), true)
  }

  function MarkFailed(m: Invoker): Invoker {
    m.(failed := true)
  }

  function ExtractJobs(m: Invoker): Invoker {
    m.(holders := map[], counts := map[])
  }

  function EnsureJobIsNotLost(m: Invoker, id: Id): Invoker {
    if id in m.holders && m.holders[id].jobType == NoReplyJob then MarkFailed(m) else m
  }

  /** Go iterates over the holders in any order; `order` is the one it takes. */
  predicate IsOrder(m: Invoker, order: seq<Id>) {
    Distinct(order) && Elements(order) == m.holders.Keys
  }

  /** The loop of updateStatus over order[k..]. */
  function Scan(m: Invoker, order: seq<Id>, k: nat): Invoker
    requires k <= |order|
    decreases |order| - k
  {
    if k == |order| || order[k] !in m.holders then m
    else
      var id := order[k];
      var active := id in m.status.activeJobIDs;
      match m.holders[id].jobType
      case SendingJob => Scan(m, order, k + 1)
      case TestingJob => Scan(if active then m else SetJobType(m, id, NoReplyJob), order, k + 1)
      case NoReplyJob => if active then MarkFailed(m) else Scan(m, order, k + 1)
  }

  function UpdateStatus(m: Invoker, status: Status, order: seq<Id>): Invoker {
    if m.failed || m.status.epoch >= status.epoch then m
    else Scan(m.(status := status), order, 0)
  }

  function VerifyAndUpdateStatus(m: Invoker, status: Status, order: seq<Id>): (Invoker, bool) {
    if m.status.address != status.address then (m, false)
    else
      var updated := UpdateStatus(m, status, order);
      (updated, !updated.failed)
  }

  /** The outcome of sending a job: an error, or the status the invoker answered with. */
  datatype Reply = Failure | Success(status: Status, order: seq<Id>)

  /** None where the original panics: the job being sent is known to be past sending. */
  function CompleteSendJob(m: Invoker, id: Id, reply: Reply): Option<Invoker> {
    match reply
    case Failure => Some(MarkFailed(m))
    case Success(status, order) =>
      if id !in m.holders then Some(UpdateStatus(m, status, order))
      else if m.holders[id].jobType == SendingJob then Some(UpdateStatus(SetJobType(m, id, TestingJob), status, order))
      else None
  }

  // ---------- what every operation keeps ----------

  function OfType(holders: map<Id, Holder>, t: JobType): set<Id> {
    set id | id in holders && holders[id].jobType == t
  }

  predicate TypeCounted(m: Invoker, t: JobType) {
    Count(m.counts, t) == |OfType(m.holders, t)|
  }

  /** jobTypesCount is the number of holders of each type. */
  predicate Counted(m: Invoker) {
    forall t {:trigger TypeCounted(m, t)} :: TypeCounted(m, t)
  }

  lemma OneMoreHolder(holders: map<Id, Holder>, id: Id, h: Holder, t: JobType)
    requires id !in holders
    ensures |OfType(holders[id := h], t)| == |OfType(holders, t)| + if t == h.jobType then 1 else 0
  {
    assert OfType(holders[id := h], t) == OfType(holders, t) + if t == h.jobType then {id} else {};
  }

  lemma OneFewerHolder(holders: map<Id, Holder>, id: Id, t: JobType)
    requires id in holders
    ensures |OfType(holders, t)| == |OfType(holders - {id}, t)| + if t == holders[id].jobType then 1 else 0
  {
    assert (holders - {id})[id := holders[id]] == holders;
    OneMoreHolder(holders - {id}, id, holders[id], t);
  }

  lemma AddJobIsCounted(m: Invoker, id: Id, job: Id)
    requires Counted(m) && id !in m.holders
    ensures Counted(AddJob(m, id, job))
  {
    forall t
      ensures TypeCounted(AddJob(m, id, job), t)
    {
      assert TypeCounted(m, t);
      OneMoreHolder(m.holders, id, Holder(job, SendingJob), t);
    }
  }

  lemma RemoveJobIsCounted(m: Invoker, id: Id)
    requires Counted(m) && id in m.holders
    ensures Counted(RemoveJob(m, id))
  {
    forall t
      ensures TypeCounted(RemoveJob(m, id), t)
    {
      assert TypeCounted(m, t);
      OneFewerHolder(m.holders, id, t);
    }
  }

  lemma SetJobTypeIsCounted(m: Invoker, id: Id, t: JobType)
    requires Counted(m) && id in m.holders
    ensures Counted(SetJobType(m, id, t))
  {
    var h := m.holders[id].(jobType := t);
    assert m.holders[id := h] == (m.holders - {id})[id := h];
    forall u
      ensures TypeCounted(SetJobType(m, id, t), u)
    {
      assert TypeCounted(m, u);
      OneFewerHolder(m.holders, id, u);
      OneMoreHolder(m.holders - {id}, id, h, u);
    }
  }

  function Rank(t: JobType): nat {
    match t
    case SendingJob => 0
    case TestingJob => 1
    case NoReplyJob => 2
  }

  /** A job held before and after only moves from sending to testing to no reply. */
  predicate Forward(m: Invoker, r: Invoker) {
    forall id :: id in m.holders && id in r.holders ==>
      m.holders[id].job == r.holders[id].job && Rank(m.holders[id].jobType) <= Rank(r.holders[id].jobType)
  }

  /** A new status is taken over only with a greater epoch, and a failure is final. */
  predicate Newer(m: Invoker, r: Invoker) {
    && (r.status == m.status || (m.status.epoch < r.status.epoch && !m.failed))
    && (m.failed ==> r.failed)
  }

  predicate SameJobs(m: Invoker, r: Invoker) {
    r.holders.Keys == m.holders.Keys && forall id :: id in m.holders ==> r.holders[id].job == m.holders[id].job
  }

  lemma SameCounts(m: Invoker, r: Invoker)
    requires Counted(m) && r.holders == m.holders && r.counts == m.counts
    ensures Counted(r)
  {
    forall t
      ensures TypeCounted(r, t)
    {
      assert TypeCounted(m, t);
    }
  }

  lemma {:induction false} ScanKeeps(m: Invoker, order: seq<Id>, k: nat)
    requires k <= |order|
    ensures var r := Scan(m, order, k);
            && SameJobs(m, r) && Forward(m, r)
            && (Counted(m) ==> Counted(r))
            && r.status == m.status && (m.failed ==> r.failed)
            && (forall id :: id in m.holders && m.holders[id].jobType == SendingJob ==>
                  r.holders[id].jobType == SendingJob)
            && (forall id :: id in r.holders && r.holders[id].jobType == SendingJob ==>
                  m.holders[id].jobType == SendingJob)
    decreases |order| - k
  {
    hide Counted, Add;
    if Counted(m) {
      ScanKeepsCounts(m, order, k);
    }
    if k < |order| && order[k] in m.holders {
      var id := order[k];
      if m.holders[id].jobType == TestingJob && id !in m.status.activeJobIDs {
        ScanKeeps(SetJobType(m, id, NoReplyJob), order, k + 1);
      } else {
        ScanKeeps(m, order, k + 1);
      }
    }
  }

  lemma {:induction false} ScanKeepsCounts(m: Invoker, order: seq<Id>, k: nat)
    requires k <= |order| && Counted(m)
    ensures Counted(Scan(m, order, k))
    decreases |order| - k
  {
    hide Counted, SetJobType;
    SameCounts(m, MarkFailed(m));
    if k < |order| && order[k] in m.holders {
      var id := order[k];
      if m.holders[id].jobType == TestingJob && id !in m.status.activeJobIDs {
        SetJobTypeIsCounted(m, id, NoReplyJob);
        ScanKeepsCounts(SetJobType(m, id, NoReplyJob), order, k + 1);
      } else {
        ScanKeepsCounts(m, order, k + 1);
      }
    }
  }

  /** What an update of the status keeps. */
  lemma UpdateKeeps(m: Invoker, status: Status, order: seq<Id>)
    ensures var r := UpdateStatus(m, status, order);
            && SameJobs(m, r) && Forward(m, r) && Newer(m, r)
            && (Counted(m) ==> Counted(r))
            && OfType(r.holders, SendingJob) == OfType(m.holders, SendingJob)
            && (r.status == m.status || r.status == status)
  {
    var started := m.(status := status);
    ScanKeeps(started, order, 0);
    if Counted(m) {
      SameCounts(m, started);
    }
  }

  /** After a status is taken over and the invoker did not fail, the jobs known as testing are exactly those held
      that the status lists as active and that are not being sent; every other one awaits a reply. */
  lemma UpdateFollowsTheStatus(m: Invoker, status: Status, order: seq<Id>)
    requires IsOrder(m, order) && !m.failed && m.status.epoch < status.epoch
    ensures var r := UpdateStatus(m, status, order);
            && r.status == status && r.holders.Keys == m.holders.Keys
            && (r.failed <==>
                exists id :: id in m.holders && m.holders[id].jobType == NoReplyJob && id in status.activeJobIDs)
            && (!r.failed ==> forall id :: id in m.holders && m.holders[id].jobType != SendingJob ==>
                  r.holders[id].jobType == if id in status.activeJobIDs then TestingJob else NoReplyJob)
  {
    var started := m.(status := status);
    ScanKeeps(started, order, 0);
    ScanFollows(started, order, 0);
    assert forall id :: id in m.holders ==> id in Elements(order);
    forall id | id in m.holders && m.holders[id].jobType == NoReplyJob && id in status.activeJobIDs
      ensures UpdateStatus(m, status, order).failed
    {
      var i :| 0 <= i < |order| && order[i] == id;
    }
  }

  lemma {:induction false} ScanFollows(m: Invoker, order: seq<Id>, k: nat)
    requires k <= |order| && Distinct(order) && !m.failed
    requires forall i :: k <= i < |order| ==> order[i] in m.holders
    ensures var r := Scan(m, order, k);
            && (r.failed <==> exists i :: k <= i < |order| && Reappeared(m, order[i]))
            && (!r.failed ==> forall i :: k <= i < |order| && m.holders[order[i]].jobType != SendingJob ==>
                  order[i] in r.holders
                  && r.holders[order[i]].jobType ==
                     if order[i] in m.status.activeJobIDs then TestingJob else NoReplyJob)
            && (forall id :: id in m.holders && !Ahead(order, k, id) ==>
                  id in r.holders && r.holders[id] == m.holders[id])
    decreases |order| - k
  {
    if k < |order| {
      var id := order[k];
      assert !Ahead(order, k + 1, id);
      hide Distinct;
      var next := if m.holders[id].jobType == TestingJob && id !in m.status.activeJobIDs
                  then SetJobType(m, id, NoReplyJob) else m;
      assert forall i :: k < i < |order| ==>
          order[i] != id && (Reappeared(next, order[i]) <==> Reappeared(m, order[i]));
      if !Reappeared(m, id) {
        ScanFollows(next, order, k + 1);
      }
    }
  }

  /** The loop has not come to the job yet. */
  predicate Ahead(order: seq<Id>, k: nat, id: Id)
    requires k <= |order|
  {
    exists i :: k <= i < |order| && order[i] == id
  }

  predicate Reappeared(m: Invoker, id: Id) {
    id in m.holders && m.holders[id].jobType == NoReplyJob && id in m.status.activeJobIDs
  }

  /** A job is sent only below the limit of the latest status: the jobs being sent never exceed it through a send. */
  lemma SendRespectsTheLimit(m: Invoker, id: Id, job: Id)
    requires Counted(m) && id !in m.holders
    ensures var (r, sent) := TrySendJob(m, id, job);
            && Counted(r)
            && (sent <==> !m.failed && |OfType(m.holders, SendingJob)| < m.status.maxNewJobs)
            && (sent ==>
                  && |OfType(r.holders, SendingJob)| <= r.status.maxNewJobs
                  && r.holders == m.holders[id := Holder(job, SendingJob)])
            && (!sent ==> r == m)
  {
    AddJobIsCounted(m, id, job);
    assert TypeCounted(m, SendingJob) && TypeCounted(AddJob(m, id, job), SendingJob);
  }
}
