/** The master's dispatch protocol: the queue, the invoker registry and the invokers it knows, as one state machine.
    Each critical section is a step: OnInvokerFailure is two, since it extracts the jobs of the invoker before it takes
    the registry's lock; SendJobs is a sequence of them. */
module Dispatch {
  import opened Models
  import opened Lists
  import opened MasterQueue
  import opened InvokerMachine
  import Generators

  datatype Fault = Fine | GeneratorPanicked | QueuePanicked | RegistryPanicked | InvokerPanicked

  /** `machines` holds every invoker object ever created, `invokers` the registered ones; `inflight` the
      sends whose reply has not come; `accepted` the results taken in by the registry but not yet passed to the
      queue; `extracted` the jobs a failed invoker had, until they are rescheduled; `dropped` the jobs whose result
      was discarded because it came in between; `stopped` the IDs of jobs an invoker was asked to stop; `used` every
      ID drawn; `delivered` the jobs whose result reached the queue, in order; `submitted` the submission of each
      generator; `returned` the submissions the queue returned, with their generator. */
  datatype System = System(
    queue: Queue,
    invokers: seq<nat>, invokerByJobID: map<Id, nat>, testingJobs: map<Id, Id>, nextJob: Option<Id>,
    machines: map<nat, Invoker>, inflight: set<(nat, Id)>,
    accepted: map<Id, JobResult>, extracted: map<nat, set<Id>>, dropped: set<Id>, stopped: set<Id>, used: set<Id>,
    delivered: seq<Id>, submitted: map<nat, nat>, returned: seq<(nat, Submission)>,
    fault: Fault)

  const Initial: System :=
    System(Empty, [], map[], map[], None, map[], {}, map[], map[], {}, {}, {}, [], map[], [], Fine)

  datatype Step =
    | SubmitStep(generator: nat, kind: Generators.Generator, submitId: nat)
    | FetchStep(newID: Id)
    | SendStep(invoker: nat)
    | ReceiveStep(id: Id, result: JobResult)
    | ApplyStep(id: Id)
    | FailStep(invoker: nat)
    | ExtractStep(invoker: nat)
    | RescheduleStep(invoker: nat, order: seq<Id>, newIDs: seq<Id>)
    | UpsertStep(status: Status, orders: map<nat, seq<Id>>, invoker: nat)
    | PingStep(invoker: nat, status: Status, order: seq<Id>)
    | SentStep(invoker: nat, job: Id, reply: Reply)
    | TimeoutStep(invoker: nat, id: Id)

  // ---------- what the code can do without being handed nonsense ----------

  /** References are never dangling. */
  predicate Wellformed(s: System) {
    && Wired(s.queue)
    && (forall k :: 0 <= k < |s.invokers| ==> s.invokers[k] in s.machines)
    && (forall id :: id in s.invokerByJobID ==> s.invokerByJobID[id] in s.machines)
    && (forall id :: id in s.testingJobs ==> s.testingJobs[id] in s.queue.jobs)
    && (s.nextJob.Some? ==> s.nextJob.value in s.queue.jobs)
    && (forall p :: p in s.inflight ==> p.0 in s.machines && p.1 in s.queue.jobs)
    && (forall i :: i in s.extracted ==> i in s.machines)
  }

  predicate Enabled(s: System, e: Step) {
    && Wellformed(s) && s.fault == Fine
    && match e
       case SubmitStep(g, kind, submitId) => g !in s.queue.generators && Generators.IsFresh(kind, submitId)
       case FetchStep(newID) => s.nextJob.None? && newID !in s.used
       case SendStep(i) => s.nextJob.Some? && i in s.invokers
       case ReceiveStep(_, _) => true
       case ApplyStep(id) => id in s.accepted
       case FailStep(i) => i in s.machines
       case ExtractStep(i) => i in s.invokers && s.machines[i].failed && i !in s.extracted
       case RescheduleStep(i, order, newIDs) =>
         && i in s.extracted && Distinct(order) && Elements(order) == s.extracted[i]
         && |newIDs| == |order| && Distinct(newIDs) && Elements(newIDs) !! s.used
       case UpsertStep(_, orders, i) =>
         i !in s.machines && forall k :: k in s.invokers ==> k in orders && IsOrder(s.machines[k], orders[k])
       case PingStep(i, _, order) => i in s.machines && IsOrder(s.machines[i], order)
       case SentStep(i, j, reply) =>
         (i, j) in s.inflight && (reply.Success? ==> IsOrder(s.machines[i], reply.order))
       case TimeoutStep(i, _) => i in s.machines
  }

  // ---------- SendJobs, in two steps ----------

  function Fetch(s: System, newID: Id): System
    requires Wellformed(s)
  {
    var (q, job) := NextJob(s.queue, newID);
    s.(queue := q, nextJob := job, used := s.used + {newID})
  }

  function Send(s: System, i: nat): System
    requires Wellformed(s) && s.nextJob.Some? && i in s.machines
  {
    var j := s.nextJob.value;
    var id := s.queue.jobs[j].id;
    var (m, sent) := TrySendJob(s.machines[i], id, j);
    if !sent then s
    else s.(machines := s.machines[i := m],
            invokerByJobID := s.invokerByJobID[id := i],
            testingJobs := s.testingJobs[id := j],
            nextJob := None,
            inflight := s.inflight + {(i, j)})
  }

  // ---------- HandleInvokerJobResult ----------

  /** The running jobs that require the job with ID `id`. */
  function Dependents(s: System, id: Id): set<Id>
    requires Wellformed(s)
  {
    set k | k in s.testingJobs && id in s.queue.jobs[s.testingJobs[k]].required :: k
  }

  function Receive(s: System, id: Id, result: JobResult): System
    requires Wellformed(s)
  {
    if id !in s.invokerByJobID then s
    else
      var stops := if result.verdict == OK || result.verdict == PT then {} else Dependents(s, id);
      if !(stops <= s.invokerByJobID.Keys) then s.(fault := RegistryPanicked)
      else
        var i := s.invokerByJobID[id];
        var (m, known) := JobTested(s.machines[i], id);
        s.(stopped := s.stopped + stops,
           invokerByJobID := s.invokerByJobID - {id},
           testingJobs := s.testingJobs - {id},
           machines := s.machines[i := m],
           accepted := if known then s.accepted[id := result] else s.accepted,
           dropped := if known then s.dropped else s.dropped + {Original(s.queue, id)})
  }

  // ---------- Queue.JobCompleted, in a later critical section ----------

  function Apply(s: System, id: Id): System
    requires Wellformed(s) && id in s.accepted
  {
    var (q, completion) := JobCompleted(s.queue, id, s.accepted[id]);
    s.(queue := q, accepted := s.accepted - {id},
       delivered := if completion.Passed? then s.delivered + [Original(s.queue, id)] else s.delivered,
       returned := if completion.Passed? && completion.outcome.Finalized?
                   then s.returned + [(completion.generator, completion.outcome.sub)] else s.returned,
       fault := if completion.AliasLost? then QueuePanicked
                else if completion.Passed? && completion.outcome.Panicked? then GeneratorPanicked
                else s.fault)
  }

  // ---------- OnInvokerFailure, in two sections ----------

  /** Before the registry's lock is taken. */
  function Extract(s: System, i: nat): System
    requires i in s.machines
  {
    s.(machines := s.machines[i := ExtractJobs(s.machines[i])],
       extracted := s.extracted[i := s.machines[i].holders.Keys])
  }

  /** Reschedules one of the extracted jobs, if the registry still has it. */
  function RescheduleOne(s: System, i: nat, id: Id, newID: Id): (r: System)
    requires Wellformed(s) && i in s.extracted
    ensures Wellformed(r) && i in r.extracted
  {
    var rest := s.(extracted := s.extracted[i := s.extracted[i] - {id}]);
    if id !in s.invokerByJobID then rest
    else
      var (q, outcome) := RescheduleJob(s.queue, id, newID);
      rest.(queue := q,
            fault := if outcome.AliasBroken? then QueuePanicked else s.fault,
            invokerByJobID := s.invokerByJobID - {id},
            testingJobs := s.testingJobs - {id},
            used := s.used + {newID})
  }

  /** The loop over order[k..]. */
  function Reschedule(s: System, i: nat, order: seq<Id>, newIDs: seq<Id>, k: nat): System
    requires Wellformed(s) && i in s.extracted && k <= |order| == |newIDs|
    decreases |order| - k
  {
    if k == |order| then s else Reschedule(RescheduleOne(s, i, order[k], newIDs[k]), i, order, newIDs, k + 1)
  }

  /** The section under the registry's lock. */
  function Unregister(s: System, i: nat, order: seq<Id>, newIDs: seq<Id>): System
    requires Wellformed(s) && i in s.extracted && |order| == |newIDs|
  {
    var r := Reschedule(s, i, order, newIDs, 0);
    r.(invokers := Without(r.invokers, i), extracted := r.extracted - {i})
  }

  // ---------- UpsertInvoker ----------

  /** Offers the status to invokers[k..]; true when one of them takes it. */
  function Offer(s: System, status: Status, orders: map<nat, seq<Id>>, k: nat): (System, bool)
    requires Wellformed(s) && k <= |s.invokers|
    requires forall i :: i in s.invokers ==> i in orders
    decreases |s.invokers| - k
  {
    if k == |s.invokers| then (s, false)
    else
      var i := s.invokers[k];
      var (m, taken) := VerifyAndUpdateStatus(s.machines[i], status, orders[i]);
      var r := s.(machines := s.machines[i := m]);
      if taken then (r, true) else Offer(r, status, orders, k + 1)
  }

  function Upsert(s: System, status: Status, orders: map<nat, seq<Id>>, i: nat): System
    requires Wellformed(s)
    requires forall k :: k in s.invokers ==> k in orders
  {
    var (r, taken) := Offer(s, status, orders, 0);
    if taken then r else r.(machines := r.machines[i := NewInvoker(status)], invokers := r.invokers + [i])
  }

  // ---------- the other sections ----------

  function Sent(s: System, i: nat, j: Id, reply: Reply): System
    requires Wellformed(s) && (i, j) in s.inflight
  {
    var rest := s.(inflight := s.inflight - {(i, j)});
    match CompleteSendJob(s.machines[i], s.queue.jobs[j].id, reply)
    case None => rest.(fault := InvokerPanicked)
    case Some(m) => rest.(machines := s.machines[i := m])
  }

  function Next(s: System, e: Step): System
    requires Enabled(s, e)
  {
    match e
    case SubmitStep(g, kind, submitId) => s.(queue := Submit(s.queue, g, kind), submitted := s.submitted[g := submitId])
    case FetchStep(newID) => Fetch(s, newID)
    case SendStep(i) => Send(s, i)
    case ReceiveStep(id, result) => Receive(s, id, result)
    case ApplyStep(id) => Apply(s, id)
    case FailStep(i) => s.(machines := s.machines[i := MarkFailed(s.machines[i])])
    case ExtractStep(i) => Extract(s, i)
    case RescheduleStep(i, order, newIDs) => Unregister(s, i, order, newIDs)
    case UpsertStep(status, orders, i) => Upsert(s, status, orders, i)
    case PingStep(i, status, order) => s.(machines := s.machines[i := UpdateStatus(s.machines[i], status, order)])
    case SentStep(i, j, reply) => Sent(s, i, j, reply)
    case TimeoutStep(i, id) => s.(machines := s.machines[i := EnsureJobIsNotLost(s.machines[i], id)])
  }

  /** `steps` leads from s to r. */
  predicate Run(s: System, steps: seq<Step>, r: System)
    decreases |steps|
  {
    if steps == [] then s == r else Enabled(s, steps[0]) && Run(Next(s, steps[0]), steps[1..], r)
  }
}
