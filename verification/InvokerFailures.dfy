/** When an invoker is given up, which statuses it takes over, and what it then knows about its jobs. */
module InvokerFailures {
  import opened Models
  import opened Lists
  import opened MasterQueue
  import opened QueueLaws
  import opened InvokerMachine
  import opened Dispatch
  import opened DispatchInvariant
  import opened DispatchSteps
  import opened DispatchTheorems
  import Generators

  // ---------- one invoker ----------

  /** A job that had dropped out of the invoker's status is active again in a newer one. */
  predicate JobReturns(m: Invoker, status: Status) {
    m.status.epoch < status.epoch
    && exists id :: id in m.holders && m.holders[id].jobType == NoReplyJob && id in status.activeJobIDs
  }

  /** What a job held is known as after the status is taken over. */
  function TypeAfter(t: JobType, active: bool): JobType {
    if t == SendingJob then SendingJob else if active then TestingJob else NoReplyJob
  }

  /** The invoker has been offered the status: it took it over exactly if it had not failed and the status is newer, and
      it has failed exactly if a lost job is back. */
  predicate HasTaken(m: Invoker, status: Status, r: Invoker) {
    && r.status == (if !m.failed && m.status.epoch < status.epoch then status else m.status)
    && (r.failed <==> m.failed || JobReturns(m, status))
    && r.holders.Keys == m.holders.Keys
    && (m.failed || status.epoch <= m.status.epoch ==> r.holders == m.holders)
    && (!m.failed && m.status.epoch < status.epoch && !JobReturns(m, status) ==>
          forall id :: id in m.holders ==>
            r.holders[id] == Holder(m.holders[id].job, TypeAfter(m.holders[id].jobType, id in status.activeJobIDs)))
  }

  lemma UpdateIsTaken(m: Invoker, status: Status, order: seq<Id>)
    requires IsOrder(m, order)
    ensures HasTaken(m, status, UpdateStatus(m, status, order))
  {
    UpdateKeeps(m, status, order);
    if !m.failed && m.status.epoch < status.epoch {
      UpdateFollowsTheStatus(m, status, order);
      var r := UpdateStatus(m, status, order);
      hide UpdateStatus, IsOrder, Counted;
      forall id | id in m.holders && m.holders[id].jobType == SendingJob
        ensures r.holders[id].jobType == SendingJob
      {
        assert id in OfType(m.holders, SendingJob);
        assert id in OfType(r.holders, SendingJob);
      }
    }
  }

  /** A registered invoker of the status's address that would stay alive: it ends the search of UpsertInvoker. */
  predicate Answers(m: Invoker, status: Status) {
    m.status.address == status.address && !m.failed && !JobReturns(m, status)
  }

  lemma VerifyIsTaken(m: Invoker, status: Status, order: seq<Id>)
    requires IsOrder(m, order)
    ensures var (r, taken) := VerifyAndUpdateStatus(m, status, order);
            && (taken <==> Answers(m, status))
            && (if m.status.address == status.address then HasTaken(m, status, r) else r == m)
  {
    UpdateIsTaken(m, status, order);
    hide UpdateStatus, IsOrder, JobReturns;
  }

  // ---------- a status offered to all invokers ----------

  /** Of invokers[from..], i is one that the search of UpsertInvoker comes to. */
  predicate Reached(s: System, status: Status, from: nat, i: nat)
    requires forall k :: 0 <= k < |s.invokers| ==> s.invokers[k] in s.machines
  {
    exists k :: from <= k < |s.invokers| && s.invokers[k] == i
      && forall l :: from <= l < k ==> !Answers(s.machines[s.invokers[l]], status)
  }

  lemma ReachedNext(s: System, n: System, status: Status, k: nat, i: nat)
    requires forall l :: 0 <= l < |s.invokers| ==> s.invokers[l] in s.machines
    requires k < |s.invokers| && Distinct(s.invokers) && n.invokers == s.invokers
    requires s.invokers[k] in n.machines && n.machines == s.machines[s.invokers[k] := n.machines[s.invokers[k]]]
    ensures Reached(s, status, k, i) <==>
            i == s.invokers[k] || (!Answers(s.machines[s.invokers[k]], status) && Reached(n, status, k + 1, i))
    ensures i == s.invokers[k] ==> !Reached(n, status, k + 1, i)
  {
    hide Answers;
    assert forall l :: k < l < |s.invokers| ==> n.machines[s.invokers[l]] == s.machines[s.invokers[l]];
    if i != s.invokers[k] {
      if Reached(s, status, k, i) {
        var l :| k <= l < |s.invokers| && s.invokers[l] == i
                 && forall a :: k <= a < l ==> !Answers(s.machines[s.invokers[a]], status);
        assert k + 1 <= l && !Answers(s.machines[s.invokers[k]], status);
        assert forall a :: k + 1 <= a < l ==> !Answers(n.machines[s.invokers[a]], status);
      }
      if !Answers(s.machines[s.invokers[k]], status) && Reached(n, status, k + 1, i) {
        var l :| k + 1 <= l < |s.invokers| && n.invokers[l] == i
                 && forall a :: k + 1 <= a < l ==> !Answers(n.machines[n.invokers[a]], status);
        assert forall a :: k + 1 <= a < l ==> !Answers(s.machines[s.invokers[a]], status);
      }
    }
  }

  /** What becomes of invoker i when the status is offered to invokers[from..]. */
  predicate IsOffered(s: System, status: Status, from: nat, i: nat, r: Invoker)
    requires i in s.machines && forall k :: 0 <= k < |s.invokers| ==> s.invokers[k] in s.machines
  {
    if Reached(s, status, from, i) && s.machines[i].status.address == status.address
    then HasTaken(s.machines[i], status, r)
    else r == s.machines[i]
  }

  lemma {:induction false} OfferIsExact(s: System, status: Status, orders: map<nat, seq<Id>>, k: nat, i: nat)
    requires Wellformed(s) && k <= |s.invokers| && Distinct(s.invokers) && i in s.machines
    requires forall l :: l in s.invokers ==> l in orders
    requires forall l :: k <= l < |s.invokers| ==> IsOrder(s.machines[s.invokers[l]], orders[s.invokers[l]])
    ensures var r := Offer(s, status, orders, k).0;
            i in r.machines && IsOffered(s, status, k, i, r.machines[i])
    decreases |s.invokers| - k
  {
    hide Wired, VerifyAndUpdateStatus, HasTaken, Answers, IsOrder, Reached, Updated;
    if k < |s.invokers| {
      var l := s.invokers[k];
      VerifyIsTaken(s.machines[l], status, orders[l]);
      var (m, taken) := VerifyAndUpdateStatus(s.machines[l], status, orders[l]);
      var next := s.(machines := s.machines[l := m]);
      ReachedNext(s, next, status, k, i);
      if !taken {
        OfferIsExact(next, status, orders, k + 1, i);
      }
    } else {
      assert !Reached(s, status, k, i) by {
        NobodyLeft(s, status, i);
      }
    }
  }

  lemma NobodyLeft(s: System, status: Status, i: nat)
    requires forall k :: 0 <= k < |s.invokers| ==> s.invokers[k] in s.machines
    ensures !Reached(s, status, |s.invokers|, i)
  {
  }

  /** Some registered invoker of the status's address would take it and stay alive. */
  predicate SomeoneAnswers(s: System, status: Status, from: nat)
    requires forall k :: 0 <= k < |s.invokers| ==> s.invokers[k] in s.machines
  {
    exists k :: from <= k < |s.invokers| && Answers(s.machines[s.invokers[k]], status)
  }

  lemma {:induction false} OfferIsTakenExactly(s: System, status: Status, orders: map<nat, seq<Id>>, k: nat)
    requires Wellformed(s) && k <= |s.invokers| && Distinct(s.invokers)
    requires forall l :: l in s.invokers ==> l in orders
    requires forall l :: k <= l < |s.invokers| ==> IsOrder(s.machines[s.invokers[l]], orders[s.invokers[l]])
    ensures Offer(s, status, orders, k).1 <==> SomeoneAnswers(s, status, k)
    decreases |s.invokers| - k
  {
    hide Wired, VerifyAndUpdateStatus, HasTaken, Answers, IsOrder, Updated;
    if k < |s.invokers| {
      var l := s.invokers[k];
      VerifyIsTaken(s.machines[l], status, orders[l]);
      var (m, taken) := VerifyAndUpdateStatus(s.machines[l], status, orders[l]);
      if !taken {
        var next := s.(machines := s.machines[l := m]);
        assert forall a :: k < a < |s.invokers| ==> next.machines[s.invokers[a]] == s.machines[s.invokers[a]];
        OfferIsTakenExactly(next, status, orders, k + 1);
        assert SomeoneAnswers(next, status, k + 1) <==> SomeoneAnswers(s, status, k);
      }
    }
  }

  /** UpsertInvoker registers a new invoker exactly if no registered one of the status's address takes the status and
      stays alive. */
  lemma RegistersExactly(s: System, status: Status, orders: map<nat, seq<Id>>, k: nat)
    requires Inv(s) && Enabled(s, UpsertStep(status, orders, k))
    ensures var r := Next(s, UpsertStep(status, orders, k));
            if exists i :: i in s.invokers && Answers(s.machines[i], status)
            then r.invokers == s.invokers && r.machines.Keys == s.machines.Keys
            else r.invokers == s.invokers + [k] && k in r.machines && r.machines[k] == NewInvoker(status)
  {
    hide Valid, PlacesOK, PendingOK, InflightOK, DeliveredOK, TestingOK, Wired, Distinct, Offer, Answers, IsOrder;
    OfferIsTakenExactly(s, status, orders, 0);
    OfferKeepsInvokers(s, status, orders, 0);
    hide Inv, MachinesOK;
    if i :| i in s.invokers && Answers(s.machines[i], status) {
      var l :| 0 <= l < |s.invokers| && s.invokers[l] == i;
      assert SomeoneAnswers(s, status, 0);
    }
  }

  // ---------- one step ----------

  /** The status a step offers to an invoker: its answer to a ping or to a job, or one that UpsertInvoker brings to the
      invokers of its address until one takes it. */
  function Offered(s: System, e: Step, i: nat): Option<Status>
    requires Wellformed(s) && i in s.machines
  {
    match e
    case PingStep(k, status, _) => if k == i then Some(status) else None
    case SentStep(k, _, reply) => if k == i && reply.Success? then Some(reply.status) else None
    case UpsertStep(status, _, _) =>
      if Reached(s, status, 0, i) && s.machines[i].status.address == status.address then Some(status) else None
    case _ => None
  }

  /** Apart from statuses, an invoker is given up when its connection fails, when a job cannot be sent to it, and when a
      lost job's time is over. */
  predicate GivesUp(s: System, e: Step, i: nat)
    requires i in s.machines
  {
    match e
    case FailStep(k) => k == i
    case SentStep(k, _, reply) => k == i && reply.Failure?
    case TimeoutStep(k, id) =>
      k == i && id in s.machines[i].holders && s.machines[i].holders[id].jobType == NoReplyJob
    case _ => false
  }

  /** What the invoker is known to hold after the step, before a status it is offered is looked at. */
  function JobsAfter(s: System, e: Step, i: nat): map<Id, Holder>
    requires Wellformed(s) && i in s.machines
  {
    var m := s.machines[i];
    match e
    case SendStep(k) =>
      if k == i && s.nextJob.Some? && !m.failed && |OfType(m.holders, SendingJob)| < m.status.maxNewJobs
      then m.holders[s.queue.jobs[s.nextJob.value].id := Holder(s.nextJob.value, SendingJob)]
      else m.holders
    case SentStep(k, j, reply) =>
      if k == i && reply.Success? && j in s.queue.jobs && s.queue.jobs[j].id in m.holders
      then m.holders[s.queue.jobs[j].id := m.holders[s.queue.jobs[j].id].(jobType := TestingJob)]
      else m.holders
    case ReceiveStep(id, _) => m.holders - {id}
    case ExtractStep(k) => if k == i then map[] else m.holders
    case _ => m.holders
  }

  predicate StepIsExact(s: System, e: Step, i: nat, r: Invoker)
    requires Wellformed(s) && i in s.machines
  {
    match Offered(s, e, i)
    case Some(status) => HasTaken(s.machines[i].(holders := JobsAfter(s, e, i)), status, r)
    case None =>
      && r.status == s.machines[i].status
      && (r.failed <==> s.machines[i].failed || GivesUp(s, e, i))
      && r.holders == JobsAfter(s, e, i)
  }

  lemma SendIsExact(s: System, k: nat, i: nat)
    requires Inv(s) && Enabled(s, SendStep(k)) && i in s.machines
    ensures i in Send(s, k).machines && StepIsExact(s, SendStep(k), i, Send(s, k).machines[i])
  {
    hide Valid, PlacesOK, PendingOK, InflightOK, DeliveredOK, TestingOK, Wired, Distinct;
    assert MachineOK(s.machines, s.invokers, s.invokerByJobID, s.extracted, k);
    assert TypeCounted(s.machines[k], SendingJob);
    hide Counted;
  }

  lemma ReceiveIsExact(s: System, id: Id, result: JobResult, i: nat)
    requires Inv(s) && Wellformed(s) && i in s.machines
    ensures var r := Receive(s, id, result).machines;
            i in r && StepIsExact(s, ReceiveStep(id, result), i, r[i])
  {
    hide Valid, PlacesOK, PendingOK, InflightOK, DeliveredOK, TestingOK, Wired, Distinct, Counted;
    assert MachineOK(s.machines, s.invokers, s.invokerByJobID, s.extracted, i);
    if id !in s.machines[i].holders {
      assert s.machines[i].holders - {id} == s.machines[i].holders;
    }
    ReceiveKeepsInvokers(s, id, result);
    if id in s.invokerByJobID {
      AnswerForgets(s, id, result);
    }
    hide Receive, Inv, Dependents;
  }

  lemma AnswerForgets(s: System, id: Id, result: JobResult)
    requires Inv(s) && Wellformed(s) && id in s.invokerByJobID
    ensures var i := s.invokerByJobID[id];
            Receive(s, id, result).machines == s.machines[i := JobTested(s.machines[i], id).0]
  {
    hide Valid, PlacesOK, PendingOK, InflightOK, DeliveredOK, MachinesOK, Wired, JobTested;
    assert Dependents(s, id) <= s.invokerByJobID.Keys;
  }

  /** The job as it is known once the reply to its send has come. */
  function Replied(m: Invoker, id: Id): Invoker {
    if id in m.holders then m.(holders := m.holders[id := m.holders[id].(jobType := TestingJob)]) else m
  }

  lemma ReplyIsTaken(m: Invoker, id: Id, status: Status, order: seq<Id>)
    requires IsOrder(m, order) && (id in m.holders ==> m.holders[id].jobType == SendingJob)
    ensures var r := CompleteSendJob(m, id, Success(status, order));
            r.Some? && HasTaken(Replied(m, id), status, r.value)
  {
    hide UpdateStatus;
    if id in m.holders {
      var testing := SetJobType(m, id, TestingJob);
      assert testing.holders.Keys == m.holders.Keys;
      UpdateIsTaken(testing, status, order);
      assert testing.holders == Replied(m, id).holders;
    } else {
      UpdateIsTaken(m, status, order);
    }
  }

  lemma ReplyIsExact(s: System, k: nat, j: Id, reply: Reply, i: nat)
    requires Inv(s) && Enabled(s, SentStep(k, j, reply)) && i in s.machines
    ensures var r := Sent(s, k, j, reply).machines;
            i in r && StepIsExact(s, SentStep(k, j, reply), i, r[i])
  {
    hide Valid, PlacesOK, PendingOK, DeliveredOK, TestingOK, MachinesOK, Wired, UpdateStatus, HasTaken, IsOrder;
    assert Unanswered(s.queue.jobs, s.machines, k, j);
    if reply.Success? {
      ReplyIsTaken(s.machines[k], s.queue.jobs[j].id, reply.status, reply.order);
    }
    hide InflightOK;
  }

  lemma UpsertIsExact(s: System, status: Status, orders: map<nat, seq<Id>>, k: nat, i: nat)
    requires Inv(s) && Enabled(s, UpsertStep(status, orders, k)) && i in s.machines
    ensures var r := Upsert(s, status, orders, k).machines;
            i in r && StepIsExact(s, UpsertStep(status, orders, k), i, r[i])
  {
    hide Valid, PlacesOK, PendingOK, InflightOK, DeliveredOK, TestingOK, Wired, Distinct, HasTaken, Reached, Offer;
    OfferIsExact(s, status, orders, 0, i);
    hide Inv;
  }

  lemma SameMachineIsExact(s: System, e: Step, i: nat)
    requires Wellformed(s) && i in s.machines
    requires e.SubmitStep? || e.FetchStep? || e.ApplyStep? || e.RescheduleStep?
    ensures StepIsExact(s, e, i, s.machines[i])
  {
    hide Wired;
  }

  lemma OwnStepIsExact(s: System, e: Step, i: nat)
    requires Enabled(s, e) && i in s.machines
    requires e.FailStep? || e.ExtractStep? || e.PingStep? || e.TimeoutStep?
    ensures i in Next(s, e).machines && StepIsExact(s, e, i, Next(s, e).machines[i])
  {
    hide Wired, Generators.IsFresh, Distinct, UpdateStatus, IsOrder, HasTaken, Reached, OfType;
    if e.PingStep? {
      UpdateIsTaken(s.machines[e.invoker], e.status, e.order);
    }
  }

  /** Every step does to every invoker exactly what is stated here. */
  lemma EveryStepIsExact(s: System, e: Step, i: nat)
    requires Inv(s) && Enabled(s, e) && i in s.machines
    ensures i in Next(s, e).machines && StepIsExact(s, e, i, Next(s, e).machines[i])
  {
    hide Inv, Wired, Fetch, Receive, Send, Sent, Apply, Unregister, Upsert, Submit, Generators.IsFresh, Distinct,
      UpdateStatus, IsOrder, StepIsExact;
    match e
    case SubmitStep(g, kind, submitId) => SameMachineIsExact(s, e, i);
    case FetchStep(newID) =>
      FetchKeepsMachines(s, newID);
      SameMachineIsExact(s, e, i);
    case SendStep(k) => SendIsExact(s, k, i);
    case ReceiveStep(id, result) => ReceiveIsExact(s, id, result, i);
    case ApplyStep(id) =>
      ApplyKeepsMachines(s, id);
      SameMachineIsExact(s, e, i);
    case RescheduleStep(k, order, newIDs) =>
      UnregisterKeepsInv(s, k, order, newIDs);
      SameMachineIsExact(s, e, i);
    case UpsertStep(status, orders, k) => UpsertIsExact(s, status, orders, k, i);
    case SentStep(k, j, reply) => ReplyIsExact(s, k, j, reply, i);
    case _ => OwnStepIsExact(s, e, i);
  }

  // ---------- when an invoker is given up ----------

  /** The status the step brings to invoker i lists a job as active that had dropped out of an earlier one. */
  predicate BringsBack(s: System, e: Step, i: nat)
    requires Wellformed(s) && i in s.machines
  {
    Offered(s, e, i).Some? && JobReturns(s.machines[i], Offered(s, e, i).value)
  }

  /** A step gives up an invoker exactly if the connection fails, a job cannot be sent, the time of a lost job is over,
      or a newer status lists a lost job as active. */
  lemma GivenUpExactly(s: System, e: Step, i: nat)
    requires Inv(s) && Enabled(s, e) && i in s.machines && !s.machines[i].failed
    ensures i in Next(s, e).machines
    ensures Next(s, e).machines[i].failed <==>
              || e == FailStep(i)
              || (e.SentStep? && e.invoker == i && e.reply == Failure)
              || (e.TimeoutStep? && e.invoker == i && e.id in s.machines[i].holders
                  && s.machines[i].holders[e.id].jobType == NoReplyJob)
              || BringsBack(s, e, i)
  {
    hide Inv, Wellformed, Next, HasTaken, Reached, JobReturns;
    EveryStepIsExact(s, e, i);
    InvIsWellformed(s);
    if Offered(s, e, i).Some? {
      ReplyBringsNothingBack(s, e, i);
      TakenIsFailed(s.machines[i].(holders := JobsAfter(s, e, i)), Offered(s, e, i).value, Next(s, e).machines[i]);
    }
  }

  lemma TakenIsFailed(m: Invoker, status: Status, r: Invoker)
    requires HasTaken(m, status, r)
    ensures r.failed <==> m.failed || JobReturns(m, status)
  {
  }

  /** Knowing that a job is testing is no matter for the jobs that dropped out. */
  lemma ReplyBringsNothingBack(s: System, e: Step, i: nat)
    requires Inv(s) && Enabled(s, e) && i in s.machines && Offered(s, e, i).Some?
    ensures var status := Offered(s, e, i).value;
            JobReturns(s.machines[i].(holders := JobsAfter(s, e, i)), status) <==> JobReturns(s.machines[i], status)
  {
    hide Valid, PlacesOK, PendingOK, DeliveredOK, TestingOK, MachinesOK, Wired, Reached, IsOrder;
    if e.SentStep? {
      assert Unanswered(s.queue.jobs, s.machines, e.invoker, e.job);
      var m, after := s.machines[i], JobsAfter(s, e, i);
      assert after.Keys == m.holders.Keys;
      assert forall id :: id in m.holders ==>
        (after[id].jobType == NoReplyJob <==> m.holders[id].jobType == NoReplyJob);
    }
  }

  lemma AliveIsRegistered(s: System, i: nat)
    requires Inv(s) && i in s.machines && !s.machines[i].failed
    ensures i in s.invokers && i !in s.extracted
  {
    assert MachineOK(s.machines, s.invokers, s.invokerByJobID, s.extracted, i);
  }

  lemma StaysRegistered(s: System, e: Step, i: nat)
    requires Inv(s) && Enabled(s, e) && i in s.invokers && i !in s.extracted
    requires e.FailStep? || e.SentStep? || e.TimeoutStep? || e.PingStep? || e.UpsertStep?
    ensures i in Next(s, e).invokers && i !in Next(s, e).extracted
  {
    hide Inv, Wired, Sent, Upsert, Offer, UpdateStatus, Generators.IsFresh, IsOrder, Distinct;
    match e
    case SentStep(k, j, reply) => SentKeepsRegistry(s, k, j, reply);
    case UpsertStep(status, orders, k) => UpsertKeepsRegistry(s, status, orders, k);
    case _ =>
  }

  lemma SentKeepsRegistry(s: System, i: nat, j: Id, reply: Reply)
    requires Wellformed(s) && (i, j) in s.inflight
    ensures Sent(s, i, j, reply).invokers == s.invokers && Sent(s, i, j, reply).extracted == s.extracted
  {
    hide Wired, CompleteSendJob;
  }

  lemma UpsertKeepsRegistry(s: System, status: Status, orders: map<nat, seq<Id>>, k: nat)
    requires Inv(s) && Wellformed(s) && forall l :: l in s.invokers ==> l in orders
    ensures var r := Upsert(s, status, orders, k);
            s.invokers <= r.invokers && r.extracted == s.extracted
  {
    hide Inv, Wired, Offer;
    OfferKeepsInv(s, status, orders, 0);
  }

  /** Whoever is given up is registered, and his jobs can be extracted at once. */
  lemma GivenUpIsExtracted(s: System, e: Step, i: nat)
    requires Inv(s) && Enabled(s, e) && i in s.machines && !s.machines[i].failed && Next(s, e).fault == Fine
    requires i in Next(s, e).machines && Next(s, e).machines[i].failed
    ensures Enabled(Next(s, e), ExtractStep(i))
  {
    hide Inv, Wellformed, Next, Offered, JobReturns;
    StepKeepsInv(s, e);
    InvIsWellformed(Next(s, e));
    AliveIsRegistered(s, i);
    GivenUpExactly(s, e, i);
    OnlyTheseOffer(s, e, i);
    StaysRegistered(s, e, i);
  }

  lemma OnlyTheseOffer(s: System, e: Step, i: nat)
    requires Wellformed(s) && i in s.machines
    ensures Offered(s, e, i).Some? ==> e.PingStep? || e.SentStep? || e.UpsertStep?
  {
    hide Wired, Reached;
  }

  // ---------- the jobs of a failed invoker ----------

  /** Rescheduling a job leaves the names of the others alone. */
  lemma RescheduleOneQueues(s: System, i: nat, a: Id, newID: Id, id: Id)
    requires Inv(s) && Wellformed(s) && InExtracted(s.extracted, i, a) && newID !in s.used
    requires id in s.invokerByJobID
    ensures var r, j := RescheduleOne(s, i, a, newID), Original(s.queue, id);
            && s.queue.newFailedJobs <= r.queue.newFailedJobs
            && (if a == id then j in r.queue.newFailedJobs
                else id in r.invokerByJobID && Original(r.queue, id) == j)
  {
    hide MachinesOK, InflightOK, DeliveredOK, Generators.Healthy, AliasesOK, GeneratorsOK, Distinct, Wired;
    HeldIsUsed(s, id);
    if a in s.invokerByJobID {
      assert Current(s.queue, a);
    }
  }

  lemma HeldIsUsed(s: System, id: Id)
    requires Inv(s) && id in s.invokerByJobID
    ensures id in s.used && IsLive(s.queue, Original(s.queue, id))
  {
    PlacedIdsAreUsed(s, id);
    assert Current(s.queue, id);
  }

  /** The job is queued again, or its turn in the loop over order[k..] is still to come. */
  predicate ToBeQueued(s: System, order: seq<Id>, k: nat, id: Id, j: Id)
    requires k <= |order|
  {
    || j in s.queue.newFailedJobs
    || (id in s.invokerByJobID && id in order[k..] && Original(s.queue, id) == j)
  }

  lemma QueuedNext(s: System, i: nat, order: seq<Id>, newIDs: seq<Id>, k: nat, id: Id, j: Id)
    requires k < |order| == |newIDs| && Inv(s) && Wellformed(s) && InExtracted(s.extracted, i, order[k])
    requires newIDs[k] !in s.used && ToBeQueued(s, order, k, id, j)
    ensures ToBeQueued(RescheduleOne(s, i, order[k], newIDs[k]), order, k + 1, id, j)
  {
    hide Inv, Wellformed, RescheduleOne;
    assert order[k..] == [order[k]] + order[k + 1..];
    if id in s.invokerByJobID {
      RescheduleOneQueues(s, i, order[k], newIDs[k], id);
    } else {
      RescheduleOneKeepsQueued(s, i, order[k], newIDs[k]);
    }
  }

  lemma RescheduleOneKeepsQueued(s: System, i: nat, a: Id, newID: Id)
    requires Wellformed(s) && i in s.extracted
    ensures s.queue.newFailedJobs <= RescheduleOne(s, i, a, newID).queue.newFailedJobs
  {
    hide Wired;
  }

  lemma {:induction false} RescheduleQueues(
      s: System, i: nat, order: seq<Id>, newIDs: seq<Id>, k: nat, id: Id, j: Id)
    requires k <= |order| == |newIDs| && Inv(s) && Wellformed(s) && StillToReschedule(s, i, order, newIDs, k)
    requires ToBeQueued(s, order, k, id, j)
    ensures i in s.extracted
    ensures j in Reschedule(s, i, order, newIDs, k).queue.newFailedJobs
    decreases |order| - k
  {
    hide Inv, Wellformed, RescheduleOne, InExtracted;
    if k < |order| {
      NextToReschedule(s, i, order, newIDs, k);
      var r := RescheduleOne(s, i, order[k], newIDs[k]);
      RescheduleOneKeepsInv(s, i, order[k], newIDs[k]);
      QueuedNext(s, i, order, newIDs, k, id, j);
      ReschedulingGoesOn(s, r, i, order, newIDs, k);
      hide StillToReschedule, ToBeQueued;
      RescheduleQueues(r, i, order, newIDs, k + 1, id, j);
    } else {
      hide StillToReschedule;
      assert order[k..] == [];
    }
  }

  /** After both sections of OnInvokerFailure the invoker is not registered, and every job it had is waiting to be given
      out again, unless the result came in between. */
  lemma ExtractedJobsAreQueued(s: System, i: nat, order: seq<Id>, newIDs: seq<Id>, id: Id)
    requires Inv(s) && Enabled(s, RescheduleStep(i, order, newIDs)) && id in s.extracted[i]
    ensures var r := Unregister(s, i, order, newIDs);
            && i !in r.invokers
            && (id in s.invokerByJobID ==> Original(s.queue, id) in r.queue.newFailedJobs)
  {
    hide Inv, Wired, Distinct, Reschedule, InExtracted;
    assert order[0..] == order && newIDs[0..] == newIDs;
    RescheduleKeepsInv(s, i, order, newIDs, 0);
    WithoutIsRemoval(s.invokers, i);
    if id in s.invokerByJobID {
      assert id in Elements(order);
      RescheduleQueues(s, i, order, newIDs, 0, id, Original(s.queue, id));
    }
  }

  lemma FailedIsExtracted(s: System, i: nat)
    requires Inv(s) && Wellformed(s) && s.fault == Fine && i in s.invokers && s.machines[i].failed && i !in s.extracted
    ensures Enabled(s, ExtractStep(i))
    ensures var r := Next(s, ExtractStep(i));
            && Inv(r) && Wellformed(r) && r.fault == Fine && r.queue == s.queue && r.used == s.used
            && r.invokerByJobID == s.invokerByJobID && i in r.extracted && r.extracted[i] == s.machines[i].holders.Keys
  {
    hide Inv, Wired;
    ExtractKeepsInv(s, i);
    InvIsWellformed(Extract(s, i));
  }

  lemma LostJobFails(s: System, i: nat, lost: Id)
    requires Inv(s) && Enabled(s, TimeoutStep(i, lost)) && !s.machines[i].failed
    requires lost in s.machines[i].holders && s.machines[i].holders[lost].jobType == NoReplyJob
    ensures var r := Next(s, TimeoutStep(i, lost));
            && r == s.(machines := s.machines[i := MarkFailed(s.machines[i])])
            && Inv(r) && Wellformed(r) && i in r.invokers && i !in r.extracted
  {
    hide Inv, Wired;
    AliveIsRegistered(s, i);
    FailKeepsInv(s, i);
  }

  lemma ThreeSteps(s: System, a: Step, b: Step, c: Step)
    requires Enabled(s, a) && Enabled(Next(s, a), b) && Enabled(Next(Next(s, a), b), c)
    ensures Run(s, [a, b, c], Next(Next(Next(s, a), b), c))
  {
    hide Enabled, Next;
    TwoSteps(Next(s, a), b, c);
    assert [a, b, c][1..] == [b, c];
  }

  /** The time of a lost job is over: its invoker is given up, and once the failure is handled the job waits to be given
      out again, and so does every other one the invoker had. */
  lemma LostJobIsGivenOutAgain(s: System, i: nat, lost: Id, order: seq<Id>, newIDs: seq<Id>) returns (r: System)
    requires Inv(s) && Enabled(s, TimeoutStep(i, lost)) && !s.machines[i].failed
    requires lost in s.machines[i].holders && s.machines[i].holders[lost].jobType == NoReplyJob
    requires Distinct(order) && Elements(order) == s.machines[i].holders.Keys
    requires |newIDs| == |order| && Distinct(newIDs) && Elements(newIDs) !! s.used
    ensures Run(s, [TimeoutStep(i, lost), ExtractStep(i), RescheduleStep(i, order, newIDs)], r)
    ensures Inv(r) && i !in r.invokers
    ensures forall id :: id in s.machines[i].holders ==> Original(s.queue, id) in r.queue.newFailedJobs
  {
    hide Inv, Wellformed, Distinct, Next;
    LostJobFails(s, i, lost);
    var failed := Next(s, TimeoutStep(i, lost));
    FailedIsExtracted(failed, i);
    var extracted := Next(failed, ExtractStep(i));
    assert Enabled(extracted, RescheduleStep(i, order, newIDs));
    ThreeSteps(s, TimeoutStep(i, lost), ExtractStep(i), RescheduleStep(i, order, newIDs));
    r := Next(extracted, RescheduleStep(i, order, newIDs));
    assert r == Unregister(extracted, i, order, newIDs) by {
      UnregisterIsNext(extracted, i, order, newIDs);
    }
    UnregisterKeepsInv(extracted, i, order, newIDs);
    HeldAreMapped(s, i);
    forall id | id in s.machines[i].holders
      ensures Original(s.queue, id) in r.queue.newFailedJobs
    {
      ExtractedJobsAreQueued(extracted, i, order, newIDs, id);
    }
    ExtractedJobsAreQueued(extracted, i, order, newIDs, lost);
  }

  lemma UnregisterIsNext(s: System, i: nat, order: seq<Id>, newIDs: seq<Id>)
    requires Enabled(s, RescheduleStep(i, order, newIDs))
    ensures Next(s, RescheduleStep(i, order, newIDs)) == Unregister(s, i, order, newIDs)
  {
    hide Enabled, Unregister;
  }

  lemma HeldAreMapped(s: System, i: nat)
    requires Inv(s) && i in s.machines
    ensures s.machines[i].holders.Keys <= s.invokerByJobID.Keys
  {
    hide Counted;
    assert MachineOK(s.machines, s.invokers, s.invokerByJobID, s.extracted, i);
  }
}
