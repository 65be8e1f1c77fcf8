/** What every run of the dispatch protocol guarantees, whatever invokers answer and whenever they fail. */
module DispatchTheorems {
  import opened Models
  import opened Lists
  import opened MasterQueue
  import opened QueueLaws
  import opened InvokerMachine
  import opened Dispatch
  import opened DispatchInvariant
  import opened DispatchSteps
  import Generators
  import Icpc = IcpcMachine

  lemma RunIsSafe(steps: seq<Step>, s: System)
    requires Run(Initial, steps, s)
    ensures Safe(s)
  {
    InitialIsSafe();
    hide Safe;
    RunKeepsSafe(Initial, steps, s);
  }

  /** None of the panics of queue, registry and invokers is reachable. */
  lemma OnlyGeneratorsPanic(steps: seq<Step>, s: System)
    requires Run(Initial, steps, s)
    ensures s.fault == Fine || s.fault == GeneratorPanicked
  {
    RunIsSafe(steps, s);
  }

  // ---------- conservation ----------

  /** The job is in exactly one of newFailedJobs, nextJob, invokerByJobID and the results taken in but not applied. */
  predicate InOnePlace(s: System, j: Id)
    requires j in s.queue.jobs
  {
    One(j in s.queue.newFailedJobs) + One(s.nextJob == Some(j))
      + One(s.queue.jobs[j].id in s.invokerByJobID) + One(s.queue.jobs[j].id in s.accepted) == 1
  }

  /** It is in none of them: nobody will ever complete it. */
  predicate Nowhere(s: System, j: Id)
    requires j in s.queue.jobs
  {
    && j !in s.queue.newFailedJobs && s.nextJob != Some(j)
    && s.queue.jobs[j].id !in s.invokerByJobID && s.queue.jobs[j].id !in s.accepted
  }

  predicate Conserved(s: System) {
    forall j :: j in s.queue.originalJobIDToJob ==> j in s.queue.jobs && InOnePlace(s, j)
  }

  lemma LiveIsPlaced(s: System, j: Id)
    requires Inv(s) && IsLive(s.queue, j)
    ensures j in s.queue.jobs
    ensures InOnePlace(s, j) <==> j !in s.dropped
    ensures Nowhere(s, j) <==> j in s.dropped
  {
    hide Valid, MachinesOK, InflightOK, PendingOK, DeliveredOK, TestingOK;
    assert PlacedOnce(s.queue, s.nextJob, s.invokerByJobID, s.accepted, s.dropped, j);
  }

  lemma ConservedMeansNoneDropped(s: System)
    requires Inv(s)
    ensures Conserved(s) <==> s.dropped == {}
  {
    DroppedAreLive(s);
    hide Inv, InOnePlace, Nowhere;
    forall j | IsLive(s.queue, j)
      ensures j in s.queue.jobs && (InOnePlace(s, j) <==> j !in s.dropped)
    {
      LiveIsPlaced(s, j);
    }
  }

  lemma DroppedAreLive(s: System)
    requires Inv(s)
    ensures s.dropped <= s.queue.originalJobIDToJob <= s.queue.jobs.Keys
  {
  }

  /** The registry knows whose the job is, but the invoker has been stripped of it: the result is discarded. */
  predicate Discards(s: System, e: Step)
    requires Wellformed(s)
  {
    e.ReceiveStep? && BadReceive(s, e.id)
  }

  /** Only such a result discards a job, and a discarded job is never completed or handed out again. */
  lemma OnlyDiscardsDrop(s: System, e: Step)
    requires Inv(s) && Enabled(s, e)
    ensures Next(s, e).dropped == if Discards(s, e) then s.dropped + {Original(s.queue, e.id)} else s.dropped
  {
    hide Inv, Wired, Fetch, Send, Receive, Apply, Extract, Unregister, Upsert, Sent, Generators.IsFresh, Distinct,
      UpdateStatus, IsOrder, BadReceive;
    match e
    case FetchStep(newID) => FetchKeepsDropped(s, newID);
    case SendStep(i) => SendKeepsDropped(s, i);
    case ReceiveStep(id, result) => ReceiveKeepsInv(s, id, result);
    case ApplyStep(id) => ApplyKeepsDropped(s, id);
    case ExtractStep(i) => ExtractKeepsInv(s, i);
    case RescheduleStep(i, order, newIDs) => UnregisterKeepsInv(s, i, order, newIDs);
    case UpsertStep(status, orders, i) => UpsertKeepsDropped(s, status, orders, i);
    case SentStep(i, j, reply) => SentKeepsDropped(s, i, j, reply);
    case _ =>
  }

  /** What only submitting, fetching, applying and rescheduling change. */
  predicate SameBooks(s: System, r: System) {
    r.queue == s.queue && r.used == s.used && r.submitted == s.submitted && r.returned == s.returned
  }

  lemma FetchKeepsDropped(s: System, newID: Id)
    requires Wellformed(s)
    ensures Fetch(s, newID).dropped == s.dropped
  {
    hide Wired;
  }

  lemma SendKeepsDropped(s: System, i: nat)
    requires Wellformed(s) && s.nextJob.Some? && i in s.machines
    ensures Send(s, i).dropped == s.dropped && SameBooks(s, Send(s, i))
  {
    hide Wired;
  }

  lemma ApplyKeepsDropped(s: System, id: Id)
    requires Wellformed(s) && id in s.accepted
    ensures Apply(s, id).dropped == s.dropped
  {
    hide JobCompleted, Wired;
  }

  lemma UpsertKeepsDropped(s: System, status: Status, orders: map<nat, seq<Id>>, i: nat)
    requires Inv(s) && Wellformed(s) && forall k :: k in s.invokers ==> k in orders
    ensures Upsert(s, status, orders, i).dropped == s.dropped && SameBooks(s, Upsert(s, status, orders, i))
  {
    hide Inv, Wired, Offer;
    OfferKeepsInv(s, status, orders, 0);
  }

  lemma SentKeepsDropped(s: System, i: nat, j: Id, reply: Reply)
    requires Wellformed(s) && (i, j) in s.inflight
    ensures var r := Sent(s, i, j, reply);
            r.dropped == s.dropped && SameBooks(s, r) && r.accepted == s.accepted && r.stopped == s.stopped
  {
    hide Wired, CompleteSendJob;
  }

  /** Conservation is kept by every step but exactly the result that comes between extracting a job from its
      failed invoker and rescheduling it. */
  lemma StepConservesExactly(s: System, e: Step)
    requires Inv(s) && Enabled(s, e) && Next(s, e).fault == Fine && Conserved(s)
    ensures Conserved(Next(s, e)) <==> !Discards(s, e)
  {
    hide Inv, Enabled, Next, Conserved, Wired;
    StepKeepsInv(s, e);
    ConservedMeansNoneDropped(s);
    ConservedMeansNoneDropped(Next(s, e));
    OnlyDiscardsDrop(s, e);
  }

  lemma StepKeepsInv(s: System, e: Step)
    requires Inv(s) && Enabled(s, e) && Next(s, e).fault == Fine
    ensures Inv(Next(s, e))
  {
    hide Inv, Next, Wellformed;
    StepKeepsSafe(s, e);
  }

  /** The result of the job breaks conservation in a reachable state only while the job waits to be rescheduled. */
  lemma DiscardedWhileExtracted(s: System, id: Id)
    requires Inv(s) && Wellformed(s)
    ensures BadReceive(s, id) <==> id in s.invokerByJobID && InExtracted(s.extracted, s.invokerByJobID[id], id)
  {
    hide Valid, PlacesOK, InflightOK, DeliveredOK, TestingOK, PendingOK, Counted, Distinct;
    if id in s.invokerByJobID {
      assert MachineOK(s.machines, s.invokers, s.invokerByJobID, s.extracted, s.invokerByJobID[id]);
      assert || HeldBy(s.machines, s.invokerByJobID, s.testingJobs, id)
             || InExtracted(s.extracted, s.invokerByJobID[id], id);
    }
  }

  /** No result in the run is discarded. */
  predicate NeverDiscards(s: System, steps: seq<Step>, r: System)
    requires Run(s, steps, r)
    decreases |steps|
  {
    steps == [] || (!Discards(s, steps[0]) && NeverDiscards(Next(s, steps[0]), steps[1..], r))
  }

  lemma {:induction false} FaultIsFinal(s: System, steps: seq<Step>, r: System)
    requires Run(s, steps, r) && r.fault == Fine
    ensures s.fault == Fine
  {
  }

  /** Along a run the discarded jobs only grow, and they grow exactly if some result is discarded. */
  lemma {:induction false} RunDropsExactly(s: System, steps: seq<Step>, r: System)
    requires Inv(s) && Run(s, steps, r) && r.fault == Fine
    ensures Inv(r) && s.dropped <= r.dropped
    ensures r.dropped == s.dropped <==> NeverDiscards(s, steps, r)
    decreases |steps|
  {
    if steps != [] {
      hide Inv, Enabled, Next, Discards;
      FaultIsFinal(Next(s, steps[0]), steps[1..], r);
      StepKeepsInv(s, steps[0]);
      OnlyDiscardsDrop(s, steps[0]);
      if Discards(s, steps[0]) {
        DiscardedWasNotDropped(s, steps[0]);
      }
      RunDropsExactly(Next(s, steps[0]), steps[1..], r);
    }
  }

  lemma DiscardedWasNotDropped(s: System, e: Step)
    requires Inv(s) && Enabled(s, e) && Discards(s, e)
    ensures Original(s.queue, e.id) !in s.dropped
  {
    hide Valid, MachinesOK, InflightOK, PendingOK, DeliveredOK, TestingOK, Wired;
    assert Current(s.queue, e.id);
    assert PlacedOnce(s.queue, s.nextJob, s.invokerByJobID, s.accepted, s.dropped, Original(s.queue, e.id));
  }

  /** In every run all live jobs are conserved exactly if no result comes in between extracting a job from its failed
      invoker and rescheduling it. */
  lemma RunConservesExactly(steps: seq<Step>, s: System)
    requires Run(Initial, steps, s) && s.fault == Fine
    ensures Conserved(s) <==> NeverDiscards(Initial, steps, s)
  {
    InitialIsSafe();
    hide Inv, Run, NeverDiscards, Conserved;
    RunDropsExactly(Initial, steps, s);
    ConservedMeansNoneDropped(s);
  }

  /** A job some generator waits for has one current ID, and the generators wait for nothing else than live jobs. The
      job is in exactly one place, or its result was discarded and it is nowhere; no result is discarded exactly if
      every job that is awaited is in exactly one place. */
  lemma EveryAwaitedJobIsInOnePlace(steps: seq<Step>, s: System, g: nat, j: Id)
    requires Run(Initial, steps, s) && s.fault == Fine && g in s.queue.generators
    ensures j in Generators.Given(s.queue.generators[g]) <==>
            IsLive(s.queue, j) && j in s.queue.originalJobIDToGenerator && s.queue.originalJobIDToGenerator[j] == g
    ensures IsLive(s.queue, j) ==>
              && j in s.queue.jobs && Original(s.queue, s.queue.jobs[j].id) == j
              && (forall id :: Current(s.queue, id) && Original(s.queue, id) == j ==> id == s.queue.jobs[j].id)
              && (if j in s.dropped then Nowhere(s, j) else InOnePlace(s, j))
              && (NeverDiscards(Initial, steps, s) ==> InOnePlace(s, j))
  {
    RunIsSafe(steps, s);
    hide Run, NeverDiscards, PlacesOK, MachinesOK, InflightOK, PendingOK, DeliveredOK, TestingOK;
    RunConservesExactly(steps, s);
    assert AwaitsItsJobs(s.queue, g);
    if IsLive(s.queue, j) {
      LiveJobsAreCurrent(s.queue, s.used, j);
      LiveIsPlaced(s, j);
    }
  }

  /** Once its result is discarded, a job stays live and is nowhere in every later state. */
  lemma DiscardedIsLostForever(steps: seq<Step>, s: System, more: seq<Step>, r: System, j: Id)
    requires Run(Initial, steps, s) && Run(s, more, r) && r.fault == Fine && j in s.dropped
    ensures IsLive(r.queue, j) && j in r.queue.jobs && Nowhere(r, j)
  {
    RunIsSafe(steps, s);
    hide Inv, Run, NeverDiscards, Nowhere, InOnePlace;
    FaultIsFinal(s, more, r);
    RunDropsExactly(s, more, r);
    DroppedAreLive(r);
    LiveIsPlaced(r, j);
  }

  /** In every run, over any number of reschedules: aliasing is injective, each alias is the ID of the job stored under
      its original ID and no original ID itself, and both maps by original ID have one domain. */
  lemma AliasesAreRight(steps: seq<Step>, s: System)
    requires Run(Initial, steps, s) && s.fault == Fine
    ensures s.queue.originalJobIDToGenerator.Keys == s.queue.originalJobIDToJob <= s.queue.jobs.Keys
    ensures forall id :: id in s.queue.jobIDToOriginalJobID ==>
              var j := s.queue.jobIDToOriginalJobID[id];
              j in s.queue.originalJobIDToJob && j in s.queue.jobs && s.queue.jobs[j].id == id && id !in s.queue.jobs
    ensures forall a, b ::
              (a in s.queue.jobIDToOriginalJobID && b in s.queue.jobIDToOriginalJobID
               && s.queue.jobIDToOriginalJobID[a] == s.queue.jobIDToOriginalJobID[b]) ==> a == b
  {
    RunIsSafe(steps, s);
    hide PlacesOK, MachinesOK, InflightOK, GeneratorsOK, Wired;
    forall id | id in s.queue.jobIDToOriginalJobID
      ensures AliasOK(s.queue, s.used, id)
    {
    }
  }

  /** The registry, an invoker object and the queue agree on who holds which job, except while the jobs of the invoker
      have been extracted and wait to be rescheduled. */
  lemma RegistryAndInvokersAgree(steps: seq<Step>, s: System, i: nat, id: Id)
    requires Run(Initial, steps, s) && s.fault == Fine && i in s.machines
    ensures id in s.machines[i].holders <==> id in s.invokerByJobID && s.invokerByJobID[id] == i && i !in s.extracted
    ensures id in s.machines[i].holders ==>
              Current(s.queue, id) && i in s.invokers && s.machines[i].holders[id].job == Original(s.queue, id)
    ensures Counted(s.machines[i])
  {
    RunIsSafe(steps, s);
    assert MachineOK(s.machines, s.invokers, s.invokerByJobID, s.extracted, i);
    if id in s.invokerByJobID {
      assert || HeldBy(s.machines, s.invokerByJobID, s.testingJobs, id)
             || InExtracted(s.extracted, s.invokerByJobID[id], id);
      assert Current(s.queue, id);
    }
    hide Counted;
  }

  /** No job's result reaches its generator twice, nor after which the job is issued or sent again. */
  lemma ResultsAreDeliveredOnce(steps: seq<Step>, s: System)
    requires Run(Initial, steps, s) && s.fault == Fine
    ensures Distinct(s.delivered)
    ensures forall j :: j in s.delivered ==>
              j !in s.queue.newFailedJobs && s.nextJob != Some(j)
              && forall id :: (id in s.invokerByJobID || id in s.accepted) ==> Original(s.queue, id) != j
  {
    RunIsSafe(steps, s);
    hide Distinct, Valid, MachinesOK, InflightOK;
    forall j, id | j in s.delivered && (id in s.invokerByJobID || id in s.accepted)
      ensures Original(s.queue, id) != j
    {
      assert Current(s.queue, id);
    }
  }

  /** A result for an ID that has been superseded, or a second result for an accepted one, changes nothing. */
  lemma StaleResultsAreIgnored(steps: seq<Step>, s: System, id: Id, result: JobResult)
    requires Run(Initial, steps, s) && s.fault == Fine && Wellformed(s)
    requires !Current(s.queue, id) || id in s.accepted
    ensures Receive(s, id, result) == s
  {
    RunIsSafe(steps, s);
    assert id in s.invokerByJobID ==> Current(s.queue, id);
    if id in s.accepted {
      AcceptedIdIsNotHeld(s, id);
    }
  }

  // ---------- a run that loses a job ----------

  /** In any reachable state: extracting the jobs of a failed invoker and then receiving the result of one of them is a
      run after which the job is lost. */
  lemma AnyExtractedJobCanBeLost(s: System, i: nat, id: Id, result: JobResult) returns (r: System)
    requires Inv(s) && Wellformed(s) && s.fault == Fine
    requires i in s.invokers && s.machines[i].failed && i !in s.extracted && id in s.machines[i].holders
    ensures Run(s, [ExtractStep(i), ReceiveStep(id, result)], r)
    ensures r.fault == Fine && r.queue == s.queue && r.dropped == s.dropped + {Original(s.queue, id)}
    ensures r.nextJob == s.nextJob && r.accepted == s.accepted && r.used == s.used && r.returned == s.returned
    ensures r.invokerByJobID == s.invokerByJobID - {id}
  {
    hide Inv, Wired, Extract, Receive, Distinct;
    HeldByOnlyOne(s, i, id);
    ExtractKeepsInv(s, i);
    ExtractChanges(s, i);
    var extracted := Extract(s, i);
    ReceiveKeepsInv(extracted, id, result);
    ReceiveChanges(extracted, id, result);
    r := Receive(extracted, id, result);
    TwoSteps(s, ExtractStep(i), ReceiveStep(id, result));
  }

  lemma ExtractChanges(s: System, i: nat)
    requires Wellformed(s) && i in s.machines
    ensures var r := Extract(s, i);
            && Wellformed(r) && r.machines[i].holders == map[]
            && r == s.(machines := r.machines, extracted := r.extracted)
  {
    hide Wired;
  }

  lemma ReceiveChanges(s: System, id: Id, result: JobResult)
    requires Wellformed(s)
    ensures var r := Receive(s, id, result);
            && SameBooks(s, r) && r.nextJob == s.nextJob && r.extracted == s.extracted
            && (r.fault == Fine && s.fault == Fine ==> r.invokerByJobID == s.invokerByJobID - {id})
  {
    hide Wired, Dependents, JobTested;
  }

  lemma TwoSteps(s: System, e: Step, f: Step)
    requires Enabled(s, e) && Enabled(Next(s, e), f)
    ensures Run(s, [e, f], Next(Next(s, e), f))
  {
    hide Enabled, Next;
    assert [e, f][1..] == [f] && [f][1..] == [];
    var n := Next(Next(s, e), f);
    assert Run(n, [], n);
    assert Run(Next(s, e), [f], n);
  }

  lemma HeldByOnlyOne(s: System, i: nat, id: Id)
    requires Inv(s) && i in s.machines && id in s.machines[i].holders
    ensures id in s.invokerByJobID && s.invokerByJobID[id] == i
  {
    assert MachineOK(s.machines, s.invokers, s.invokerByJobID, s.extracted, i);
  }

  const OneSlot: Status := Status("invoker", 0, 1, [])

  /** A submission for a problem without tests. */
  const NoTests: Generators.Generator := Generators.ICPC(0, Icpc.Init(0))

  const CompileIt: Job := Job(1, 0, CompileJob, 0, {})

  const Compiling: Generators.Generator :=
    Generators.ICPC(0, Icpc.Init(0).(phase := Started, given := map[1 := CompileIt]))

  /** One invoker, one submission; its compile job, with ID 1, is sent to the invoker, which then fails. */
  const UpToTheFailure: seq<Step> :=
    [UpsertStep(OneSlot, map[], 0)] + [SubmitStep(0, NoTests, 0)] + [FetchStep(1)] + [SendStep(0)] + [FailStep(0)]

  const Registered: System := Initial.(machines := map[0 := NewInvoker(OneSlot)], invokers := [0])

  const HandedIn: System := Registered.(queue := Submit(Empty, 0, NoTests), submitted := map[0 := 0])

  const Fetched: System :=
    HandedIn.(queue := Queue(map[0 := Compiling], [0], {0}, map[], [], map[1 := CompileIt], {1}, map[1 := 0]),
              nextJob := Some(1), used := {1})

  const OnItsWay: System :=
    Fetched.(machines := map[0 := AddJob(NewInvoker(OneSlot), 1, 1)], invokerByJobID := map[1 := 0],
             testingJobs := map[1 := 1], nextJob := None, inflight := {(0, 1)})

  const FailedOnItsWay: System := OnItsWay.(machines := map[0 := MarkFailed(AddJob(NewInvoker(OneSlot), 1, 1))])

  lemma Registers()
    ensures Enabled(Initial, UpsertStep(OneSlot, map[], 0))
    ensures Next(Initial, UpsertStep(OneSlot, map[], 0)) == Registered
  {
  }

  lemma HandsIn()
    ensures Enabled(Registered, SubmitStep(0, NoTests, 0)) && Next(Registered, SubmitStep(0, NoTests, 0)) == HandedIn
  {
  }

  lemma Fetches()
    ensures Enabled(HandedIn, FetchStep(1)) && Next(HandedIn, FetchStep(1)) == Fetched
  {
    var (g, job) := Generators.NextJob(NoTests, 1);
    assert g == Compiling && job == Some(CompileIt);
    assert HandedIn.queue.generators[0] == NoTests;
    var q := Issue(HandedIn.queue, g, CompileIt);
    assert AskActive(HandedIn.queue, 1) == (q, Some(1));
    assert q == Fetched.queue;
  }

  lemma FetchedIsWellformed()
    ensures Wellformed(Fetched)
  {
  }

  lemma SendsIt()
    ensures Enabled(Fetched, SendStep(0)) && Next(Fetched, SendStep(0)) == OnItsWay
  {
    hide Wired, AddJob;
    FetchedIsWellformed();
    assert TrySendJob(NewInvoker(OneSlot), 1, 1) == (AddJob(NewInvoker(OneSlot), 1, 1), true);
  }

  lemma FailsOnTheWay()
    ensures Enabled(OnItsWay, FailStep(0)) && Next(OnItsWay, FailStep(0)) == FailedOnItsWay
  {
    hide Wired, AddJob;
    SendsIt();
    assert Wellformed(Fetched) && OnItsWay.queue == Fetched.queue;
    assert OnItsWay.machines[0 := MarkFailed(OnItsWay.machines[0])] == FailedOnItsWay.machines;
  }

  lemma {:induction false} RunThen(s: System, steps: seq<Step>, m: System, more: seq<Step>, r: System)
    requires Run(s, steps, m) && Run(m, more, r)
    ensures Run(s, steps + more, r)
    decreases |steps|
  {
    hide Enabled, Next;
    if steps == [] {
      assert steps + more == more;
    } else {
      RunThen(Next(s, steps[0]), steps[1..], m, more, r);
      assert (steps + more)[1..] == steps[1..] + more;
    }
  }

  lemma RunThenStep(s: System, steps: seq<Step>, m: System, e: Step)
    requires Run(s, steps, m) && Enabled(m, e)
    ensures Run(s, steps + [e], Next(m, e))
  {
    hide Enabled, Next;
    assert [e][1..] == [];
    assert Run(Next(m, e), [], Next(m, e));
    assert Run(m, [e], Next(m, e));
    RunThen(s, steps, m, [e], Next(m, e));
  }

  lemma FailedIsReached()
    ensures Run(Initial, UpToTheFailure, FailedOnItsWay)
  {
    hide Enabled, Next, Registered, HandedIn, Fetched, OnItsWay, FailedOnItsWay;
    var s1 := [UpsertStep(OneSlot, map[], 0)];
    var s2 := s1 + [SubmitStep(0, NoTests, 0)];
    var s3 := s2 + [FetchStep(1)];
    assert Run(Initial, [], Initial) && [] + s1 == s1;
    Registers();
    RunThenStep(Initial, [], Initial, UpsertStep(OneSlot, map[], 0));
    HandsIn();
    RunThenStep(Initial, s1, Registered, SubmitStep(0, NoTests, 0));
    Fetches();
    RunThenStep(Initial, s2, HandedIn, FetchStep(1));
    SendsIt();
    RunThenStep(Initial, s3, Fetched, SendStep(0));
    FailsOnTheWay();
    RunThenStep(Initial, s3 + [SendStep(0)], OnItsWay, FailStep(0));
  }

  /** The failure really happens: after this run, which ends with the result of the compile job, that job is awaited by
      its generator and nobody has it. */
  lemma ALostJob(result: JobResult) returns (steps: seq<Step>, s: System)
    ensures steps == UpToTheFailure + [ExtractStep(0), ReceiveStep(1, result)]
    ensures Run(Initial, steps, s) && s.fault == Fine && !NeverDiscards(Initial, steps, s)
    ensures IsLive(s.queue, 1) && 1 in s.queue.jobs && Nowhere(s, 1)
    ensures s.queue == FailedOnItsWay.queue && s.used == {1} && s.returned == []
    ensures s.nextJob.None? && s.invokerByJobID == map[] && s.accepted == map[] && s.dropped == {1}
  {
    hide Run, Inv, Wellformed, NeverDiscards, Nowhere, InOnePlace;
    FailedIsReached();
    RunIsSafe(UpToTheFailure, FailedOnItsWay);
    InvIsWellformed(FailedOnItsWay);
    s := AnyExtractedJobCanBeLost(FailedOnItsWay, 0, 1, result);
    steps := UpToTheFailure + [ExtractStep(0), ReceiveStep(1, result)];
    RunThen(Initial, UpToTheFailure, FailedOnItsWay, [ExtractStep(0), ReceiveStep(1, result)], s);
    InitialIsSafe();
    RunDropsExactly(Initial, steps, s);
    LiveIsPlaced(s, 1);
  }

  // ---------- one invoker over time ----------

  /** What a step does to any invoker object: jobs only move forward, epochs only grow, failures stay. */
  lemma InvokersOnlyAdvance(s: System, e: Step, i: nat)
    requires Inv(s) && Enabled(s, e) && i in s.machines
    ensures i in Next(s, e).machines
    ensures Forward(s.machines[i], Next(s, e).machines[i])
    ensures Newer(s.machines[i], Next(s, e).machines[i])
  {
    hide Inv, Counted, Wired, Fetch, Receive, Send, Sent, Apply, Extract, Unregister, Upsert, Generators.IsFresh,
      Distinct, UpdateStatus, IsOrder;
    match e
    case SubmitStep(g, kind, submitId) =>
    case FetchStep(newID) => FetchKeepsMachines(s, newID);
    case SendStep(k) => SendAdvances(s, k, i);
    case ReceiveStep(id, result) => ReceiveAdvances(s, id, result, i);
    case ApplyStep(id) => ApplyKeepsMachines(s, id);
    case FailStep(k) =>
    case ExtractStep(k) => ExtractKeepsInv(s, k);
    case RescheduleStep(k, order, newIDs) => UnregisterKeepsInv(s, k, order, newIDs);
    case UpsertStep(status, orders, k) => UpsertAdvances(s, status, orders, k, i);
    case PingStep(k, status, order) => UpdateKeeps(s.machines[k], status, order);
    case SentStep(k, j, reply) => SentAdvances(s, k, j, reply);
    case TimeoutStep(k, id) =>
  }

  lemma FetchKeepsMachines(s: System, newID: Id)
    requires Wellformed(s)
    ensures Fetch(s, newID).machines == s.machines
  {
  }

  lemma ApplyKeepsMachines(s: System, id: Id)
    requires Wellformed(s) && id in s.accepted
    ensures Apply(s, id).machines == s.machines && Apply(s, id).invokers == s.invokers
  {
    hide JobCompleted, Wired;
  }

  lemma ReceiveAdvances(s: System, id: Id, result: JobResult, i: nat)
    requires Wellformed(s) && i in s.machines
    ensures var r := Receive(s, id, result);
            && r.machines.Keys == s.machines.Keys && r.invokers == s.invokers
            && Forward(s.machines[i], r.machines[i]) && Newer(s.machines[i], r.machines[i])
            && r.machines[i].status == s.machines[i].status
  {
    ReceiveKeepsInvokers(s, id, result);
    if id in s.invokerByJobID {
      JobTestedAdvances(s.machines[s.invokerByJobID[id]], id);
    }
    ForwardIsReflexive(s.machines[i]);
    hide Wired, Dependents, Receive, JobTested, Forward, Newer;
  }

  lemma JobTestedAdvances(m: Invoker, id: Id)
    ensures var r := JobTested(m, id).0; Forward(m, r) && Newer(m, r) && r.status == m.status
  {
  }

  lemma SendAdvances(s: System, k: nat, i: nat)
    requires Inv(s) && Wellformed(s) && s.nextJob.Some? && k in s.invokers && i in s.machines
    ensures i in Send(s, k).machines && Forward(s.machines[i], Send(s, k).machines[i])
    ensures Newer(s.machines[i], Send(s, k).machines[i])
    ensures Send(s, k).machines[i].status == s.machines[i].status && Send(s, k).invokers == s.invokers
  {
    hide Inv, Wired, Count, Add;
    NextIsNobodys(s, k);
  }

  lemma NextIsNobodys(s: System, k: nat)
    requires Inv(s) && s.nextJob.Some? && k in s.invokers
    ensures k in s.machines && s.nextJob.value in s.queue.jobs
    ensures s.queue.jobs[s.nextJob.value].id !in s.machines[k].holders
  {
    hide AliasesOK, GeneratorsOK, InflightOK, DeliveredOK, Wired, Distinct, TestingOK, Counted;
    var j := s.nextJob.value;
    LiveJobsAreCurrent(s.queue, s.used, j);
    assert PlacedOnce(s.queue, s.nextJob, s.invokerByJobID, s.accepted, s.dropped, j);
    assert MachineOK(s.machines, s.invokers, s.invokerByJobID, s.extracted, k);
  }

  /** An invoker before and after statuses from its own address were offered to it. */
  predicate Updated(m: Invoker, r: Invoker) {
    SameJobs(m, r) && Forward(m, r) && Newer(m, r) && r.status.address == m.status.address
  }

  lemma UpdatedTwice(a: Invoker, b: Invoker, c: Invoker)
    requires Updated(a, b) && Updated(b, c)
    ensures Updated(a, c)
  {
  }

  lemma VerifyUpdates(m: Invoker, status: Status, order: seq<Id>)
    ensures Updated(m, VerifyAndUpdateStatus(m, status, order).0)
  {
    UpdateKeeps(m, status, order);
  }

  lemma {:induction false} OfferAdvances(s: System, status: Status, orders: map<nat, seq<Id>>, k: nat, i: nat)
    requires Wellformed(s) && k <= |s.invokers| && (forall i :: i in s.invokers ==> i in orders) && i in s.machines
    ensures var r := Offer(s, status, orders, k).0;
            && i in r.machines && Updated(s.machines[i], r.machines[i])
            && r == s.(machines := r.machines)
    decreases |s.invokers| - k
  {
    hide Wired, VerifyAndUpdateStatus;
    if k < |s.invokers| {
      var l := s.invokers[k];
      VerifyUpdates(s.machines[l], status, orders[l]);
      var (m, taken) := VerifyAndUpdateStatus(s.machines[l], status, orders[l]);
      if !taken {
        OfferAdvances(s.(machines := s.machines[l := m]), status, orders, k + 1, i);
        hide Updated;
        if i == l {
          UpdatedTwice(s.machines[l], m, Offer(s, status, orders, k).0.machines[i]);
        }
      }
    }
  }

  lemma UpsertAdvances(s: System, status: Status, orders: map<nat, seq<Id>>, k: nat, i: nat)
    requires Wellformed(s) && (forall i :: i in s.invokers ==> i in orders) && k !in s.machines && i in s.machines
    ensures var r := Upsert(s, status, orders, k);
            i in r.machines && Forward(s.machines[i], r.machines[i]) && Newer(s.machines[i], r.machines[i])
  {
    hide Wired, Offer, Forward, Newer, SameJobs;
    OfferAdvances(s, status, orders, 0, i);
  }

  lemma SentAdvances(s: System, k: nat, j: Id, reply: Reply)
    requires Wellformed(s) && (k, j) in s.inflight
    ensures var r := Sent(s, k, j, reply).machines;
            && r == s.machines[k := r[k]] && Forward(s.machines[k], r[k]) && Newer(s.machines[k], r[k])
            && (r[k].status == s.machines[k].status || (reply.Success? && r[k].status == reply.status))
            && Sent(s, k, j, reply).invokers == s.invokers
  {
    hide Wired, CompleteSendJob, Forward, Newer;
    var m := s.machines[k];
    assert s.machines[k := m] == s.machines;
    ForwardIsReflexive(m);
    ReplyAdvances(m, s.queue.jobs[j].id, reply);
  }

  lemma ForwardIsReflexive(m: Invoker)
    ensures Forward(m, m) && Newer(m, m)
  {
  }

  lemma ReplyAdvances(m: Invoker, id: Id, reply: Reply)
    ensures match CompleteSendJob(m, id, reply)
            case None => true
            case Some(r) =>
              && Forward(m, r) && Newer(m, r)
              && (r.status == m.status || (reply.Success? && r.status == reply.status))
  {
    hide UpdateStatus, Counted;
    if reply.Success? {
      UpdateKeeps(m, reply.status, reply.order);
      if id in m.holders {
        UpdateKeeps(SetJobType(m, id, TestingJob), reply.status, reply.order);
      }
    }
  }

  // ---------- one registered invoker per address ----------

  predicate Alive(s: System, i: nat) {
    i in s.machines && !s.machines[i].failed
  }

  ghost predicate OneAlivePerAddress(s: System) {
    forall i, k {:trigger Alive(s, i), Alive(s, k)} ::
      (i in s.invokers && k in s.invokers && Alive(s, i) && Alive(s, k)
       && s.machines[i].status.address == s.machines[k].status.address) ==> i == k
  }

  /** Nobody is revived, and nobody moves to another address. */
  ghost predicate Settled(s: System, r: System) {
    && (forall i :: i in r.invokers ==> i in s.invokers)
    && (forall i {:trigger Alive(r, i)} :: i in s.invokers && i in s.machines && Alive(r, i) ==>
          Alive(s, i) && r.machines[i].status.address == s.machines[i].status.address)
  }

  lemma SettledKeepsAddresses(s: System, r: System)
    requires OneAlivePerAddress(s) && Settled(s, r) && forall i :: i in s.invokers ==> i in s.machines
    ensures OneAlivePerAddress(r)
  {
  }

  lemma AdvancedIsSettled(s: System, r: System, k: nat)
    requires k in s.machines && k in r.machines && r.machines == s.machines[k := r.machines[k]]
    requires r.invokers == s.invokers && Newer(s.machines[k], r.machines[k])
    requires r.machines[k].status.address == s.machines[k].status.address
    ensures Settled(s, r)
  {
  }

  /** The status is taken over by an invoker that stays alive. */
  predicate Adopts(m: Invoker, status: Status) {
    && !m.failed && m.status.epoch < status.epoch
    && forall id :: id in m.holders && m.holders[id].jobType == NoReplyJob ==> id !in status.activeJobIDs
  }

  /** The status invoker i answers with carries the address of another registered invoker that is alive. */
  predicate Meets(s: System, i: nat, status: Status) {
    && i in s.invokers && i in s.machines && Adopts(s.machines[i], status)
    && exists k :: k in s.invokers && k != i && Alive(s, k) && s.machines[k].status.address == status.address
  }

  /** Unlike UpsertInvoker, the answers to a ping and to a job are taken over without looking at the address. */
  predicate Collides(s: System, e: Step) {
    match e
    case PingStep(i, status, _) => Meets(s, i, status)
    case SentStep(i, _, reply) => reply.Success? && Meets(s, i, reply.status)
    case _ => false
  }

  /** An invoker that reports its own address never collides. */
  lemma OwnAddressNeverCollides(s: System, i: nat, status: Status)
    requires OneAlivePerAddress(s) && i in s.machines && status.address == s.machines[i].status.address
    ensures !Meets(s, i, status)
  {
    assert i in s.machines && Adopts(s.machines[i], status) ==> Alive(s, i);
  }

  /** What taking over a status does to an invoker's state and address. */
  lemma AdoptedExactly(m: Invoker, status: Status, order: seq<Id>)
    requires IsOrder(m, order)
    ensures var r := UpdateStatus(m, status, order);
            if Adopts(m, status) then !r.failed && r.status == status
            else r.failed || r.status == m.status
    ensures UpdateStatus(m, status, order).failed || Newer(m, UpdateStatus(m, status, order))
  {
    UpdateKeeps(m, status, order);
    if !m.failed && m.status.epoch < status.epoch {
      UpdateFollowsTheStatus(m, status, order);
    }
    hide UpdateStatus, IsOrder;
  }

  /** One invoker's entry changes by taking over a status, or not at all. */
  lemma AdoptingKeepsAddressesExactly(s: System, r: System, i: nat, status: Status)
    requires OneAlivePerAddress(s) && (forall k :: k in s.invokers ==> k in s.machines)
    requires i in s.machines && i in r.machines
    requires r.machines == s.machines[i := r.machines[i]] && r.invokers == s.invokers
    requires s.machines[i].failed ==> r.machines[i].failed
    requires if Adopts(s.machines[i], status) then !r.machines[i].failed && r.machines[i].status == status
             else r.machines[i].failed || r.machines[i].status == s.machines[i].status
    ensures OneAlivePerAddress(r) <==> !Meets(s, i, status)
  {
    hide Adopts;
    if Meets(s, i, status) {
      var k :| k in s.invokers && k != i && Alive(s, k) && s.machines[k].status.address == status.address;
      assert Alive(r, i) && Alive(r, k);
    } else {
      forall k, l {:trigger Alive(r, k), Alive(r, l)} | k in r.invokers && l in r.invokers && Alive(r, k) && Alive(r, l)
                    && r.machines[k].status.address == r.machines[l].status.address
        ensures k == l
      {
        assert Alive(s, k) && Alive(s, l);
      }
    }
  }

  lemma PingKeepsAddressesExactly(s: System, i: nat, status: Status, order: seq<Id>)
    requires Inv(s) && i in s.machines && IsOrder(s.machines[i], order) && OneAlivePerAddress(s)
    ensures OneAlivePerAddress(s.(machines := s.machines[i := UpdateStatus(s.machines[i], status, order)])) <==>
            !Meets(s, i, status)
  {
    RegisteredAreKnown(s);
    AdoptedExactly(s.machines[i], status, order);
    UpdateKeeps(s.machines[i], status, order);
    hide Inv, UpdateStatus, Adopts, Meets, OneAlivePerAddress, IsOrder, Counted, Forward, SameJobs;
    var r := s.(machines := s.machines[i := UpdateStatus(s.machines[i], status, order)]);
    AdoptingKeepsAddressesExactly(s, r, i, status);
  }

  lemma RegisteredAreKnown(s: System)
    requires Inv(s)
    ensures forall k :: k in s.invokers ==> k in s.machines
  {
  }

  /** The reply to a send first settles that the job is testing, which is no matter for the status. */
  lemma ReplyAdoptsExactly(m: Invoker, id: Id, status: Status, order: seq<Id>)
    requires IsOrder(m, order)
    ensures match CompleteSendJob(m, id, Success(status, order))
            case None => true
            case Some(r) =>
              && (m.failed ==> r.failed)
              && if Adopts(m, status) then !r.failed && r.status == status else r.failed || r.status == m.status
  {
    if id !in m.holders {
      AdoptedExactly(m, status, order);
      UpdateKeeps(m, status, order);
    } else if m.holders[id].jobType == SendingJob {
      var testing := SetJobType(m, id, TestingJob);
      assert testing.holders.Keys == m.holders.Keys;
      assert Adopts(testing, status) <==> Adopts(m, status) by {
        assert forall k :: k in m.holders ==>
          (m.holders[k].jobType == NoReplyJob <==> testing.holders[k].jobType == NoReplyJob);
      }
      AdoptedExactly(testing, status, order);
      UpdateKeeps(testing, status, order);
    }
    hide UpdateStatus, Adopts;
  }

  lemma SentKeepsAddressesExactly(s: System, i: nat, j: Id, reply: Reply)
    requires Inv(s) && Enabled(s, SentStep(i, j, reply)) && OneAlivePerAddress(s)
    ensures OneAlivePerAddress(Sent(s, i, j, reply)) <==> !Collides(s, SentStep(i, j, reply))
  {
    RegisteredAreKnown(s);
    SentKeepsInv(s, i, j, reply);
    SentAdvances(s, i, j, reply);
    hide Inv, UpdateStatus, Wired, Adopts, OneAlivePerAddress, Forward, IsOrder;
    match reply
    case Failure =>
      AdvancedIsSettled(s, Sent(s, i, j, reply), i);
      SettledKeepsAddresses(s, Sent(s, i, j, reply));
    case Success(status, order) =>
      ReplyAdoptsExactly(s.machines[i], s.queue.jobs[j].id, status, order);
      hide CompleteSendJob, Newer;
      AdoptingKeepsAddressesExactly(s, Sent(s, i, j, reply), i, status);
  }

  /** Every step keeps at most one registered invoker per address alive, but exactly an answer to a ping or a job that
      is taken over and carries the address of another one. */
  lemma StepKeepsAddressesExactly(s: System, e: Step)
    requires Inv(s) && Enabled(s, e) && OneAlivePerAddress(s)
    ensures OneAlivePerAddress(Next(s, e)) <==> !Collides(s, e)
  {
    hide Inv, Counted, Wired, Fetch, Receive, Send, Sent, Apply, Extract, Unregister, Upsert, Generators.IsFresh,
      Distinct, UpdateStatus, IsOrder, OneAlivePerAddress;
    var r := Next(s, e);
    match e {
      case PingStep(k, status, order) => PingKeepsAddressesExactly(s, k, status, order);
      case SentStep(k, j, reply) => SentKeepsAddressesExactly(s, k, j, reply);
      case UpsertStep(status, orders, k) => UpsertKeepsAddresses(s, status, orders, k);
      case _ =>
        OthersAreSettled(s, e);
        SettledKeepsAddresses(s, r);
    }
  }

  lemma OthersAreSettled(s: System, e: Step)
    requires Inv(s) && Enabled(s, e) && !e.PingStep? && !e.SentStep? && !e.UpsertStep?
    ensures Settled(s, Next(s, e))
  {
    hide Inv, Counted, Wired, Fetch, Receive, Send, Sent, Apply, Extract, Unregister, Upsert, Generators.IsFresh,
      Distinct, UpdateStatus, IsOrder;
    var r := Next(s, e);
    match e {
      case SubmitStep(g, kind, submitId) =>
      case FetchStep(newID) => FetchKeepsRegistry(s, newID);
      case SendStep(k) => SendIsSettled(s, k);
      case ReceiveStep(id, result) => ReceiveIsSettled(s, id, result);
      case ApplyStep(id) => ApplyKeepsMachines(s, id);
      case FailStep(k) => AdvancedIsSettled(s, r, k);
      case ExtractStep(k) =>
        ExtractKeepsInv(s, k);
        AdvancedIsSettled(s, r, k);
      case RescheduleStep(k, order, newIDs) =>
        UnregisterKeepsInv(s, k, order, newIDs);
        WithoutIsRemoval(s.invokers, k);
      case TimeoutStep(k, id) => AdvancedIsSettled(s, r, k);
    }
  }

  lemma FetchKeepsRegistry(s: System, newID: Id)
    requires Wellformed(s)
    ensures Fetch(s, newID).machines == s.machines && Fetch(s, newID).invokers == s.invokers
  {
  }

  lemma SendIsSettled(s: System, k: nat)
    requires Inv(s) && Wellformed(s) && s.nextJob.Some? && k in s.invokers
    ensures Settled(s, Send(s, k))
  {
    hide Inv, Wired;
    SendAdvances(s, k, k);
  }

  lemma ReceiveIsSettled(s: System, id: Id, result: JobResult)
    requires Wellformed(s)
    ensures Settled(s, Receive(s, id, result))
  {
    ReceiveKeepsInvokers(s, id, result);
    hide Wired, Dependents, Receive;
    forall i | i in s.machines
      ensures Newer(s.machines[i], Receive(s, id, result).machines[i])
      ensures Receive(s, id, result).machines[i].status == s.machines[i].status
    {
      ReceiveAdvances(s, id, result, i);
    }
  }

  lemma ReceiveKeepsInvokers(s: System, id: Id, result: JobResult)
    requires Wellformed(s)
    ensures var r := Receive(s, id, result);
            && r.invokers == s.invokers && r.machines.Keys == s.machines.Keys
            && (r.machines == s.machines
                || (id in s.invokerByJobID
                    && var i := s.invokerByJobID[id]; r.machines == s.machines[i := JobTested(s.machines[i], id).0]))
  {
    hide Wired, Dependents, JobTested;
  }

  lemma RefusalMeansFailed(m: Invoker, status: Status, order: seq<Id>)
    ensures var (r, taken) := VerifyAndUpdateStatus(m, status, order);
            !taken && m.status.address == status.address ==> r.failed
  {
    hide UpdateStatus;
  }

  /** When nobody takes the status, every invoker with its address has failed. */
  lemma {:induction false} RefusedMeansFailed(s: System, status: Status, orders: map<nat, seq<Id>>, k: nat)
    requires Wellformed(s) && k <= |s.invokers| && (forall i :: i in s.invokers ==> i in orders)
    ensures var (r, taken) := Offer(s, status, orders, k);
            !taken ==> forall l :: k <= l < |s.invokers| ==>
              s.invokers[l] in r.machines
              && (s.machines[s.invokers[l]].status.address == status.address ==> r.machines[s.invokers[l]].failed)
    decreases |s.invokers| - k
  {
    hide Wired, VerifyAndUpdateStatus, Updated;
    if k < |s.invokers| {
      var i := s.invokers[k];
      VerifyUpdates(s.machines[i], status, orders[i]);
      SameAddress(s.machines[i], VerifyAndUpdateStatus(s.machines[i], status, orders[i]).0);
      RefusalMeansFailed(s.machines[i], status, orders[i]);
      var (m, taken) := VerifyAndUpdateStatus(s.machines[i], status, orders[i]);
      if !taken {
        var next := s.(machines := s.machines[i := m]);
        RefusedMeansFailed(next, status, orders, k + 1);
        OfferAdvances(next, status, orders, k + 1, i);
        SameAddress(m, Offer(next, status, orders, k + 1).0.machines[i]);
      }
    }
  }

  lemma SameAddress(m: Invoker, r: Invoker)
    requires Updated(m, r)
    ensures r.status.address == m.status.address && (m.failed ==> r.failed)
  {
  }

  lemma UpsertKeepsAddresses(s: System, status: Status, orders: map<nat, seq<Id>>, k: nat)
    requires Wellformed(s) && (forall i :: i in s.invokers ==> i in orders) && k !in s.machines
    requires OneAlivePerAddress(s)
    ensures OneAlivePerAddress(Upsert(s, status, orders, k))
  {
    hide Wired, Offer, OneAlivePerAddress, Settled;
    var (r, taken) := Offer(s, status, orders, 0);
    OfferIsSettled(s, status, orders);
    OfferKeepsInvokers(s, status, orders, 0);
    SettledKeepsAddresses(s, r);
    if !taken {
      RefusedMeansFailed(s, status, orders, 0);
      forall i | i in s.invokers && Alive(r, i)
        ensures r.machines[i].status.address != status.address
      {
        var l :| 0 <= l < |s.invokers| && s.invokers[l] == i;
        OfferAdvances(s, status, orders, 0, i);
      }
      RegisteringKeepsAddresses(r, status, k);
    }
  }

  lemma OfferIsSettled(s: System, status: Status, orders: map<nat, seq<Id>>)
    requires Wellformed(s) && (forall i :: i in s.invokers ==> i in orders)
    ensures Settled(s, Offer(s, status, orders, 0).0)
  {
    hide Wired, Offer;
    OfferKeepsInvokers(s, status, orders, 0);
    var r := Offer(s, status, orders, 0).0;
    forall i | i in s.machines
      ensures i in r.machines && Newer(s.machines[i], r.machines[i])
      ensures r.machines[i].status.address == s.machines[i].status.address
    {
      OfferAdvances(s, status, orders, 0, i);
    }
  }

  lemma RegisteringKeepsAddresses(s: System, status: Status, k: nat)
    requires OneAlivePerAddress(s) && k !in s.invokers
    requires forall i :: i in s.invokers && Alive(s, i) ==> s.machines[i].status.address != status.address
    ensures OneAlivePerAddress(
              s.(machines := s.machines[k := NewInvoker(status)], invokers := s.invokers + [k]))
  {
    var r := s.(machines := s.machines[k := NewInvoker(status)], invokers := s.invokers + [k]);
    forall i | i in s.invokers && Alive(r, i)
      ensures Alive(s, i) && r.machines[i] == s.machines[i]
    {
    }
  }

  lemma {:induction false} OfferKeepsInvokers(s: System, status: Status, orders: map<nat, seq<Id>>, k: nat)
    requires Wellformed(s) && k <= |s.invokers| && (forall i :: i in s.invokers ==> i in orders)
    ensures Offer(s, status, orders, k).0.invokers == s.invokers
    ensures Offer(s, status, orders, k).0.machines.Keys == s.machines.Keys
    decreases |s.invokers| - k
  {
    if k < |s.invokers| {
      var i := s.invokers[k];
      hide Wired, UpdateStatus;
      var (m, taken) := VerifyAndUpdateStatus(s.machines[i], status, orders[i]);
      if !taken {
        OfferKeepsInvokers(s.(machines := s.machines[i := m]), status, orders, k + 1);
      }
    }
  }

  /** Whoever takes the status is a registered invoker of its address that has not failed. */
  lemma {:induction false} TakenByOneAlive(
      s: System, status: Status, orders: map<nat, seq<Id>>, k: nat) returns (i: nat)
    requires Wellformed(s) && k <= |s.invokers| && (forall i :: i in s.invokers ==> i in orders)
    ensures var (r, taken) := Offer(s, status, orders, k);
            taken ==> i in s.invokers && Alive(r, i) && r.machines[i].status.address == status.address
    decreases |s.invokers| - k
  {
    hide Wired, UpdateStatus, Counted, OfType, Forward, SameJobs;
    i := 0;
    if k < |s.invokers| {
      i := s.invokers[k];
      UpdateKeeps(s.machines[i], status, orders[i]);
      var (m, taken) := VerifyAndUpdateStatus(s.machines[i], status, orders[i]);
      if !taken {
        i := TakenByOneAlive(s.(machines := s.machines[i := m]), status, orders, k + 1);
      }
    }
  }

  /** After UpsertInvoker exactly one registered invoker of the status's address is alive. */
  lemma UpsertLeavesExactlyOneAlive(s: System, status: Status, orders: map<nat, seq<Id>>, k: nat)
    requires Wellformed(s) && (forall i :: i in s.invokers ==> i in orders) && k !in s.machines && OneAlivePerAddress(s)
    ensures var r := Upsert(s, status, orders, k);
            exists i :: i in r.invokers && Alive(r, i) && r.machines[i].status.address == status.address
              && forall j :: j in r.invokers && Alive(r, j) && r.machines[j].status.address == status.address ==> j == i
  {
    UpsertKeepsAddresses(s, status, orders, k);
    OfferKeepsInvokers(s, status, orders, 0);
    var r := Upsert(s, status, orders, k);
    var i := TakenByOneAlive(s, status, orders, 0);
    hide Wired, Offer;
    if !Offer(s, status, orders, 0).1 {
      i := k;
    }
    assert i in r.invokers && Alive(r, i);
  }

  predicate NeverCollides(s: System, steps: seq<Step>, r: System)
    requires Run(s, steps, r)
    decreases |steps|
  {
    steps == [] || (!Collides(s, steps[0]) && NeverCollides(Next(s, steps[0]), steps[1..], r))
  }

  lemma {:induction false} RunKeepsAddresses(s: System, steps: seq<Step>, r: System)
    requires Safe(s) && Run(s, steps, r) && NeverCollides(s, steps, r) && OneAlivePerAddress(s)
    ensures OneAlivePerAddress(r)
    decreases |steps|
  {
    if steps != [] {
      assert s.fault == Fine;
      hide Inv, Enabled, Next, OneAlivePerAddress, Collides;
      StepKeepsSafe(s, steps[0]);
      StepKeepsAddressesExactly(s, steps[0]);
      RunKeepsAddresses(Next(s, steps[0]), steps[1..], r);
    }
  }

  /** As long as no invoker answers a ping or a job with the address of another one, at most one registered invoker per
      address has not failed. */
  lemma OneAliveInvokerPerAddress(steps: seq<Step>, s: System)
    requires Run(Initial, steps, s) && NeverCollides(Initial, steps, s)
    ensures OneAlivePerAddress(s)
  {
    InitialIsSafe();
    RunKeepsAddresses(Initial, steps, s);
  }

  // ---------- a run that breaks it ----------

  const StatusOfA: Status := Status("a", 0, 1, [])
  const StatusOfB: Status := Status("b", 0, 1, [])

  /** Invoker 1 answers a ping with the address of invoker 0. */
  const Mistaken: Status := Status("a", 1, 1, [])

  const OnlyA: System := Initial.(machines := map[0 := NewInvoker(StatusOfA)], invokers := [0])

  const AAndB: System :=
    OnlyA.(machines := map[0 := NewInvoker(StatusOfA), 1 := NewInvoker(StatusOfB)], invokers := [0, 1])

  const TwiceA: System := AAndB.(machines := map[0 := NewInvoker(StatusOfA), 1 := NewInvoker(Mistaken)])

  lemma RegistersA()
    ensures Enabled(Initial, UpsertStep(StatusOfA, map[], 0)) && Next(Initial, UpsertStep(StatusOfA, map[], 0)) == OnlyA
  {
  }

  lemma OnlyAIsWellformed()
    ensures Wellformed(OnlyA)
  {
  }

  lemma RegistersB()
    ensures Enabled(OnlyA, UpsertStep(StatusOfB, map[0 := []], 1))
    ensures Next(OnlyA, UpsertStep(StatusOfB, map[0 := []], 1)) == AAndB
  {
    hide Wired;
    OnlyAIsWellformed();
    assert OnlyA.machines[0 := OnlyA.machines[0]] == OnlyA.machines;
    assert Offer(OnlyA, StatusOfB, map[0 := []], 1) == (OnlyA, false);
    assert Offer(OnlyA, StatusOfB, map[0 := []], 0) == (OnlyA, false);
  }

  lemma PingsB()
    ensures Enabled(AAndB, PingStep(1, Mistaken, [])) && Next(AAndB, PingStep(1, Mistaken, [])) == TwiceA
    ensures Collides(AAndB, PingStep(1, Mistaken, []))
  {
    hide Wired;
    OnlyAIsWellformed();
    assert AAndB.queue == OnlyA.queue;
    assert UpdateStatus(NewInvoker(StatusOfB), Mistaken, []) == NewInvoker(Mistaken);
    assert 0 in AAndB.invokers && Alive(AAndB, 0);
  }

  lemma TwoAreAlive()
    ensures !OneAlivePerAddress(TwiceA) && TwiceA.fault == Fine
  {
    assert Alive(TwiceA, 0) && Alive(TwiceA, 1) && 0 in TwiceA.invokers && 1 in TwiceA.invokers;
  }

  /** The collision really happens: after this run two registered invokers of one address are alive. */
  lemma ACollision() returns (steps: seq<Step>)
    ensures steps ==
            [UpsertStep(StatusOfA, map[], 0), UpsertStep(StatusOfB, map[0 := []], 1), PingStep(1, Mistaken, [])]
    ensures Run(Initial, steps, TwiceA) && TwiceA.fault == Fine
    ensures !OneAlivePerAddress(TwiceA) && !NeverCollides(Initial, steps, TwiceA)
  {
    hide Enabled, Next, OnlyA, AAndB, TwiceA, OneAlivePerAddress, Collides;
    TwoAreAlive();
    var first := [UpsertStep(StatusOfA, map[], 0)];
    assert Run(Initial, [], Initial) && [] + first == first;
    RegistersA();
    RunThenStep(Initial, [], Initial, UpsertStep(StatusOfA, map[], 0));
    RegistersB();
    RunThenStep(Initial, first, OnlyA, UpsertStep(StatusOfB, map[0 := []], 1));
    PingsB();
    RunThenStep(Initial, first + [UpsertStep(StatusOfB, map[0 := []], 1)], AAndB, PingStep(1, Mistaken, []));
    steps := first + [UpsertStep(StatusOfB, map[0 := []], 1)] + [PingStep(1, Mistaken, [])];
    if NeverCollides(Initial, steps, TwiceA) {
      OneAliveInvokerPerAddress(steps, TwiceA);
    }
  }
}
