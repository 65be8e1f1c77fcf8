/** The invoker registry as an object over the queue and invoker objects: each of its critical sections does what
    the steps of the dispatch protocol say. */
module RegistryObject {
  import opened Models
  import opened Lists
  import opened Dispatch
  import opened DispatchInvariant
  import opened DispatchSteps
  import opened DispatchTheorems
  import Transparency
  import opened InvokerMachine
  import MasterQueue
  import QueueLaws
  import QueueObject
  import InvokerObject

  type Object = InvokerObject.Invoker

  ghost function Names(s: seq<Object>): (r: seq<nat>)
    ensures |r| == |s| && forall k :: 0 <= k < |s| ==> r[k] == s[k].name
  {
    seq(|s|, k requires 0 <= k < |s| => s[k].name)
  }

  ghost function HolderNames(m: map<Id, Object>): map<Id, nat> {
    map id | id in m :: m[id].name
  }

  /** The objects of the invokers registered or holding jobs are the ones known under their names. */
  ghost predicate Known(o: Object, objects: map<nat, Object>) {
    o.name in objects && objects[o.name] == o
  }

  ghost predicate AllKnown(invokers: seq<Object>, byJob: map<Id, Object>, objects: map<nat, Object>) {
    && (forall k {:trigger invokers[k]} :: 0 <= k < |invokers| ==> Known(invokers[k], objects))
    && (forall id {:trigger byJob[id]} :: id in byJob ==> Known(byJob[id], objects))
  }

  ghost predicate ObjectsOK(objects: map<nat, Object>, machines: map<nat, Invoker>)
    reads Objects(objects)
  {
    && objects.Keys == machines.Keys
    && (forall i {:trigger objects[i]} :: i in objects ==> objects[i].name == i && objects[i].View() == machines[i])
  }

  ghost function Objects(objects: map<nat, Object>): set<object> {
    set i | i in objects :: objects[i]
  }

  /** The registry's fields are those of the state machine, with objects for names. */
  ghost predicate FieldsOK(
    s: System, invokers: seq<Object>, byJob: map<Id, Object>, testing: map<Id, Id>, next: Option<Id>, nextID: Id,
    objects: map<nat, Object>)
  {
    && |s.invokers| == |invokers| && s.invokers == Names(invokers) && s.invokerByJobID == HolderNames(byJob)
    && s.testingJobs == testing && s.nextJob == next
    && AllKnown(invokers, byJob, objects)
    && (forall id :: id in s.used ==> id < nextID)
  }

  lemma ListedIsKnown(
      s: System, invokers: seq<Object>, byJob: map<Id, Object>, testing: map<Id, Id>, next: Option<Id>, nextID: Id,
      objects: map<nat, Object>, k: nat)
    requires FieldsOK(s, invokers, byJob, testing, next, nextID, objects) && k < |invokers|
    ensures Known(invokers[k], objects) && invokers[k] in Objects(objects)
    ensures s.nextJob == next && |s.invokers| == |invokers| && s.invokers[k] == invokers[k].name
  {
  }

  lemma RescheduleFacts(
      s: System, invokers: seq<Object>, byJob: map<Id, Object>, testing: map<Id, Id>, next: Option<Id>, nextID: Id,
      objects: map<nat, Object>, i: nat, id: Id, newID: Id, before: Id)
    requires FieldsOK(s, invokers, byJob, testing, next, before, objects)
    requires Wellformed(s) && i in s.extracted && before <= nextID && newID < nextID
    ensures var r := Dispatch.RescheduleOne(s, i, id, newID);
            && r.machines == s.machines
            && (id !in byJob ==> r.queue == s.queue && FieldsOK(r, invokers, byJob, testing, next, nextID, objects))
            && (id in byJob ==>
                  && r.queue == MasterQueue.RescheduleJob(s.queue, id, newID).0
                  && FieldsOK(r, invokers, byJob - {id}, testing - {id}, next, nextID, objects))
  {
    hide MasterQueue.Wired, MasterQueue.RescheduleJob;
  }

  /** The order in which each registered invoker's jobs are met when its status is updated. */
  ghost predicate OrdersOK(s: System, orders: map<nat, seq<Id>>) {
    forall i :: i in s.invokers ==> i in orders && i in s.machines && IsOrder(s.machines[i], orders[i])
  }

  lemma OrdersCover(s: System, orders: map<nat, seq<Id>>)
    requires OrdersOK(s, orders)
    ensures forall i :: i in s.invokers ==> i in orders
  {
  }

  lemma RunningIsWellformed(s: System)
    requires IsRunning(s)
    ensures Wellformed(s)
  {
  }

  function OfferedTo(s: System, i: nat, status: Status, order: seq<Id>): System
    requires i in s.machines
  {
    s.(machines := s.machines[i := VerifyAndUpdateStatus(s.machines[i], status, order).0])
  }

  lemma OfferFacts(
      s: System, invokers: seq<Object>, byJob: map<Id, Object>, testing: map<Id, Id>, next: Option<Id>, nextID: Id,
      objects: map<nat, Object>, k: nat, status: Status, orders: map<nat, seq<Id>>)
    requires FieldsOK(s, invokers, byJob, testing, next, nextID, objects)
    requires Wellformed(s) && k < |invokers| == |s.invokers|
    requires OrdersOK(s, orders) && forall i :: i in s.invokers ==> i in orders
    ensures var i := s.invokers[k];
            && i in orders && i in s.machines && IsOrder(s.machines[i], orders[i])
            && var r := OfferedTo(s, i, status, orders[i]);
            && Wellformed(r) && OrdersOK(r, orders) && FieldsOK(r, invokers, byJob, testing, next, nextID, objects)
            && Offer(s, status, orders, k) ==
               (if VerifyAndUpdateStatus(s.machines[i], status, orders[i]).1 then (r, true)
                else Offer(r, status, orders, k + 1))
  {
    hide MasterQueue.Wired, UpdateStatus, AllKnown;
    var i := s.invokers[k];
    UpdateKeeps(s.machines[i], status, orders[i]);
  }

  lemma OfferedToAll(s: System, status: Status, orders: map<nat, seq<Id>>)
    requires Wellformed(s) && forall i :: i in s.invokers ==> i in orders
    ensures Offer(s, status, orders, |s.invokers|) == (s, false)
  {
  }

  lemma UpsertFacts(s: System, status: Status, orders: map<nat, seq<Id>>, name: nat)
    requires IsRunning(s) && Wellformed(s) && OrdersOK(s, orders)
    requires (forall i :: i in s.invokers ==> i in orders) && name !in s.machines
    ensures IsRunning(Upsert(s, status, orders, name))
    ensures var (r, taken) := Offer(s, status, orders, 0);
            Upsert(s, status, orders, name) ==
            (if taken then r
             else r.(machines := r.machines[name := NewInvoker(status)], invokers := r.invokers + [name]))
  {
    hide Inv, MasterQueue.Wired, Offer;
    StepKeepsRunning(s, UpsertStep(status, orders, name));
  }

  lemma OneMoreObject(objects: map<nat, Object>, machines: map<nat, Invoker>, o: Object)
    requires ObjectsOK(objects, machines) && o.name !in objects
    ensures ObjectsOK(objects[o.name := o], machines[o.name := o.View()])
  {
  }

  lemma RegisterFacts(
      s: System, invokers: seq<Object>, byJob: map<Id, Object>, testing: map<Id, Id>, next: Option<Id>, nextID: Id,
      objects: map<nat, Object>, o: Object, m: Invoker)
    requires FieldsOK(s, invokers, byJob, testing, next, nextID, objects) && o.name !in objects
    ensures FieldsOK(s.(machines := s.machines[o.name := m], invokers := s.invokers + [o.name]),
                     invokers + [o], byJob, testing, next, nextID, objects[o.name := o])
  {
  }

  function WithoutObject(s: seq<Object>, o: Object): seq<Object> {
    if s == [] then [] else if s[0] == o then WithoutObject(s[1..], o) else [s[0]] + WithoutObject(s[1..], o)
  }

  lemma {:induction false} WithoutObjectNames(s: seq<Object>, o: Object, objects: map<nat, Object>)
    requires Known(o, objects) && forall k {:trigger s[k]} :: 0 <= k < |s| ==> Known(s[k], objects)
    ensures Names(WithoutObject(s, o)) == Without(Names(s), o.name)
    ensures forall k {:trigger WithoutObject(s, o)[k]} ::
              0 <= k < |WithoutObject(s, o)| ==> Known(WithoutObject(s, o)[k], objects)
  {
    if s != [] {
      assert Known(s[0], objects);
      WithoutObjectNames(s[1..], o, objects);
      assert Names(s)[1..] == Names(s[1..]);
    }
  }

  lemma UnregisterFacts(
      s: System, invokers: seq<Object>, byJob: map<Id, Object>, testing: map<Id, Id>, next: Option<Id>, nextID: Id,
      objects: map<nat, Object>, o: Object)
    requires FieldsOK(s, invokers, byJob, testing, next, nextID, objects) && Known(o, objects)
    ensures FieldsOK(s.(invokers := Without(s.invokers, o.name), extracted := s.extracted - {o.name}),
                     WithoutObject(invokers, o), byJob, testing, next, nextID, objects)
  {
    WithoutObjectNames(invokers, o, objects);
  }

  lemma ExtractionFacts(
      s: System, invokers: seq<Object>, byJob: map<Id, Object>, testing: map<Id, Id>, next: Option<Id>, nextID: Id,
      objects: map<nat, Object>, o: Object)
    requires FieldsOK(s, invokers, byJob, testing, next, nextID, objects)
    requires IsRunning(s) && Known(o, objects) && o in invokers
    requires o.name in s.machines && s.machines[o.name].failed && o.name !in s.extracted
    ensures Enabled(s, ExtractStep(o.name)) && Next(s, ExtractStep(o.name)) == Dispatch.Extract(s, o.name)
    ensures var r := Dispatch.Extract(s, o.name);
            && FieldsOK(r, invokers, byJob, testing, next, nextID, objects) && IsRunning(r) && o.name in r.extracted
            && r.queue == s.queue && r.machines == s.machines[o.name := ExtractJobs(s.machines[o.name])]
            && r.extracted[o.name] == s.machines[o.name].holders.Keys
  {
    hide MasterQueue.Wired, Inv;
    var k :| 0 <= k < |invokers| && invokers[k] == o;
    assert Names(invokers)[k] in s.invokers;
    StepKeepsRunning(s, ExtractStep(o.name));
  }

  lemma {:induction false} RescheduleAppends(
      s: System, i: nat, order: seq<Id>, newIDs: seq<Id>, id: Id, newID: Id, k: nat)
    requires Wellformed(s) && i in s.extracted && k <= |order| == |newIDs|
    ensures Wellformed(Reschedule(s, i, order, newIDs, k)) && i in Reschedule(s, i, order, newIDs, k).extracted
    ensures Reschedule(s, i, order + [id], newIDs + [newID], k)
            == Dispatch.RescheduleOne(Reschedule(s, i, order, newIDs, k), i, id, newID)
    decreases |order| - k
  {
    hide Wellformed, Dispatch.RescheduleOne;
    if k < |order| {
      RescheduleAppends(Dispatch.RescheduleOne(s, i, order[k], newIDs[k]), i, order, newIDs, id, newID, k + 1);
    }
  }

  lemma ReschedulingFacts(s: System, i: nat, order: seq<Id>, newIDs: seq<Id>)
    requires IsRunning(s) && i in s.extracted && Distinct(order) && Elements(order) == s.extracted[i]
    requires |newIDs| == |order| && Distinct(newIDs) && Elements(newIDs) !! s.used
    ensures Enabled(s, RescheduleStep(i, order, newIDs)) && IsRunning(Next(s, RescheduleStep(i, order, newIDs)))
    ensures var r := Reschedule(s, i, order, newIDs, 0);
            Next(s, RescheduleStep(i, order, newIDs))
            == r.(invokers := Without(r.invokers, i), extracted := r.extracted - {i})
  {
    hide Inv, MasterQueue.Wired, Reschedule, Distinct;
    StepKeepsRunning(s, RescheduleStep(i, order, newIDs));
  }

  lemma TestingIsHeld(
      s: System, invokers: seq<Object>, byJob: map<Id, Object>, testing: map<Id, Id>, next: Option<Id>, nextID: Id,
      objects: map<nat, Object>)
    requires FieldsOK(s, invokers, byJob, testing, next, nextID, objects) && IsRunning(s)
    ensures testing == s.testingJobs && testing.Keys == byJob.Keys
    ensures forall k :: k in testing ==> testing[k] in s.queue.jobs
  {
    hide MasterQueue.Wired;
  }

  lemma ReceiveFacts(
      s: System, invokers: seq<Object>, byJob: map<Id, Object>, testing: map<Id, Id>, next: Option<Id>, nextID: Id,
      objects: map<nat, Object>, id: Id, result: JobResult)
    requires FieldsOK(s, invokers, byJob, testing, next, nextID, objects) && IsRunning(s)
    ensures IsRunning(Dispatch.Receive(s, id, result))
    ensures id in s.invokerByJobID <==> id in byJob
    ensures id !in byJob ==> Dispatch.Receive(s, id, result) == s
    ensures id in byJob ==>
              var r, o := Dispatch.Receive(s, id, result), byJob[id];
              && r.stopped ==
                 s.stopped + (if result.verdict == OK || result.verdict == PT then {} else Dependents(s, id))
              && Known(o, objects) && o in Objects(objects) && o.name in s.machines
              && r.queue == s.queue && r.machines == s.machines[o.name := JobTested(s.machines[o.name], id).0]
              && r.accepted == (if JobTested(s.machines[o.name], id).1 then s.accepted[id := result] else s.accepted)
              && (BadReceive(s, id) <==> !JobTested(s.machines[o.name], id).1)
              && FieldsOK(r, invokers, byJob - {id}, testing - {id}, next, nextID, objects)
  {
    hide MasterQueue.Wired, AllKnown, Inv, Dispatch.Receive;
    UnknownChangesNothing(s, id, result);
    StepKeepsRunning(s, ReceiveStep(id, result));
    if id in byJob {
      ReceiveObjectFacts(s, invokers, byJob, testing, next, nextID, objects, id, result);
    }
  }

  lemma UnknownChangesNothing(s: System, id: Id, result: JobResult)
    requires IsRunning(s)
    ensures Enabled(s, ReceiveStep(id, result)) && Next(s, ReceiveStep(id, result)) == Dispatch.Receive(s, id, result)
    ensures id !in s.invokerByJobID ==> Dispatch.Receive(s, id, result) == s
  {
    hide MasterQueue.Wired, Inv, Dependents;
  }

  lemma ReceiveObjectFacts(
      s: System, invokers: seq<Object>, byJob: map<Id, Object>, testing: map<Id, Id>, next: Option<Id>, nextID: Id,
      objects: map<nat, Object>, id: Id, result: JobResult)
    requires FieldsOK(s, invokers, byJob, testing, next, nextID, objects) && IsRunning(s) && id in byJob
    ensures var r, o := Dispatch.Receive(s, id, result), byJob[id];
            && r.stopped == s.stopped + (if result.verdict == OK || result.verdict == PT then {} else Dependents(s, id))
            && Known(o, objects) && o in Objects(objects) && o.name in s.machines
            && r.queue == s.queue && r.machines == s.machines[o.name := JobTested(s.machines[o.name], id).0]
            && r.accepted == (if JobTested(s.machines[o.name], id).1 then s.accepted[id := result] else s.accepted)
            && (BadReceive(s, id) <==> !JobTested(s.machines[o.name], id).1)
            && FieldsOK(r, invokers, byJob - {id}, testing - {id}, next, nextID, objects)
  {
    hide AllKnown, Dispatch.Receive, Wellformed, Inv, JobTested;
    ReceiveShape(s, id, result);
    KnownHolder(s, invokers, byJob, testing, next, nextID, objects, id);
    assert HolderNames(byJob - {id}) == HolderNames(byJob) - {id};
    FewerKnown(invokers, byJob, objects, id);
  }

  lemma FewerKnown(invokers: seq<Object>, byJob: map<Id, Object>, objects: map<nat, Object>, id: Id)
    requires AllKnown(invokers, byJob, objects)
    ensures AllKnown(invokers, byJob - {id}, objects)
  {
  }

  lemma KnownHolder(
      s: System, invokers: seq<Object>, byJob: map<Id, Object>, testing: map<Id, Id>, next: Option<Id>, nextID: Id,
      objects: map<nat, Object>, id: Id)
    requires FieldsOK(s, invokers, byJob, testing, next, nextID, objects) && id in byJob
    ensures Known(byJob[id], objects) && byJob[id] in Objects(objects)
    ensures id in s.invokerByJobID && s.invokerByJobID[id] == byJob[id].name
  {
  }

  /** What taking in a result does, spelled out for a running protocol. */
  lemma ReceiveShape(s: System, id: Id, result: JobResult)
    requires IsRunning(s) && id in s.invokerByJobID
    ensures var r, i := Dispatch.Receive(s, id, result), s.invokerByJobID[id];
            && i in s.machines
            && r.machines == s.machines[i := JobTested(s.machines[i], id).0]
            && r.queue == s.queue && r.invokers == s.invokers && r.nextJob == s.nextJob && r.used == s.used
            && r.accepted == (if JobTested(s.machines[i], id).1 then s.accepted[id := result] else s.accepted)
            && (BadReceive(s, id) <==> !JobTested(s.machines[i], id).1)
            && r.invokerByJobID == s.invokerByJobID - {id} && r.testingJobs == s.testingJobs - {id}
            && r.stopped == s.stopped + (if result.verdict == OK || result.verdict == PT then {} else Dependents(s, id))
  {
    hide MasterQueue.Wired, PlacesOK, InflightOK, DeliveredOK, MasterQueue.AliasesOK, MasterQueue.GeneratorsOK;
    assert Dependents(s, id) <= s.invokerByJobID.Keys;
    hide MachinesOK, TestingOK, Inv;
  }

  lemma SendKeepsFields(
      s: System, invokers: seq<Object>, byJob: map<Id, Object>, testing: map<Id, Id>, next: Option<Id>, nextID: Id,
      objects: map<nat, Object>, o: Object)
    requires Wellformed(s) && s.nextJob.Some? && o.name in s.machines && Known(o, objects)
    requires FieldsOK(s, invokers, byJob, testing, next, nextID, objects)
    ensures var r, j := Dispatch.Send(s, o.name), s.nextJob.value;
            var id := s.queue.jobs[j].id;
            var (m, sent) := TrySendJob(s.machines[o.name], id, j);
            && r.machines == s.machines[o.name := m] && r.queue == s.queue
            && if sent then FieldsOK(r, invokers, byJob[id := o], testing[id := j], None, nextID, objects)
               else FieldsOK(r, invokers, byJob, testing, next, nextID, objects)
  {
    hide MasterQueue.Wired, AddJob;
    assert s.machines[o.name := s.machines[o.name]] == s.machines;
    var id := s.queue.jobs[s.nextJob.value].id;
    assert HolderNames(byJob[id := o]) == HolderNames(byJob)[id := o.name];
  }

  /** The invoker takes no job, whichever it is. */
  predicate Refuses(m: Invoker) {
    m.failed || Count(m.counts, SendingJob) + 1 > m.status.maxNewJobs
  }

  function Slots(m: Invoker): int {
    m.status.maxNewJobs - Count(m.counts, SendingJob)
  }

  class InvokerRegistry {
    const queue: QueueObject.Queue
    var invokers: seq<Object>
    var invokerByJobID: map<Id, Object>
    var testingJobs: map<Id, Id>
    var nextJob: Option<Id>
    /** Every identifier drawn so far is smaller. */
    var nextID: Id
    /** Every invoker object ever created, and the state of the whole protocol. */
    ghost var objects: map<nat, Object>
    ghost var View: System

    ghost function Repr(): set<object> reads this {
      {this, queue} + Objects(objects)
    }

    ghost predicate Valid() reads Repr() {
      && queue.Valid() && queue.View() == View.queue
      && FieldsOK(View, invokers, invokerByJobID, testingJobs, nextJob, nextID, objects)
      && ObjectsOK(objects, View.machines)
    }

    /** The protocol is in a reachable state and nothing has panicked. */
    ghost predicate Running() reads this {
      IsRunning(View)
    }

    constructor (queue: QueueObject.Queue)
      requires queue.Valid() && queue.View() == MasterQueue.Empty
      ensures this.queue == queue && Valid() && Running() && View == Initial
    {
      this.queue := queue;
      invokers := [];
      invokerByJobID, testingJobs := map[], map[];
      nextJob := None;
      nextID := 0;
      objects := map[];
      View := Initial;
      new;
      InitialIsSafe();
      InvIsWellformed(View);
    }

    method NewID() returns (id: Id)
      requires forall id :: id in View.used ==> id < nextID
      modifies this`nextID
      ensures id !in View.used && old(nextID) <= id < nextID
    {
      id := nextID;
      nextID := nextID + 1;
    }

    /** Draws the next job from the queue when none is waiting. */
    method Fetch() returns (ghost newID: Id)
      requires Valid() && Running() && nextJob.None?
      modifies this`nextID, this`nextJob, this`View, queue
      ensures Valid()
      ensures newID !in old(View).used && View == Dispatch.Fetch(old(View), newID)
    {
      hide Inv, MasterQueue.NextJob, MasterQueue.Wired;
      var id := NewID();
      newID := id;
      nextJob := queue.NextJob(id);
      View := Dispatch.Fetch(View, id);
    }

    /** One attempt to send the waiting job to an invoker. */
    method TrySend(k: nat) returns (sent: bool)
      requires Valid() && Wellformed(View) && nextJob.Some? && k < |invokers|
      modifies this`invokerByJobID, this`testingJobs, this`nextJob, this`View, invokers[k]
      ensures Valid()
      ensures invokers[k].name in old(View).machines && View == Dispatch.Send(old(View), invokers[k].name)
      ensures sent <==> nextJob.None?
    {
      hide MasterQueue.Wired, FieldsOK, Objects, Dispatch.Send, TrySendJob, InvokerObject.Invoker.View;
      var invoker := invokers[k];
      ListedIsKnown(View, invokers, invokerByJobID, testingJobs, nextJob, nextID, objects, k);
      var j := nextJob.value;
      var id := queue.jobs[j].id;
      SendKeepsFields(View, invokers, invokerByJobID, testingJobs, nextJob, nextID, objects, invoker);
      hide Wellformed;
      ghost var machines := View.machines;
      View := Dispatch.Send(View, invoker.name);
      sent := invoker.TrySendJob(id, j);
      assert ObjectsOK(objects, machines[invoker.name := invoker.View()]);
      hide ObjectsOK;
      if sent {
        Record(id, j, invoker);
      }
    }

    /** Sends jobs to one invoker until it takes no more, or there are no more. */
    method SendTo(k: nat) returns (more: bool, ghost steps: seq<Step>)
      requires Valid() && Running() && k < |invokers|
      modifies this`nextID, this`nextJob, this`invokerByJobID, this`testingJobs, this`View, queue, invokers[k]
      ensures Valid() && Running()
      ensures Run(old(View), steps, View) && OnlySends(steps)
      ensures View.invokers == old(View).invokers && invokers[k].name in View.machines
      ensures View.machines == old(View).machines[invokers[k].name := View.machines[invokers[k].name]]
      ensures if more then Refuses(View.machines[invokers[k].name]) else NothingToSend(View)
    {
      hide FieldsOK, ObjectsOK, Objects, IsRunning, Wellformed, Enabled, Next, Dispatch.Fetch, Dispatch.Send, Run,
        NothingToSend, Refuses, QueueObject.Queue.Valid, QueueObject.Queue.View;
      NoSteps(View);
      steps := [];
      ghost var name := invokers[k].name;
      KnownHere(k);
      assert View.machines[name := View.machines[name]] == View.machines;
      while true
        invariant Valid() && Running()
        invariant Run(old(View), steps, View) && OnlySends(steps)
        invariant View.invokers == old(View).invokers && name in View.machines
        invariant View.machines == old(View).machines[name := View.machines[name]]
        decreases Slots(View.machines[name])
      {
        ghost var before := View;
        NextHere();
        if nextJob.None? {
          ghost var newID := Fetch();
          FetchFacts(before, newID);
          OneStep(before, FetchStep(newID));
          RunThen(old(View), steps, before, [FetchStep(newID)], View);
          steps := steps + [FetchStep(newID)];
          NextHere();
        }
        if nextJob.None? {
          return false, steps;
        }
        ghost var fetched := View;
        KnownHere(k);
        var sent := TrySend(k);
        SendFacts(fetched, name);
        OneStep(fetched, SendStep(name));
        RunThen(old(View), steps, fetched, [SendStep(name)], View);
        steps := steps + [SendStep(name)];
        NextHere();
        if !sent {
          return true, steps;
        }
      }
    }

    /** Sends jobs until every invoker refuses the next one, or there are no more. */
    method SendJobs() returns (ghost steps: seq<Step>)
      requires Valid() && Running()
      modifies Repr()
      ensures Valid() && Running() && objects == old(objects) && invokers == old(invokers)
      ensures Run(old(View), steps, View) && OnlySends(steps)
      ensures NothingToSend(View) || forall i :: i in View.invokers ==> i in View.machines && Refuses(View.machines[i])
    {
      hide FieldsOK, ObjectsOK, Inv, Wellformed, Enabled, Next;
      steps := [];
      NextHere();
      for k := 0 to |invokers|
        invariant Valid() && Running() && objects == old(objects) && invokers == old(invokers)
        invariant Run(old(View), steps, View) && OnlySends(steps)
        invariant View.invokers == old(View).invokers && |View.invokers| == |invokers|
        invariant forall l {:trigger View.invokers[l]} :: 0 <= l < k ==>
                    View.invokers[l] in View.machines && Refuses(View.machines[View.invokers[l]])
      {
        ghost var before := View;
        ListedHere(k);
        var more, sends := SendTo(k);
        RunThen(old(View), steps, before, sends, View);
        steps := steps + sends;
        if !more {
          return;
        }
      }
    }

    /** The jobs whose invokers are asked to stop them because of a result for `id`. */
    method JobsToStop(id: Id) returns (stops: set<Id>)
      requires Valid() && Running()
      ensures stops == Dependents(View, id) && stops <= invokerByJobID.Keys
      ensures stops == set k | k in testingJobs && testingJobs[k] in queue.jobs
                               && id in queue.jobs[testingJobs[k]].required :: k
    {
      hide ObjectsOK, Inv, MasterQueue.Wired;
      TestingIsHeld(View, invokers, invokerByJobID, testingJobs, nextJob, nextID, objects);
      var rest := testingJobs.Keys;
      stops := {};
      while rest != {}
        invariant rest <= testingJobs.Keys && stops <= testingJobs.Keys
        invariant stops == set k | k in testingJobs && k !in rest && id in queue.jobs[testingJobs[k]].required :: k
        decreases |rest|
      {
        var k :| k in rest;
        rest := rest - {k};
        if id in queue.jobs[testingJobs[k]].required {
          stops := stops + {k};
        }
      }
    }

    /** The locked section of HandleInvokerJobResult; the invokers of `stops` are asked to stop those jobs. */
    method ReceiveResult(id: Id, result: JobResult) returns (accepted: bool, stops: set<Id>)
      requires Valid() && Running()
      modifies this`invokerByJobID, this`testingJobs, this`View, Objects(objects)
      ensures Valid() && Running() && objects == old(objects)
      ensures View == Dispatch.Receive(old(View), id, result)
      ensures accepted <==> id in old(View).invokerByJobID && !BadReceive(old(View), id)
      ensures View.accepted == if accepted then old(View).accepted[id := result] else old(View).accepted
      ensures View.stopped == old(View).stopped + stops
      ensures stops ==
              if result.verdict in {OK, PT} || id !in old(invokerByJobID) then {}
              else set k | k in old(testingJobs) && old(testingJobs)[k] in queue.jobs
                           && id in queue.jobs[old(testingJobs)[k]].required :: k
    {
      hide FieldsOK, Inv, Wellformed, MasterQueue.Wired, Dispatch.Receive, Dependents, JobTested, BadReceive,
        IsRunning, InvokerObject.Invoker.View, QueueObject.Queue.View, QueueObject.Queue.Valid, Counted;
      RunningIsWellformed(View);
      ReceiveFacts(View, invokers, invokerByJobID, testingJobs, nextJob, nextID, objects, id, result);
      stops := {};
      if id !in invokerByJobID {
        return false, stops;
      }
      var invoker := invokerByJobID[id];
      if result.verdict != OK && result.verdict != PT {
        stops := JobsToStop(id);
      }
      accepted := Forget(invoker, id, Dispatch.Receive(View, id, result));
    }

    /** The job leaves the registry and its invoker, if that still has it. */
    method Forget(invoker: Object, id: Id, ghost r: System) returns (known: bool)
      requires Valid() && Known(invoker, objects) && invoker in Objects(objects) && invoker.name in View.machines
      requires r.queue == View.queue
      requires r.machines == View.machines[invoker.name := JobTested(View.machines[invoker.name], id).0]
      requires FieldsOK(r, invokers, invokerByJobID - {id}, testingJobs - {id}, nextJob, nextID, objects)
      modifies this`invokerByJobID, this`testingJobs, this`View, invoker
      ensures Valid() && View == r && known == JobTested(old(View).machines[invoker.name], id).1
    {
      hide FieldsOK, JobTested, InvokerObject.Invoker.View, QueueObject.Queue.View, QueueObject.Queue.Valid, Counted;
      ghost var machines := View.machines;
      View := r;
      Erase(id);
      known := invoker.JobTested(id);
      assert ObjectsOK(objects, machines[invoker.name := invoker.View()]);
      hide ObjectsOK;
    }

    method Erase(id: Id)
      modifies this`invokerByJobID, this`testingJobs
      ensures invokerByJobID == old(invokerByJobID) - {id} && testingJobs == old(testingJobs) - {id}
    {
      invokerByJobID := invokerByJobID - {id};
      testingJobs := testingJobs - {id};
    }

    /** Reschedules one job taken from invoker i, if the registry still has it. */
    method RescheduleOneJob(ghost i: nat, id: Id) returns (ghost newID: Id)
      requires Valid() && Wellformed(View) && i in View.extracted
      modifies this`invokerByJobID, this`testingJobs, this`nextID, this`View, queue
      ensures Valid() && Wellformed(View) && i in View.extracted
      ensures old(nextID) <= newID < nextID && objects == old(objects) && invokers == old(invokers)
      ensures View == Dispatch.RescheduleOne(old(View), i, id, newID)
    {
      hide FieldsOK, ObjectsOK, Wellformed, MasterQueue.Wired, Dispatch.RescheduleOne, MasterQueue.RescheduleJob,
        QueueObject.Queue.View;
      BoundHere();
      assert (queue as object) !in Objects(objects) && (this as object) !in Objects(objects);
      ghost var before := nextID;
      var drawn := NewID();
      newID := drawn;
      RescheduleFacts(View, invokers, invokerByJobID, testingJobs, nextJob, nextID, objects, i, id, drawn, before);
      if id in invokerByJobID {
        var outcome := queue.RescheduleJob(id, drawn);
        Erase(id);
      }
      View := Dispatch.RescheduleOne(View, i, id, drawn);
    }

    /** Offers the status to every registered invoker in turn; registers a new one when none takes it. */
    method UpsertInvoker(status: Status, orders: map<nat, seq<Id>>, name: nat)
      requires Valid() && Running() && name !in objects && OrdersOK(View, orders)
      modifies Repr()
      ensures Valid() && Running()
      ensures Wellformed(old(View)) && (forall i :: i in old(View).invokers ==> i in orders)
      ensures View == Upsert(old(View), status, orders, name)
    {
      hide FieldsOK, ObjectsOK, Wellformed, Inv, MasterQueue.Wired, Offer, Upsert, OrdersOK, IsRunning;
      ghost var start := View;
      StandsHere();
      RunningIsWellformed(View);
      OrdersCover(View, orders);
      for k := 0 to |invokers|
        invariant Valid() && Wellformed(View) && objects == old(objects) && invokers == old(invokers)
        invariant |View.invokers| == |invokers| && View.invokers == start.invokers
        invariant OrdersOK(View, orders) && (forall i :: i in View.invokers ==> i in orders)
        invariant Offer(View, status, orders, k) == Offer(start, status, orders, 0)
      {
        InvokerHere(k);
        var taken := OfferTo(k, status, orders);
        if taken {
          UpsertFacts(start, status, orders, name);
          return;
        }
      }
      OfferedToAll(View, status, orders);
      StandsHere();
      UpsertFacts(start, status, orders, name);
      Register(status, name);
    }

    method OfferTo(k: nat, status: Status, orders: map<nat, seq<Id>>) returns (taken: bool)
      requires Valid() && Wellformed(View) && k < |invokers| && OrdersOK(View, orders)
      requires forall i :: i in View.invokers ==> i in orders
      modifies invokers[k], this`View
      ensures Valid() && Wellformed(View) && OrdersOK(View, orders) && View.invokers == old(View).invokers
      ensures forall i :: i in View.invokers ==> i in orders
      ensures |View.invokers| == |invokers|
      ensures Offer(old(View), status, orders, k) == if taken then (View, true) else Offer(View, status, orders, k + 1)
    {
      hide FieldsOK, MasterQueue.Wired, VerifyAndUpdateStatus, InvokerObject.Invoker.View, OrdersOK;
      var invoker := invokers[k];
      ListedIsKnown(View, invokers, invokerByJobID, testingJobs, nextJob, nextID, objects, k);
      OfferFacts(View, invokers, invokerByJobID, testingJobs, nextJob, nextID, objects, k, status, orders);
      ghost var before := View;
      View := OfferedTo(View, invoker.name, status, orders[invoker.name]);
      taken := invoker.VerifyAndUpdateStatus(status, orders[invoker.name]);
      assert ObjectsOK(objects, before.machines[invoker.name := invoker.View()]);
      hide ObjectsOK;
    }

    method Register(status: Status, name: nat)
      requires Valid() && name !in objects && name !in View.machines
      modifies this`invokers, this`objects, this`View
      ensures Valid()
      ensures View == old(View).(machines := old(View).machines[name := NewInvoker(status)],
                                 invokers := old(View).invokers + [name])
    {
      hide FieldsOK, QueueObject.Queue.View, QueueObject.Queue.Valid, InvokerObject.Invoker.View, Counted, NewInvoker;
      var invoker := new InvokerObject.Invoker(name, status);
      RegisterFacts(View, invokers, invokerByJobID, testingJobs, nextJob, nextID, objects, invoker, NewInvoker(status));
      assert forall i :: i in objects ==> objects[i] != invoker;
      assert ObjectsOK(objects, View.machines);
      OneMoreObject(objects, View.machines, invoker);
      hide ObjectsOK;
      Enlist(invoker, View.(machines := View.machines[name := NewInvoker(status)], invokers := View.invokers + [name]));
    }

    method Enlist(invoker: Object, ghost r: System)
      modifies this`invokers, this`objects, this`View
      ensures invokers == old(invokers) + [invoker] && objects == old(objects)[invoker.name := invoker] && View == r
    {
      invokers := invokers + [invoker];
      objects := objects[invoker.name := invoker];
      View := r;
    }

    lemma InvokerHere(k: nat)
      requires Valid() && k < |invokers|
      ensures invokers[k] in Objects(objects)
    {
      ListedIsKnown(View, invokers, invokerByJobID, testingJobs, nextJob, nextID, objects, k);
    }

    lemma StandsHere()
      requires Valid()
      ensures |View.invokers| == |invokers| && objects.Keys == View.machines.Keys
    {
    }

    /** Takes all jobs from a failed invoker, reschedules them in some order and unregisters the invoker. The two
        sections are separate methods because other sections can come in between; here none does. */
    method OnInvokerFailure(invoker: Object) returns (ghost order: seq<Id>, ghost newIDs: seq<Id>)
      requires Valid() && Running() && Known(invoker, objects) && invoker in invokers && invoker.failed
      requires invoker.name !in View.extracted
      modifies Repr()
      ensures Valid() && Running() && objects == old(objects)
      ensures Run(old(View), [ExtractStep(invoker.name), RescheduleStep(invoker.name, order, newIDs)], View)
    {
      hide FieldsOK, ObjectsOK, IsRunning, Enabled, Next;
      assert invoker in Objects(objects);
      assert (queue as object) !in Objects(objects) && (this as object) !in Objects(objects);
      var jobs := ExtractFrom(invoker);
      order, newIDs := RescheduleAll(invoker, jobs);
      TwoSteps(old(View), ExtractStep(invoker.name), RescheduleStep(invoker.name, order, newIDs));
    }

    /** The section under the invoker's own mutex. */
    method ExtractFrom(invoker: Object) returns (jobs: set<Id>)
      requires Valid() && Running() && Known(invoker, objects) && invoker in invokers && invoker.failed
      requires invoker.name !in View.extracted && invoker in Objects(objects)
      modifies invoker, this`View
      ensures Valid() && Running()
      ensures Enabled(old(View), ExtractStep(invoker.name)) && View == Next(old(View), ExtractStep(invoker.name))
      ensures invoker.name in View.extracted && View.extracted[invoker.name] == jobs
    {
      hide FieldsOK, IsRunning, Enabled, Next, Dispatch.Extract;
      FailedHere(invoker);
      ExtractionFacts(View, invokers, invokerByJobID, testingJobs, nextJob, nextID, objects, invoker);
      jobs := invoker.ExtractJobs();
      ghost var machines := View.machines;
      View := Dispatch.Extract(View, invoker.name);
      assert ObjectsOK(objects, machines[invoker.name := invoker.View()]);
      hide ObjectsOK;
    }

    /** The section under the registry's lock, whatever has come in since the extraction. */
    method RescheduleAll(invoker: Object, jobs: set<Id>) returns (ghost order: seq<Id>, ghost newIDs: seq<Id>)
      requires Valid() && Running() && Known(invoker, objects)
      requires invoker.name in View.extracted && View.extracted[invoker.name] == jobs
      modifies this`invokers, this`invokerByJobID, this`testingJobs, this`nextID, this`View, queue
      ensures Valid() && Running() && objects == old(objects)
      ensures Enabled(old(View), RescheduleStep(invoker.name, order, newIDs))
      ensures View == Next(old(View), RescheduleStep(invoker.name, order, newIDs))
    {
      hide FieldsOK, ObjectsOK, Inv, Wellformed, MasterQueue.Wired, Dispatch.RescheduleOne, Enabled, Next;
      BoundHere();
      ghost var name := invoker.name;
      order, newIDs := RescheduleJobs(name, jobs);
      ReschedulingFacts(old(View), name, order, newIDs);
      Unregister(invoker);
    }

    /** Reschedules the jobs in whatever order they come. */
    method RescheduleJobs(ghost i: nat, jobs: set<Id>) returns (ghost order: seq<Id>, ghost newIDs: seq<Id>)
      requires Valid() && Wellformed(View) && i in View.extracted
      modifies this`invokerByJobID, this`testingJobs, this`nextID, this`View, queue
      ensures Valid() && Wellformed(View) && objects == old(objects) && invokers == old(invokers)
      ensures Distinct(order) && Elements(order) == jobs
      ensures |newIDs| == |order| && Distinct(newIDs) && forall id :: id in newIDs ==> old(nextID) <= id
      ensures View == Reschedule(old(View), i, order, newIDs, 0)
    {
      hide FieldsOK, ObjectsOK, Wellformed, MasterQueue.Wired, Dispatch.RescheduleOne;
      ghost var start := View;
      var rest := jobs;
      order, newIDs := [], [];
      while rest != {}
        invariant Valid() && Wellformed(View) && i in View.extracted
        invariant objects == old(objects) && invokers == old(invokers)
        invariant rest <= jobs && Distinct(order) && Elements(order) == jobs - rest
        invariant |newIDs| == |order| && Distinct(newIDs)
        invariant forall id :: id in newIDs ==> old(nextID) <= id < nextID
        invariant old(nextID) <= nextID
        invariant View == Reschedule(start, i, order, newIDs, 0)
        decreases |rest|
      {
        var id :| id in rest;
        rest := rest - {id};
        ghost var newID := RescheduleOneJob(i, id);
        RescheduleAppends(start, i, order, newIDs, id, newID, 0);
        AppendIsDistinct(order, id);
        AppendIsDistinct(newIDs, newID);
        assert id !in Elements(order) && newID !in newIDs;
        order, newIDs := order + [id], newIDs + [newID];
      }
    }

    method Unregister(invoker: Object)
      requires Valid() && Known(invoker, objects)
      modifies this`invokers, this`View
      ensures Valid() && objects == old(objects)
      ensures View == old(View).(invokers := Without(old(View).invokers, invoker.name),
                                 extracted := old(View).extracted - {invoker.name})
    {
      hide ObjectsOK;
      assert (this as object) !in Objects(objects);
      UnregisterFacts(View, invokers, invokerByJobID, testingJobs, nextJob, nextID, objects, invoker);
      hide FieldsOK;
      invokers := WithoutObject(invokers, invoker);
      View := View.(invokers := Without(View.invokers, invoker.name), extracted := View.extracted - {invoker.name});
    }

    lemma FailedHere(invoker: Object)
      requires Valid() && Known(invoker, objects) && invoker.failed
      ensures invoker.name in View.machines && View.machines[invoker.name].failed
    {
    }

    lemma BoundHere()
      requires Valid()
      ensures forall id :: id in View.used ==> id < nextID
    {
    }

    lemma ListedHere(k: nat)
      requires Valid() && Running() && k < |invokers|
      ensures invokers[k] in Objects(objects)
      ensures |View.invokers| == |invokers| && View.invokers[k] == invokers[k].name
      ensures forall l :: 0 <= l < |View.invokers| && View.invokers[l] == View.invokers[k] ==> l == k
    {
      hide MachineOK, HeldBy, MasterQueue.Wired, QueueLaws.Current;
      ListedIsKnown(View, invokers, invokerByJobID, testingJobs, nextJob, nextID, objects, k);
    }

    lemma KnownHere(k: nat)
      requires Valid() && Running() && k < |invokers|
      ensures invokers[k].name in View.invokers && invokers[k].name in View.machines && Wellformed(View)
      ensures View.nextJob == nextJob
    {
      hide Inv, MasterQueue.Wired;
      ListedIsKnown(View, invokers, invokerByJobID, testingJobs, nextJob, nextID, objects, k);
    }

    lemma NextHere()
      requires Valid()
      ensures View.nextJob == nextJob && |View.invokers| == |invokers|
    {
    }

    /** The job waiting to be sent is now with the invoker. */
    method Record(id: Id, j: Id, invoker: Object)
      modifies this`invokerByJobID, this`testingJobs, this`nextJob
      ensures invokerByJobID == old(invokerByJobID)[id := invoker]
      ensures testingJobs == old(testingJobs)[id := j] && nextJob == None
    {
      invokerByJobID := invokerByJobID[id := invoker];
      testingJobs := testingJobs[id := j];
      nextJob := None;
    }
  }

  // ---------- facts about the steps of SendJobs ----------

  predicate OnlySends(steps: seq<Step>) {
    forall k :: 0 <= k < |steps| ==> steps[k].FetchStep? || steps[k].SendStep?
  }

  /** Neither a job waiting to be sent nor one the queue would hand out. */
  predicate NothingToSend(s: System) {
    s.nextJob.None? && s.queue.newFailedJobs == [] && s.queue.activeGenerators == []
  }

  lemma NoSteps(s: System)
    ensures Run(s, [], s)
  {
  }

  lemma OneStep(s: System, e: Step)
    requires IsRunning(s) && Enabled(s, e) && !e.ApplyStep?
    ensures Run(s, [e], Next(s, e)) && IsRunning(Next(s, e))
  {
    StepKeepsRunning(s, e);
    hide Inv, Wellformed, Next, Enabled;
    assert [e][1..] == [];
    assert Run(Next(s, e), [], Next(s, e));
  }

  lemma FetchFacts(s: System, newID: Id)
    requires IsRunning(s) && s.nextJob.None? && newID !in s.used
    ensures Enabled(s, FetchStep(newID)) && Next(s, FetchStep(newID)) == Dispatch.Fetch(s, newID)
    ensures Dispatch.Fetch(s, newID).machines == s.machines && Dispatch.Fetch(s, newID).invokers == s.invokers
    ensures Dispatch.Fetch(s, newID).nextJob.None? ==> NothingToSend(Dispatch.Fetch(s, newID))
  {
    QueueLaws.NextJobKeepsValid(s.queue, s.used, newID);
  }

  lemma SendFacts(s: System, i: nat)
    requires IsRunning(s) && s.nextJob.Some? && i in s.invokers
    ensures Enabled(s, SendStep(i)) && Next(s, SendStep(i)) == Dispatch.Send(s, i) && i in s.machines
    ensures var r := Dispatch.Send(s, i);
            && r.invokers == s.invokers && i in r.machines && r.machines == s.machines[i := r.machines[i]]
            && (r.nextJob.Some? ==> r == s && Refuses(r.machines[i]))
            && (r.nextJob.None? ==> 0 <= Slots(r.machines[i]) < Slots(s.machines[i]))
  {
    hide Inv, MasterQueue.Wired;
    assert s.machines[i := s.machines[i]] == s.machines;
  }

  // ---------- facts about single steps ----------

  /** The protocol is in a reachable state and nothing has panicked. */
  ghost predicate IsRunning(s: System) {
    Inv(s) && Wellformed(s) && s.fault == Fine
  }

  lemma StepKeepsRunning(s: System, e: Step)
    requires IsRunning(s) && Enabled(s, e) && !e.ApplyStep?
    ensures IsRunning(Next(s, e))
  {
    hide Inv, Wellformed, Next, Enabled;
    Transparency.OnlyApplyingPanics(s, e);
    StepKeepsInv(s, e);
    InvIsWellformed(Next(s, e));
  }
}
