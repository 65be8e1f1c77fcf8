/** Nothing is ever hopeless but a lost job: wherever a run of the master stands, honest invokers can take it to where
    nothing is left to do, without discarding a result; every submission is then judged unless a job was lost before. */
module Completion {
  import opened Models
  import opened Lists
  import opened MasterQueue
  import opened QueueLaws
  import opened InvokerMachine
  import opened Dispatch
  import opened DispatchInvariant
  import opened DispatchSteps
  import opened DispatchTheorems
  import opened Transparency
  import Generators
  import OpenRuns
  import EndToEnd

  // ---------- what is left to do ----------

  /** The jobs a generator has still to give, at most. */
  function Left(g: Generators.Generator): nat {
    var end := Generators.Tests(g) + 1;
    (if OpenRuns.Cursor(g) <= end then end - OpenRuns.Cursor(g) else 0)
      + (if OpenRuns.CurrentPhase(g) == NotStarted then 1 else 0)
  }

  /** The jobs the generators with numbers below n have still to give. */
  function Total(generators: map<nat, Generators.Generator>, n: nat): nat {
    if n == 0 then 0 else Total(generators, n - 1) + (if n - 1 in generators then Left(generators[n - 1]) else 0)
  }

  predicate NoneHasMore(a: map<nat, Generators.Generator>, b: map<nat, Generators.Generator>) {
    a.Keys == b.Keys && forall g :: g in a ==> Left(b[g]) <= Left(a[g])
  }

  lemma {:induction false} TotalNeverGrows(a: map<nat, Generators.Generator>, b: map<nat, Generators.Generator>, n: nat)
    requires NoneHasMore(a, b)
    ensures Total(b, n) <= Total(a, n)
  {
    hide Left;
    if n > 0 {
      TotalNeverGrows(a, b, n - 1);
    }
  }

  lemma {:induction false} TotalShrinks(
      a: map<nat, Generators.Generator>, b: map<nat, Generators.Generator>, n: nat, g: nat)
    requires NoneHasMore(a, b) && g in a && g < n && Left(b[g]) < Left(a[g])
    ensures Total(b, n) < Total(a, n)
  {
    hide Left;
    if g == n - 1 {
      TotalNeverGrows(a, b, n - 1);
    } else {
      TotalShrinks(a, b, n - 1, g);
    }
  }

  /** How far the jobs that are out are from being done. */
  function Weight(s: System): nat {
    4 * |s.queue.newFailedJobs| + (if s.nextJob.Some? then 3 else 0) + 2 * |s.invokerByJobID| + |s.accepted|
  }

  /** Less is left: fewer invokers whose jobs wait to be rescheduled, or fewer jobs to give, or less to do for those
      that are out. */
  predicate Less(r: System, s: System, n: nat) {
    || |r.extracted| < |s.extracted|
    || (|r.extracted| == |s.extracted|
        && (|| Total(r.queue.generators, n) < Total(s.queue.generators, n)
            || (Total(r.queue.generators, n) == Total(s.queue.generators, n) && Weight(r) < Weight(s))))
  }

  lemma OneFewer<K, V>(m: map<K, V>, k: K)
    requires k in m
    ensures |m| == |m - {k}| + 1
  {
    assert m.Keys == (m - {k}).Keys + {k};
    assert |m.Keys| == |(m - {k}).Keys| + 1;
  }

  lemma OneMore<K, V>(m: map<K, V>, k: K, v: V)
    ensures |m[k := v]| <= |m| + 1
  {
    assert m[k := v].Keys == m.Keys + {k};
    assert |m[k := v].Keys| <= |m.Keys| + 1;
  }

  predicate Below(s: System, n: nat) {
    forall g :: g in s.queue.generators ==> g < n
  }

  // ---------- steps towards the end ----------

  /** All the theorems about runs need: the invariant, and outcomes that can be scored. */
  ghost predicate Going(O: Outcomes, s: System) {
    Inv(s) && Wellformed(s) && s.fault == Fine && Faithful(O, s) && Scorable(O, s)
  }

  /** A step of an honest master and honest invokers that takes in nothing new and loses nothing. */
  predicate Closes(O: Outcomes, s: System, e: Step) {
    Enabled(s, e) && HonestStep(O, s, e) && !e.SubmitStep? && !Discards(s, e)
  }

  lemma ClosingKeepsGoing(O: Outcomes, s: System, e: Step)
    requires Going(O, s) && Closes(O, s, e)
    ensures Going(O, Next(s, e)) && Next(s, e).dropped == s.dropped
  {
    hide Inv, Wellformed, Faithful, Scorable, Enabled, Next, HonestStep, Discards;
    ScorableNeverPanics(O, s, e);
    StepKeepsInv(s, e);
    InvIsWellformed(Next(s, e));
    StepKeepsFaithful(O, s, e);
    StepKeepsScorable(O, s, e);
    OnlyDiscardsDrop(s, e);
  }

  ghost predicate ClosingRun(O: Outcomes, s: System, steps: seq<Step>, r: System)
    decreases |steps|
  {
    if steps == [] then s == r else Closes(O, s, steps[0]) && ClosingRun(O, Next(s, steps[0]), steps[1..], r)
  }

  lemma ClosesOnce(O: Outcomes, s: System, e: Step, steps: seq<Step>, r: System)
    requires Closes(O, s, e) && ClosingRun(O, Next(s, e), steps, r)
    ensures ClosingRun(O, s, [e] + steps, r)
  {
    hide Enabled, HonestStep, Discards, Next;
    assert ([e] + steps)[1..] == steps;
  }

  // ---------- rescheduling ----------

  lemma {:induction false} SomeOrder(ids: set<Id>) returns (order: seq<Id>)
    ensures Distinct(order) && Elements(order) == ids
  {
    order := [];
    if ids != {} {
      var id :| id in ids;
      order := SomeOrder(ids - {id});
      AppendIsDistinct(order, id);
      assert id !in Elements(order);
      order := order + [id];
    }
  }

  lemma {:induction false} SomeFreshIds(used: set<Id>, k: nat) returns (ids: seq<Id>)
    ensures |ids| == k && Distinct(ids) && Elements(ids) !! used
    decreases k
  {
    ids := [];
    if k > 0 {
      var id := FreshId(used);
      ids := SomeFreshIds(used + {id}, k - 1);
      assert id !in Elements(ids);
      AppendIsDistinct(ids, id);
      ids := ids + [id];
    }
  }

  lemma RescheduleSome(O: Outcomes, s: System, n: nat) returns (e: Step)
    requires Going(O, s) && s.extracted != map[]
    ensures Closes(O, s, e) && Less(Next(s, e), s, n) && Next(s, e).queue.generators.Keys == s.queue.generators.Keys
  {
    hide Inv, Wellformed, Distinct, Faithful, Scorable, Total, Weight, Next, Unregister, Enabled, IsOrder;
    var i :| i in s.extracted;
    var order := SomeOrder(s.extracted[i]);
    var newIDs := SomeFreshIds(s.used, |order|);
    e := RescheduleStep(i, order, newIDs);
    ReschedulingIsAStep(s, i, order, newIDs);
    var r := Unregister(s, i, order, newIDs);
    assert r.extracted.Keys == s.extracted.Keys - {i};
    assert |r.extracted.Keys| < |s.extracted.Keys|;
  }

  lemma ReschedulingIsAStep(s: System, i: nat, order: seq<Id>, newIDs: seq<Id>)
    requires Inv(s) && Wellformed(s) && s.fault == Fine && i in s.extracted
    requires Distinct(order) && Elements(order) == s.extracted[i]
    requires |newIDs| == |order| && Distinct(newIDs) && Elements(newIDs) !! s.used
    ensures var (e, r) := (RescheduleStep(i, order, newIDs), Unregister(s, i, order, newIDs));
            && Enabled(s, e) && Next(s, e) == r
            && r.extracted == s.extracted - {i} && r.queue.generators == s.queue.generators
  {
    hide Inv, Wired, Distinct, Reschedule, IsOrder;
    assert order[0..] == order && newIDs[0..] == newIDs;
    RescheduleKeepsInv(s, i, order, newIDs, 0);
    EndToEnd.ReschedulingKeepsGenerators(s, i, order, newIDs, 0);
    assert s.extracted[i := {}] - {i} == s.extracted - {i};
  }

  // ---------- results ----------

  lemma ApplySome(O: Outcomes, s: System, n: nat) returns (e: Step)
    requires Going(O, s) && s.accepted != map[]
    ensures Closes(O, s, e) && Less(Next(s, e), s, n) && Next(s, e).queue.generators.Keys == s.queue.generators.Keys
  {
    hide Inv, Wellformed, Faithful, Scorable, Apply, Total, Weight, Next, Enabled, NoneHasMore;
    var id :| id in s.accepted;
    e := ApplyStep(id);
    ApplyingIsAStep(s, id);
    ScorableNeverPanics(O, s, e);
    ApplyLeavesLess(s, id);
    TotalNeverGrows(s.queue.generators, Apply(s, id).queue.generators, n);
    SameKeys(s.queue.generators, Apply(s, id).queue.generators);
  }

  lemma SameKeys(a: map<nat, Generators.Generator>, b: map<nat, Generators.Generator>)
    requires NoneHasMore(a, b)
    ensures a.Keys == b.Keys
  {
  }

  lemma ApplyingIsAStep(s: System, id: Id)
    requires Wellformed(s) && s.fault == Fine && id in s.accepted
    ensures Enabled(s, ApplyStep(id)) && Next(s, ApplyStep(id)) == Apply(s, id)
  {
    hide Wired, Apply;
  }

  lemma ApplyLeavesLess(s: System, id: Id)
    requires Inv(s) && Wellformed(s) && s.fault == Fine && id in s.accepted && Apply(s, id).fault == Fine
    ensures var r := Apply(s, id);
            && r.extracted == s.extracted && Weight(r) < Weight(s)
            && NoneHasMore(s.queue.generators, r.queue.generators)
  {
    hide Inv, Wellformed, Apply, Left, Generators.Healthy, Generators.JobCompleted, Generators.Given;
    EndToEnd.ApplyReachesItsGenerator(s, id);
    ApplyKeepsJobs(s, id);
    var j := Original(s.queue, id);
    var g := s.queue.originalJobIDToGenerator[j];
    EndToEnd.GeneratorsAreHealthy(s, g);
    CompletingLeavesNoMore(s.queue.generators[g], j, s.accepted[id]);
    OneFewer(s.accepted, id);
  }

  lemma ApplyKeepsJobs(s: System, id: Id)
    requires Inv(s) && Wellformed(s) && id in s.accepted
    ensures var r := Apply(s, id);
            && r.extracted == s.extracted && r.nextJob == s.nextJob && r.invokerByJobID == s.invokerByJobID
            && r.accepted == s.accepted - {id} && r.queue.newFailedJobs == s.queue.newFailedJobs
  {
    hide Inv, Wired, Generators.JobCompleted;
  }

  lemma CompletingLeavesNoMore(g: Generators.Generator, j: Id, result: JobResult)
    requires Generators.Healthy(g) && j in Generators.Given(g)
    ensures Left(Generators.JobCompleted(g, j, result).0) <= Left(g)
  {
    hide Generators.JobCompleted, Generators.Healthy, Generators.Tests, OpenRuns.Cursor, OpenRuns.CurrentPhase;
    OpenRuns.JobCompletedAdvances(g, j, result);
  }

  /** The invoker reports the outcome of a job it has. */
  lemma ReceiveSome(O: Outcomes, s: System, n: nat) returns (e: Step)
    requires Going(O, s) && s.extracted == map[] && s.invokerByJobID != map[]
    ensures Closes(O, s, e) && Less(Next(s, e), s, n) && Next(s, e).queue.generators.Keys == s.queue.generators.Keys
  {
    hide Inv, Wellformed, Faithful, Scorable, Receive, BadReceive, HonestResult, Total, Next, Enabled;
    var id :| id in s.invokerByJobID;
    DiscardedWhileExtracted(s, id);
    var result := SomeHonestResult(O, s, id);
    e := ReceiveStep(id, result);
    ReceivingIsAStep(s, id, result);
    ReceiveLeavesLess(s, id, result);
  }

  lemma ReceivingIsAStep(s: System, id: Id, result: JobResult)
    requires Wellformed(s) && s.fault == Fine
    ensures Enabled(s, ReceiveStep(id, result)) && Next(s, ReceiveStep(id, result)) == Receive(s, id, result)
  {
    hide Wired, Receive;
  }

  lemma ReceiveLeavesLess(s: System, id: Id, result: JobResult)
    requires Inv(s) && Wellformed(s) && s.fault == Fine && id in s.invokerByJobID && !BadReceive(s, id)
    ensures var r := Receive(s, id, result);
            r.extracted == s.extracted && r.queue == s.queue && Weight(r) < Weight(s)
  {
    hide Inv, Wellformed, Receive, BadReceive;
    ReceiveKeepsInv(s, id, result);
    ReceiveChanges(s, id, result);
    OneFewer(s.invokerByJobID, id);
    OneMore(s.accepted, id, result);
  }

  lemma SomeHonestResult(O: Outcomes, s: System, id: Id) returns (r: JobResult)
    requires Inv(s) && Wellformed(s) && Faithful(O, s) && id in s.invokerByJobID
    ensures HonestResult(O, s, id, r)
  {
    hide MachinesOK, PlacesOK, InflightOK, PendingOK, DeliveredOK, TestingOK, AliasesOK, Distinct, Generators.Sound,
      Generators.Healthy, Generators.Given;
    HeldIsCurrent(s, id);
    EndToEnd.AliasesNameOwners(s.queue, s.used);
    var j := Original(s.queue, id);
    var g := s.queue.originalJobIDToGenerator[j];
    assert AwaitsItsJobs(s.queue, g) && JudgedBy(O, s, g);
    EndToEnd.GeneratorsAreHealthy(s, g);
    r := Generators.SomeHonestAnswer(s.queue.generators[g], O[g], s.submitted[g], StoppedOf(s, g), s.used, j);
    var given := Generators.Given(s.queue.generators[g])[j];
    assert given == s.queue.jobs[j].(id := j);
    assert Honest(O[g], s.stopped, id, given, r);
  }

  // ---------- sending ----------

  lemma {:induction false} FreshAddress(addresses: set<string>) returns (a: string)
    ensures a !in addresses && forall b :: b in addresses ==> |b| < |a|
  {
    a := "";
    if addresses == {} {
      return;
    }
    var b :| b in addresses;
    var longer := FreshAddress(addresses - {b});
    a := longer + b + "a";
    assert addresses == (addresses - {b}) + {b};
  }

  lemma {:induction false} NobodyTakes(s: System, status: Status, orders: map<nat, seq<Id>>, k: nat)
    requires Wellformed(s) && k <= |s.invokers| && (forall i :: i in s.invokers ==> i in orders)
    requires forall i :: i in s.invokers && i in s.machines ==> s.machines[i].status.address != status.address
    ensures Offer(s, status, orders, k) == (s, false)
    decreases |s.invokers| - k
  {
    hide Wired, UpdateStatus;
    if k < |s.invokers| {
      var i := s.invokers[k];
      assert s.machines[i := s.machines[i]] == s.machines;
      NobodyTakes(s, status, orders, k + 1);
    }
  }

  /** When nobody has a job, an invoker that was unknown so far can register. */
  lemma RegisterAnother(O: Outcomes, s: System) returns (e: Step, i: nat, status: Status)
    requires Going(O, s) && s.invokerByJobID == map[]
    ensures Closes(O, s, e) && i !in s.machines && status.maxNewJobs == 1
    ensures Next(s, e) == s.(machines := s.machines[i := NewInvoker(status)], invokers := s.invokers + [i])
  {
    hide Inv, Wellformed, Faithful, Scorable, Next, Enabled, Offer, IsOrder;
    i := FreshId(s.machines.Keys);
    var a := FreshAddress(set k | k in s.machines :: s.machines[k].status.address);
    status := Status(a, 0, 1, []);
    var orders: map<nat, seq<Id>> := map k | k in s.invokers :: [];
    NobodyHasJobs(s);
    e := UpsertStep(status, orders, i);
    NobodyTakes(s, status, orders, 0);
    RegisteringIsAStep(s, status, orders, i);
  }

  lemma RegisteringIsAStep(s: System, status: Status, orders: map<nat, seq<Id>>, i: nat)
    requires Wellformed(s) && s.fault == Fine && i !in s.machines && (forall k :: k in s.invokers ==> k in orders)
    requires forall k :: k in s.invokers ==> k in s.machines && IsOrder(s.machines[k], orders[k])
    requires Offer(s, status, orders, 0) == (s, false)
    ensures Enabled(s, UpsertStep(status, orders, i))
    ensures Next(s, UpsertStep(status, orders, i))
            == s.(machines := s.machines[i := NewInvoker(status)], invokers := s.invokers + [i])
  {
    hide Wired, Offer, IsOrder;
  }

  lemma NobodyHasJobs(s: System)
    requires Inv(s) && s.invokerByJobID == map[]
    ensures forall k :: k in s.invokers ==> k in s.machines && IsOrder(s.machines[k], [])
  {
    forall k | k in s.invokers
      ensures k in s.machines && IsOrder(s.machines[k], [])
    {
      assert MachineOK(s.machines, s.invokers, s.invokerByJobID, s.extracted, k);
    }
  }

  lemma SendSome(O: Outcomes, s: System, n: nat) returns (e: Step, f: Step)
    requires Going(O, s) && s.nextJob.Some? && s.invokerByJobID == map[]
    ensures Closes(O, s, e) && Closes(O, Next(s, e), f)
    ensures var r := Next(Next(s, e), f); Less(r, s, n) && r.queue.generators.Keys == s.queue.generators.Keys
  {
    hide Inv, Wellformed, Faithful, Scorable, Next, Enabled, Total;
    var i, status;
    e, i, status := RegisterAnother(O, s);
    ClosingKeepsGoing(O, s, e);
    var m := Next(s, e);
    f := SendStep(i);
    FirstJobIsTaken(O, m, i);
    assert |Send(m, i).invokerByJobID| == 1;
  }

  lemma FirstJobIsTaken(O: Outcomes, s: System, i: nat)
    requires Wellformed(s) && s.fault == Fine && s.nextJob.Some?
    requires s.invokerByJobID == map[] && i in s.invokers && i in s.machines
    requires !s.machines[i].failed && s.machines[i].counts == map[] && s.machines[i].status.maxNewJobs == 1
    ensures Closes(O, s, SendStep(i)) && Next(s, SendStep(i)) == Send(s, i)
    ensures var r := Send(s, i);
            && r.queue == s.queue && r.nextJob.None? && r.accepted == s.accepted && r.extracted == s.extracted
            && exists id :: r.invokerByJobID == map[id := i]
  {
    hide Wired;
    assert Wellformed(s);
    var j := s.nextJob.value;
    assert Send(s, i).invokerByJobID == map[s.queue.jobs[j].id := i];
  }

  // ---------- fetching ----------

  lemma GivingLeavesNoMore(g: Generators.Generator, id: Id)
    requires Generators.Healthy(g)
    ensures var (r, job) := Generators.NextJob(g, id);
            Left(r) <= Left(g) && (job.Some? ==> Left(r) < Left(g))
  {
    hide Generators.NextJob, Generators.Healthy, Generators.Tests, OpenRuns.Cursor, OpenRuns.CurrentPhase;
    OpenRuns.NextJobAdvances(g, id);
  }

  predicate Gave(q: Queue, r: Queue, id: Id, g: nat)
    requires Wired(q)
  {
    && g in q.generators && g in r.generators
    && Generators.NextJob(q.generators[g], id).1.Some? && r.generators[g] == Generators.NextJob(q.generators[g], id).0
  }

  lemma {:induction false} SomebodyGave(q: Queue, id: Id) returns (g: nat)
    requires Wired(q) && Distinct(q.activeGenerators) && AskActive(q, id).1.Some?
    ensures Gave(q, AskActive(q, id).0, id, g)
    decreases |q.activeGenerators|
  {
    hide Generators.NextJob, Generators.Healthy, Generators.Given, Distinct;
    g := q.activeGenerators[0];
    var (generator, job) := Generators.NextJob(q.generators[g], id);
    Generators.NextJobGivesAtMostOne(q.generators[g], id);
    if job.None? {
      TailIsDistinct(q.activeGenerators);
      assert g !in Elements(q.activeGenerators[1..]);
      var first := g;
      g := SomebodyGave(Retire(q, generator), id);
      assert g != first ==> Retire(q, generator).generators[g] == q.generators[g];
      if g == first {
        Generators.NothingToGiveIsQuiet(q.generators[first], id);
      }
    }
  }

  lemma FetchedFreshly(s: System, id: Id, n: nat)
    requires Inv(s) && Wellformed(s) && s.queue.newFailedJobs == [] && Fetch(s, id).nextJob.Some? && Below(s, n)
    ensures Total(Fetch(s, id).queue.generators, n) < Total(s.queue.generators, n)
  {
    ActiveAreDistinct(s);
    hide Inv, Generators.NextJob, Generators.Healthy, Left, Total, Distinct, AskActive;
    var g := SomebodyGave(s.queue, id);
    EndToEnd.EachIsAskedAtMostOnce(s.queue, id);
    var r := AskActive(s.queue, id).0;
    forall k | k in s.queue.generators
      ensures Left(r.generators[k]) <= Left(s.queue.generators[k])
      ensures k == g ==> Left(r.generators[k]) < Left(s.queue.generators[k])
    {
      GivingLeavesNoMore(s.queue.generators[k], id);
    }
    TotalShrinks(s.queue.generators, r.generators, n, g);
  }

  lemma ActiveAreDistinct(s: System)
    requires Inv(s)
    ensures Distinct(s.queue.activeGenerators)
  {
  }

  lemma FetchSome(O: Outcomes, s: System, id: Id, n: nat)
    requires Going(O, s) && Below(s, n) && s.nextJob.None? && id !in s.used && Fetch(s, id).nextJob.Some?
    ensures var e := FetchStep(id);
            Closes(O, s, e) && Less(Next(s, e), s, n) && Next(s, e).queue.generators.Keys == s.queue.generators.Keys
  {
    hide Inv, Wellformed, Faithful, Scorable, Total, Fetch, Next, Enabled, Distinct;
    FetchingIsAStep(s, id);
    FetchChanges(s, id);
    if s.queue.newFailedJobs == [] {
      FetchedFreshly(s, id, n);
    }
  }

  lemma FetchingIsAStep(s: System, id: Id)
    requires Wellformed(s) && s.fault == Fine && s.nextJob.None? && id !in s.used
    ensures Enabled(s, FetchStep(id)) && Next(s, FetchStep(id)) == Fetch(s, id)
  {
    hide Wired, Fetch;
  }

  lemma FetchChanges(s: System, id: Id)
    requires Inv(s) && Wellformed(s) && s.nextJob.None? && Fetch(s, id).nextJob.Some?
    ensures var r := Fetch(s, id);
            && r.extracted == s.extracted && r.queue.generators.Keys == s.queue.generators.Keys
            && (s.queue.newFailedJobs != [] ==> r.queue.generators == s.queue.generators && Weight(r) < Weight(s))
  {
    if s.queue.newFailedJobs == [] {
      ActiveAreDistinct(s);
      hide Inv, Wired, AskActive, Distinct;
      EndToEnd.EachIsAskedAtMostOnce(s.queue, id);
    } else {
      hide Inv, Wired, AskActive, Distinct;
    }
  }

  // ---------- to the end ----------

  /** One or two steps, unless nothing is left. */
  lemma SomeSteps(O: Outcomes, s: System, n: nat) returns (steps: seq<Step>, r: System, id: Id)
    requires Going(O, s) && Below(s, n)
    ensures ClosingRun(O, s, steps, r) && Going(O, r) && r.dropped == s.dropped
    ensures if steps == [] then r == s && EndToEnd.NothingLeft(s, id) else Less(r, s, n) && Below(r, n)
    ensures r.queue.generators.Keys == s.queue.generators.Keys
  {
    hide Inv, Wellformed, Faithful, Scorable, Enabled, HonestStep, Discards, Less, Next, Fetch;
    id := FreshId(s.used);
    steps, r := [], s;
    var e: Step;
    if s.extracted != map[] {
      e := RescheduleSome(O, s, n);
    } else if s.accepted != map[] {
      e := ApplySome(O, s, n);
    } else if s.invokerByJobID != map[] {
      e := ReceiveSome(O, s, n);
    } else if s.nextJob.Some? {
      var f;
      e, f := SendSome(O, s, n);
      ClosingKeepsGoing(O, s, e);
      ClosingKeepsGoing(O, Next(s, e), f);
      r := Next(Next(s, e), f);
      ClosesOnce(O, Next(s, e), f, [], r);
      ClosesOnce(O, s, e, [f], r);
      steps := [e] + [f];
      return;
    } else if Fetch(s, id).nextJob.Some? {
      e := FetchStep(id);
      FetchSome(O, s, id, n);
    } else {
      return;
    }
    ClosingKeepsGoing(O, s, e);
    r := Next(s, e);
    ClosesOnce(O, s, e, [], r);
    steps := [e];
    assert [e] + [] == [e];
  }

  lemma {:induction false} ClosingThen(
      O: Outcomes, s: System, steps: seq<Step>, m: System, more: seq<Step>, r: System)
    requires ClosingRun(O, s, steps, m) && ClosingRun(O, m, more, r)
    ensures ClosingRun(O, s, steps + more, r)
    decreases |steps|
  {
    hide Enabled, HonestStep, Discards, Next;
    if steps == [] {
      assert steps + more == more;
    } else {
      ClosingThen(O, Next(s, steps[0]), steps[1..], m, more, r);
      assert (steps + more)[1..] == steps[1..] + more;
    }
  }

  lemma {:induction false} CanBeCompleted(O: Outcomes, s: System, n: nat) returns (steps: seq<Step>, r: System, id: Id)
    requires Going(O, s) && Below(s, n)
    ensures ClosingRun(O, s, steps, r) && Going(O, r) && r.dropped == s.dropped
    ensures Wellformed(r) && EndToEnd.NothingLeft(r, id)
    ensures r.queue.generators.Keys == s.queue.generators.Keys
    decreases |s.extracted|, Total(s.queue.generators, n), Weight(s)
  {
    hide Inv, Faithful, Scorable, Wellformed, EndToEnd.NothingLeft, ClosingRun, Total, Weight;
    steps, r, id := SomeSteps(O, s, n);
    if steps != [] {
      var more, q, last := CanBeCompleted(O, r, n);
      ClosingThen(O, s, steps, r, more, q);
      steps, r, id := steps + more, q, last;
    }
  }

  lemma {:induction false} ClosingIsHonest(O: Outcomes, s: System, steps: seq<Step>, r: System)
    requires ClosingRun(O, s, steps, r)
    ensures Run(s, steps, r) && HonestRun(O, s, steps, r) && ScorableRun(O, s, steps, r) && NeverDiscards(s, steps, r)
    decreases |steps|
  {
    hide Enabled, Next, HonestStep, Discards;
    if steps != [] {
      ClosingIsHonest(O, Next(s, steps[0]), steps[1..], r);
    }
  }

  /** A run that is honest, can be scored, and goes on to its end. */
  lemma {:induction false} RunThenCloses(
      O: Outcomes, s: System, steps: seq<Step>, m: System, more: seq<Step>, r: System)
    requires Run(s, steps, m) && HonestRun(O, s, steps, m) && ScorableRun(O, s, steps, m) && ClosingRun(O, m, more, r)
    ensures Run(s, steps + more, r) && HonestRun(O, s, steps + more, r) && ScorableRun(O, s, steps + more, r)
    ensures NeverDiscards(s, steps + more, r) <==> NeverDiscards(s, steps, m)
    decreases |steps|
  {
    hide Enabled, Next, HonestStep, Discards, ClosingRun;
    if steps == [] {
      assert steps + more == more;
      ClosingIsHonest(O, m, more, r);
    } else {
      RunThenCloses(O, Next(s, steps[0]), steps[1..], m, more, r);
      assert (steps + more)[1..] == steps[1..] + more;
    }
  }

  lemma {:induction false} RunKeepsGoing(O: Outcomes, s: System, steps: seq<Step>, r: System)
    requires Going(O, s) && Run(s, steps, r) && HonestRun(O, s, steps, r) && ScorableRun(O, s, steps, r)
    ensures Going(O, r)
    decreases |steps|
  {
    if steps != [] {
      var e := steps[0];
      hide Inv, Wellformed, Faithful, Scorable, Enabled, Next, HonestStep, Generators.Unscorable;
      ScorableNeverPanics(O, s, e);
      StepKeepsInv(s, e);
      InvIsWellformed(Next(s, e));
      StepKeepsFaithful(O, s, e);
      StepKeepsScorable(O, s, e);
      RunKeepsGoing(O, Next(s, e), steps[1..], r);
    }
  }

  lemma StartIsGoing(O: Outcomes)
    ensures Going(O, Initial)
  {
    InitialIsSafe();
    InvIsWellformed(Initial);
  }

  /** Every run among honest invokers can be continued, honestly and without losing a job, to where nothing is left to
      do. Then every submission has been returned with its judgement but exactly those with a job whose result had been
      discarded, and all have been exactly if there was no such job: that is the only way to lose one. */
  lemma EveryRunCanBeCompleted(O: Outcomes, steps: seq<Step>, s: System)
      returns (more: seq<Step>, r: System, id: Id)
    requires Run(Initial, steps, s) && HonestRun(O, Initial, steps, s) && ScorableRun(O, Initial, steps, s)
    ensures Run(Initial, steps + more, r) && HonestRun(O, Initial, steps + more, r)
    ensures Wellformed(r) && EndToEnd.NothingLeft(r, id) && r.queue.generators.Keys == s.queue.generators.Keys
    ensures r.dropped == s.dropped
    ensures forall g {:trigger IsJudged(O, r, g)} :: g in s.queue.generators ==>
              (IsJudged(O, r, g) <==> !EndToEnd.LostOne(r, g))
    ensures (forall g {:trigger IsJudged(O, r, g)} :: g in s.queue.generators ==> IsJudged(O, r, g))
            <==> NeverDiscards(Initial, steps, s)
  {
    hide Run, HonestRun, ScorableRun, NeverDiscards, Inv, Faithful, Scorable, Wellformed, EndToEnd.NothingLeft,
      IsJudged, ClosingRun, EndToEnd.LostOne, EndToEnd.IsReturned;
    StartIsGoing(O);
    RunKeepsGoing(O, Initial, steps, s);
    var n := FreshId(s.queue.generators.Keys);
    more, r, id := CanBeCompleted(O, s, n);
    RunThenCloses(O, Initial, steps, s, more, r);
    EverySubmissionIsJudged(O, steps + more, r, id);
    forall g | g in s.queue.generators
      ensures IsJudged(O, r, g) <==> !EndToEnd.LostOne(r, g)
    {
      JudgedMeansReturned(O, steps + more, r, g);
      EndToEnd.ReturnedUnlessLost(steps + more, r, id, g);
    }
  }
}
