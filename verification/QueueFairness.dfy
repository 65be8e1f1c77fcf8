/** Round robin: how long a generator on the active list can be passed over. */
module QueueFairness {
  import opened Models
  import opened Lists
  import opened MasterQueue
  import Generators

  /** The place of x in the list, counted from 0. */
  function Position(s: seq<nat>, x: nat): (i: nat)
    requires x in s
    ensures i < |s| && s[i] == x && x !in s[..i]
  {
    if s[0] == x then 0
    else
      assert x in s[1..];
      assert s == [s[0]] + s[1..];
      var i := Position(s[1..], x);
      assert s[..i + 1] == [s[0]] + s[1..][..i];
      i + 1
  }

  /** Everything that happens to the queue. */
  datatype Event =
    | Submitted(generator: nat, kind: Generator)
    | Asked(newID: Id)
    | Completed(id: Id, result: JobResult)
    | Rescheduled(id: Id, newID: Id)

  function After(q: Queue, e: Event): Queue
    requires Wired(q)
  {
    match e
    case Submitted(g, kind) => Submit(q, g, kind)
    case Asked(newID) => NextJob(q, newID).0
    case Completed(id, result) => JobCompleted(q, id, result).0
    case Rescheduled(id, newID) => RescheduleJob(q, id, newID).0
  }

  /** Generator g is asked for a job while the active generators are. */
  predicate AsksActive(q: Queue, newID: Id, g: nat)
    requires Wired(q)
    decreases |q.activeGenerators|
  {
    && q.activeGenerators != []
    && var (generator, job) := Generators.NextJob(q.generators[q.activeGenerators[0]], newID);
       Generators.NextJobGivesAtMostOne(q.generators[q.activeGenerators[0]], newID);
       q.activeGenerators[0] == g || (job.None? && AsksActive(Retire(q, generator), newID, g))
  }

  predicate Asks(q: Queue, e: Event, g: nat)
    requires Wired(q)
  {
    e.Asked? && q.newFailedJobs == [] && AsksActive(q, e.newID, g)
  }

  /** A job that was never issued before is handed out. */
  predicate IssuesFresh(q: Queue, e: Event)
    requires Wired(q)
  {
    e.Asked? && q.newFailedJobs == [] && NextJob(q, e.newID).1.Some?
  }

  lemma {:induction false} PassedOverMovesUp(q: Queue, newID: Id, g: nat)
    requires Wired(q) && Distinct(q.activeGenerators) && g in q.activeGenerators && !AsksActive(q, newID, g)
    ensures var (r, job) := AskActive(q, newID);
            && job.Some? && g in r.activeGenerators
            && Position(r.activeGenerators, g) < Position(q.activeGenerators, g)
    decreases |q.activeGenerators|
  {
    hide Generators.NextJob, Generators.Healthy, Generators.Given, Distinct;
    var front := q.activeGenerators[0];
    var (generator, job) := Generators.NextJob(q.generators[front], newID);
    Generators.NextJobGivesAtMostOne(q.generators[front], newID);
    TailIsDistinct(q.activeGenerators);
    assert front != g;
    assert g in q.activeGenerators[1..] by { assert q.activeGenerators == [front] + q.activeGenerators[1..]; }
    if job.None? {
      PassedOverMovesUp(Retire(q, generator), newID, g);
    } else {
      AppendingKeepsPosition(q.activeGenerators[1..], front, g);
    }
  }

  lemma {:induction false} AppendingKeepsPosition(s: seq<nat>, x: nat, g: nat)
    requires g in s
    ensures g in s + [x] && Position(s + [x], g) == Position(s, g)
  {
    if s[0] != g {
      assert s == [s[0]] + s[1..];
      assert (s + [x])[1..] == s[1..] + [x];
      AppendingKeepsPosition(s[1..], x, g);
    }
  }

  /** Unless asked, a generator on the list stays on it and never moves back; it moves up whenever another one's
      fresh job is handed out. */
  lemma WaitingNeverMovesBack(q: Queue, e: Event, g: nat)
    requires Wired(q) && Distinct(q.activeGenerators) && g in q.activeGenerators && !Asks(q, e, g)
    ensures g in After(q, e).activeGenerators
    ensures Position(After(q, e).activeGenerators, g) + (if IssuesFresh(q, e) then 1 else 0)
              <= Position(q.activeGenerators, g)
  {
    hide Generators.NextJob, Generators.Healthy;
    match e
    case Submitted(h, kind) => AppendingKeepsPosition(q.activeGenerators, h, g);
    case Asked(newID) =>
      if q.newFailedJobs == [] {
        PassedOverMovesUp(q, newID, g);
      }
    case Completed(id, result) =>
      var original := Original(q, id);
      if original in q.originalJobIDToGenerator {
        AppendingKeepsPosition(q.activeGenerators, q.originalJobIDToGenerator[original], g);
      }
    case Rescheduled(id, newID) =>
  }

  /** The list holds no generator twice and matches the set of active IDs. */
  predicate Listed(q: Queue) {
    q.activeGeneratorIDs == Elements(q.activeGenerators) && Distinct(q.activeGenerators)
  }

  /** A run of the queue in which generator g is never asked. */
  predicate Bypassed(q: Queue, es: seq<Event>, g: nat)
    decreases |es|
  {
    es == [] ||
    (&& Wired(q) && !Asks(q, es[0], g)
     && (es[0].Submitted? ==> es[0].generator !in q.activeGeneratorIDs)
     && Bypassed(After(q, es[0]), es[1..], g))
  }

  function FreshJobs(q: Queue, es: seq<Event>, g: nat): nat
    requires Bypassed(q, es, g)
    decreases |es|
  {
    if es == [] then 0 else (if IssuesFresh(q, es[0]) then 1 else 0) + FreshJobs(After(q, es[0]), es[1..], g)
  }

  lemma {:induction false} AskActiveKeepsListed(q: Queue, newID: Id)
    requires Wired(q) && Listed(q)
    ensures Listed(AskActive(q, newID).0)
    decreases |q.activeGenerators|
  {
    if q.activeGenerators != [] {
      var front := q.activeGenerators[0];
      var (generator, job) := Generators.NextJob(q.generators[front], newID);
      Generators.NextJobGivesAtMostOne(q.generators[front], newID);
      TailIsDistinct(q.activeGenerators);
      AppendIsDistinct(q.activeGenerators[1..], front);
      assert front !in q.activeGenerators[1..] by { assert front !in Elements(q.activeGenerators[1..]); }
      hide Generators.NextJob, Generators.Healthy, Distinct;
      if job.None? {
        AskActiveKeepsListed(Retire(q, generator), newID);
      }
    }
  }

  lemma EventKeepsListed(q: Queue, e: Event)
    requires Wired(q) && Listed(q) && (e.Submitted? ==> e.generator !in q.activeGeneratorIDs)
    ensures Listed(After(q, e))
  {
    match e
    case Submitted(h, kind) => AppendIsDistinct(q.activeGenerators, h);
    case Asked(newID) => AskActiveKeepsListed(q, newID);
    case Completed(id, result) =>
      var original := Original(q, id);
      if original in q.originalJobIDToGenerator {
        AppendIsDistinct(q.activeGenerators, q.originalJobIDToGenerator[original]);
      }
    case Rescheduled(id, newID) =>
  }

  /** Bounded bypass: while a generator at position p waits to be asked, at most p fresh jobs are handed out. */
  lemma {:induction false} AtMostPositionFreshJobs(q: Queue, es: seq<Event>, g: nat)
    requires Listed(q) && g in q.activeGenerators && Bypassed(q, es, g)
    ensures FreshJobs(q, es, g) <= Position(q.activeGenerators, g)
    decreases |es|
  {
    if es != [] {
      hide Distinct, Asks, IssuesFresh;
      WaitingNeverMovesBack(q, es[0], g);
      EventKeepsListed(q, es[0]);
      AtMostPositionFreshJobs(After(q, es[0]), es[1..], g);
    }
  }

  // ---------- failed jobs ----------

  /** The queue can take every event of the run. */
  predicate Takes(q: Queue, es: seq<Event>)
    decreases |es|
  {
    es == [] || (Wired(q) && Takes(After(q, es[0]), es[1..]))
  }

  function End(q: Queue, es: seq<Event>): Queue
    requires Takes(q, es)
    decreases |es|
  {
    if es == [] then q else End(After(q, es[0]), es[1..])
  }

  /** What an event hands out while failed jobs are waiting. */
  function Resends(q: Queue, e: Event): seq<Id>
    requires Wired(q)
  {
    if e.Asked? && q.newFailedJobs != [] && NextJob(q, e.newID).1.Some? then [NextJob(q, e.newID).1.value] else []
  }

  /** The job whose invoker failed, by the ID it was issued with. */
  function Returns(q: Queue, e: Event): seq<Id> {
    if e.Rescheduled? && Original(q, e.id) in q.originalJobIDToJob then [Original(q, e.id)] else []
  }

  function Resent(q: Queue, es: seq<Event>): seq<Id>
    requires Takes(q, es)
    decreases |es|
  {
    if es == [] then [] else Resends(q, es[0]) + Resent(After(q, es[0]), es[1..])
  }

  function Returned(q: Queue, es: seq<Event>): seq<Id>
    requires Takes(q, es)
    decreases |es|
  {
    if es == [] then [] else Returns(q, es[0]) + Returned(After(q, es[0]), es[1..])
  }

  lemma {:induction false} AskingKeepsFailed(q: Queue, newID: Id)
    requires Wired(q)
    ensures AskActive(q, newID).0.newFailedJobs == q.newFailedJobs
    decreases |q.activeGenerators|
  {
    hide Generators.NextJob, Generators.Healthy, Generators.Given;
    if q.activeGenerators != [] {
      var (generator, job) := Generators.NextJob(q.generators[q.activeGenerators[0]], newID);
      Generators.NextJobGivesAtMostOne(q.generators[q.activeGenerators[0]], newID);
      if job.None? {
        AskingKeepsFailed(Retire(q, generator), newID);
      }
    }
  }

  lemma OneEventIsInOrder(q: Queue, e: Event)
    requires Wired(q)
    ensures Resends(q, e) + After(q, e).newFailedJobs == q.newFailedJobs + Returns(q, e)
  {
    hide Generators.NextJob, Generators.Healthy, Generators.JobCompleted, AskActive;
    if e.Asked? && q.newFailedJobs == [] {
      AskingKeepsFailed(q, e.newID);
    }
  }

  /** Jobs whose invoker failed are handed out again in the order of the failures, before anything else: along every
      run, those handed out and those still waiting are those that waited before and those that failed since. */
  lemma {:induction false} FailedJobsAreInOrder(q: Queue, es: seq<Event>)
    requires Takes(q, es)
    ensures Resent(q, es) + End(q, es).newFailedJobs == q.newFailedJobs + Returned(q, es)
    decreases |es|
  {
    hide Wired, After, Resends, Returns;
    if es != [] {
      OneEventIsInOrder(q, es[0]);
      FailedJobsAreInOrder(After(q, es[0]), es[1..]);
      var n := After(q, es[0]);
      calc {
        Resends(q, es[0]) + Resent(n, es[1..]) + End(n, es[1..]).newFailedJobs;
        Resends(q, es[0]) + (Resent(n, es[1..]) + End(n, es[1..]).newFailedJobs);
        Resends(q, es[0]) + n.newFailedJobs + Returned(n, es[1..]);
        q.newFailedJobs + (Returns(q, es[0]) + Returned(n, es[1..]));
      }
    }
  }
}
