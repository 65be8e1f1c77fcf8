/** Every operation of the queue keeps its invariant, and what it does to the live jobs and their current IDs. */
module QueueLaws {
  import opened Models
  import Generators
  import opened MasterQueue
  import opened Lists

  /** The current ID of a live job. */
  predicate Current(q: Queue, id: Id) {
    var j := Original(q, id);
    IsLive(q, j) && j in q.jobs && q.jobs[j].id == id
  }

  lemma LiveJobsAreCurrent(q: Queue, used: set<Id>, j: Id)
    requires AliasesOK(q, used) && IsLive(q, j)
    ensures j in q.jobs && Current(q, q.jobs[j].id) && Original(q, q.jobs[j].id) == j
  {
    assert NamedOK(q, used, j);
  }

  /** No two IDs lead to the same job: aliasing is injective, however often jobs are rescheduled. */
  lemma AliasingIsInjective(q: Queue, used: set<Id>, a: Id, b: Id)
    requires AliasesOK(q, used) && Current(q, a) && Current(q, b) && Original(q, a) == Original(q, b)
    ensures a == b
  {
  }

  // ---------- Submit ----------

  lemma SubmitKeepsValid(q: Queue, used: set<Id>, g: nat, generator: Generator)
    requires Valid(q, used) && g !in q.generators
    requires Generators.Healthy(generator) && Generators.Given(generator) == map[]
    ensures Valid(Submit(q, g, generator), used)
  {
    var r := Submit(q, g, generator);
    AppendIsDistinct(q.activeGenerators, g);
    SameNames(q, r, used);
    hide Generators.Healthy, Generators.Given, Generators.Quiet, AliasesOK, Distinct;
    forall k | k in r.generators
      ensures AwaitsItsJobs(r, k) && ListedOrQuiet(r, k)
    {
      assert k != g ==> AwaitsItsJobs(q, k) && ListedOrQuiet(q, k);
    }
  }

  lemma SameNames(q: Queue, r: Queue, used: set<Id>)
    requires AliasesOK(q, used)
    requires r.jobs == q.jobs && r.originalJobIDToJob == q.originalJobIDToJob
    requires r.originalJobIDToGenerator == q.originalJobIDToGenerator
    requires r.jobIDToOriginalJobID == q.jobIDToOriginalJobID
    ensures AliasesOK(r, used)
  {
    forall j | j in r.jobs
      ensures NamedOK(r, used, j)
    {
      assert NamedOK(q, used, j);
    }
    forall id | id in r.jobIDToOriginalJobID
      ensures AliasOK(r, used, id)
    {
      assert AliasOK(q, used, id);
    }
  }

  lemma MoreUsed(q: Queue, used: set<Id>, more: set<Id>)
    requires AliasesOK(q, used) && used <= more
    ensures AliasesOK(q, more)
  {
    forall j | j in q.jobs
      ensures NamedOK(q, more, j)
    {
      assert NamedOK(q, used, j);
    }
    forall id | id in q.jobIDToOriginalJobID
      ensures AliasOK(q, more, id)
    {
      assert AliasOK(q, used, id);
    }
  }

  // ---------- NextJob ----------

  lemma RetireKeepsValid(q: Queue, used: set<Id>, newID: Id)
    requires Valid(q, used) && q.activeGenerators != []
    requires Generators.NextJob(q.generators[q.activeGenerators[0]], newID).1.None?
    ensures Valid(Retire(q, Generators.NextJob(q.generators[q.activeGenerators[0]], newID).0), used)
  {
    hide Generators.NextJob, Generators.Healthy, Generators.Given, Generators.Quiet, AliasesOK, Distinct;
    var g := q.activeGenerators[0];
    var generator := Generators.NextJob(q.generators[g], newID).0;
    var r := Retire(q, generator);
    Generators.NextJobGivesAtMostOne(q.generators[g], newID);
    Generators.NothingToGiveIsQuiet(q.generators[g], newID);
    TailIsDistinct(q.activeGenerators);
    SameNames(q, r, used);
    forall k | k in r.generators
      ensures AwaitsItsJobs(r, k) && ListedOrQuiet(r, k)
    {
      assert AwaitsItsJobs(q, k) && ListedOrQuiet(q, k);
    }
  }

  lemma IssueKeepsNames(q: Queue, used: set<Id>, generator: Generator, job: Job)
    requires AliasesOK(q, used) && q.activeGenerators != [] && job.id !in used
    ensures AliasesOK(Issue(q, generator, job), used + {job.id})
  {
    var r := Issue(q, generator, job);
    forall j | j in r.jobs
      ensures NamedOK(r, used + {job.id}, j)
    {
      assert j != job.id ==> NamedOK(q, used, j);
      assert job.id in q.jobIDToOriginalJobID ==> AliasOK(q, used, job.id);
    }
    forall id | id in r.jobIDToOriginalJobID
      ensures AliasOK(r, used + {job.id}, id)
    {
      assert AliasOK(q, used, id) && NamedOK(q, used, q.jobIDToOriginalJobID[id]);
    }
    forall j, k | j in r.jobs && k in r.jobs && r.jobs[j].id == r.jobs[k].id
      ensures j == k
    {
      assert j != job.id ==> NamedOK(q, used, j);
      assert k != job.id ==> NamedOK(q, used, k);
    }
  }

  lemma RotationIsDistinct(s: seq<nat>)
    requires s != [] && Distinct(s)
    ensures Distinct(s[1..] + [s[0]]) && Elements(s[1..] + [s[0]]) == Elements(s)
  {
    TailIsDistinct(s);
    AppendIsDistinct(s[1..], s[0]);
  }

  lemma IssueKeepsValid(q: Queue, used: set<Id>, newID: Id)
    requires Valid(q, used) && q.activeGenerators != [] && newID !in used
    requires Generators.NextJob(q.generators[q.activeGenerators[0]], newID).1.Some?
    ensures var (generator, job) := Generators.NextJob(q.generators[q.activeGenerators[0]], newID);
            job.value.id == newID && Valid(Issue(q, generator, job.value), used + {newID})
  {
    var g := q.activeGenerators[0];
    var (generator, job) := Generators.NextJob(q.generators[g], newID);
    Generators.NextJobGivesAtMostOne(q.generators[g], newID);
    IssueKeepsNames(q, used, generator, job.value);
    assert newID in q.jobs ==> NamedOK(q, used, newID);
    IssueKeepsWired(q, newID);
    hide Generators.NextJob, Generators.Healthy, Generators.Given, AliasesOK, Wired;
    IssueKeepsGenerators(q, generator, job.value);
  }

  lemma IssueKeepsGenerators(q: Queue, generator: Generator, job: Job)
    requires GeneratorsOK(q) && q.activeGenerators != [] && q.activeGenerators[0] in q.generators
    requires job.id !in q.jobs && job.id !in q.originalJobIDToGenerator
    requires Generators.Given(generator) == Generators.Given(q.generators[q.activeGenerators[0]])[job.id := job]
    ensures GeneratorsOK(Issue(q, generator, job))
  {
    hide Generators.Healthy, Generators.Given, Generators.Quiet, Distinct;
    var r := Issue(q, generator, job);
    RotationIsDistinct(q.activeGenerators);
    forall k | k in r.generators
      ensures AwaitsItsJobs(r, k) && ListedOrQuiet(r, k)
    {
      assert AwaitsItsJobs(q, k) && ListedOrQuiet(q, k);
    }
  }

  lemma IssueKeepsWired(q: Queue, newID: Id)
    requires Wired(q) && q.activeGenerators != []
    requires Generators.NextJob(q.generators[q.activeGenerators[0]], newID).1.Some?
    ensures var (generator, job) := Generators.NextJob(q.generators[q.activeGenerators[0]], newID);
            Wired(Issue(q, generator, job.value))
  {
    Generators.NextJobGivesAtMostOne(q.generators[q.activeGenerators[0]], newID);
    hide Generators.NextJob, Generators.Healthy, Generators.Given;
  }

  /** NextJob's effect on jobs: a fresh live job named newID, or nothing. */
  predicate IssuesAtMost(q: Queue, r: Queue, newID: Id, job: Option<Id>) {
    && r.newFailedJobs == q.newFailedJobs && r.jobIDToOriginalJobID == q.jobIDToOriginalJobID
    && r.generators.Keys == q.generators.Keys
    && match job
       case None => r.jobs == q.jobs && r.originalJobIDToJob == q.originalJobIDToJob
       case Some(j) =>
         && j == newID && r.originalJobIDToJob == q.originalJobIDToJob + {j}
         && j in r.jobs && r.jobs[j].id == j && r.jobs == q.jobs[j := r.jobs[j]]
  }

  lemma ValidIsWired(q: Queue, used: set<Id>)
    requires Valid(q, used)
    ensures Wired(q)
  {
  }

  lemma MoreUsedStaysValid(q: Queue, used: set<Id>, more: set<Id>)
    requires Valid(q, used) && used <= more
    ensures Valid(q, more)
  {
    MoreUsed(q, used, more);
  }

  lemma {:induction false} AskActiveKeepsValid(q: Queue, used: set<Id>, newID: Id)
    requires Valid(q, used) && newID !in used
    ensures var (r, job) := AskActive(q, newID);
            && Valid(r, used + {newID})
            && IssuesAtMost(q, r, newID, job)
            && (job.None? ==> r.activeGenerators == [])
    decreases |q.activeGenerators|
  {
    hide Valid, Generators.NextJob, Generators.Healthy;
    ValidIsWired(q, used);
    if q.activeGenerators == [] {
      MoreUsedStaysValid(q, used, used + {newID});
    } else {
      var g := q.activeGenerators[0];
      var (generator, job) := Generators.NextJob(q.generators[g], newID);
      if job.None? {
        RetireKeepsValid(q, used, newID);
        ValidIsWired(Retire(q, generator), used);
        AskActiveKeepsValid(Retire(q, generator), used, newID);
      } else {
        IssueKeepsValid(q, used, newID);
      }
    }
  }

  lemma NextJobKeepsValid(q: Queue, used: set<Id>, newID: Id)
    requires Valid(q, used) && newID !in used
    ensures Valid(NextJob(q, newID).0, used + {newID})
    ensures q.newFailedJobs == [] ==> IssuesAtMost(q, NextJob(q, newID).0, newID, NextJob(q, newID).1)
    ensures q.newFailedJobs != [] ==>
              NextJob(q, newID) == (q.(newFailedJobs := q.newFailedJobs[1..]), Some(q.newFailedJobs[0]))
    ensures NextJob(q, newID).1.None? ==> NextJob(q, newID).0.activeGenerators == []
  {
    if q.newFailedJobs == [] {
      AskActiveKeepsValid(q, used, newID);
    } else {
      MoreUsed(q, used, used + {newID});
      SameQueueButFailed(q, q.(newFailedJobs := q.newFailedJobs[1..]), used + {newID});
    }
  }

  lemma SameQueueButFailed(q: Queue, r: Queue, used: set<Id>)
    requires Valid(q, used) && r == q.(newFailedJobs := r.newFailedJobs)
    ensures Valid(r, used)
  {
    SameNames(q, r, used);
    SameGenerators(q, r);
  }

  // ---------- JobCompleted ----------

  /** What completing the job with current ID `id` does: the job is live no longer, and its generator gets the
      result. */
  predicate Completes(q: Queue, r: Queue, id: Id, completion: Completion) {
    var j := Original(q, id);
    && completion.Passed?
    && completion.generator in q.generators && j in Generators.Given(q.generators[completion.generator])
    && j in q.originalJobIDToGenerator && q.originalJobIDToGenerator[j] == completion.generator
    && r.originalJobIDToJob == q.originalJobIDToJob - {j}
    && r.originalJobIDToGenerator == q.originalJobIDToGenerator - {j}
    && r.jobs == q.jobs && r.newFailedJobs == q.newFailedJobs
    && r.jobIDToOriginalJobID == q.jobIDToOriginalJobID - {id}
    && r.generators.Keys == q.generators.Keys
  }

  lemma JobCompletedReachesItsGenerator(q: Queue, used: set<Id>, id: Id, result: JobResult)
    requires Valid(q, used) && Current(q, id)
    ensures Completes(q, JobCompleted(q, id, result).0, id, JobCompleted(q, id, result).1)
  {
    var j := Original(q, id);
    assert AwaitsItsJobs(q, q.originalJobIDToGenerator[j]);
    hide Generators.JobCompleted, Generators.Healthy, Generators.Given, Generators.Quiet, Distinct;
  }

  lemma JobCompletedKeepsValid(q: Queue, used: set<Id>, id: Id, result: JobResult)
    requires Valid(q, used) && Current(q, id)
    ensures var (r, completion) := JobCompleted(q, id, result);
            Completes(q, r, id, completion) && (!completion.outcome.Panicked? ==> Valid(r, used))
  {
    var j := Original(q, id);
    var g := q.originalJobIDToGenerator[j];
    JobCompletedReachesItsGenerator(q, used, id, result);
    Generators.JobCompletedTakesOne(q.generators[g], j, result);
    CompletionKeepsNames(q, JobCompleted(q, id, result).0, used, id);
    CompletionKeepsWired(q, id, result);
    hide Generators.JobCompleted, Generators.Healthy, Generators.Given, AliasesOK, GeneratorsOK, Current, Wired,
      Completes;
    CompletionKeepsGenerators(q, JobCompleted(q, id, result).0, g, j);
  }

  lemma CompletionKeepsWired(q: Queue, id: Id, result: JobResult)
    requires Wired(q) && Original(q, id) in q.originalJobIDToGenerator
    requires var j := Original(q, id);
             var g := q.originalJobIDToGenerator[j];
             Generators.JobCompleted(q.generators[g], j, result).1.Panicked? ||
             Generators.Healthy(Generators.JobCompleted(q.generators[g], j, result).0)
    ensures var (r, completion) := JobCompleted(q, id, result);
            completion.Passed? && (completion.outcome.Panicked? || Wired(r))
  {
    hide Generators.JobCompleted, Generators.Healthy;
  }

  lemma CompletionKeepsGenerators(q: Queue, r: Queue, g: nat, j: Id)
    requires GeneratorsOK(q) && g in q.generators
    requires j in q.originalJobIDToGenerator && q.originalJobIDToGenerator[j] == g
    requires g in r.generators && r.generators == q.generators[g := r.generators[g]]
    requires Generators.Given(r.generators[g]) == Generators.Given(q.generators[g]) - {j}
    requires r.originalJobIDToGenerator == q.originalJobIDToGenerator - {j} && r.jobs == q.jobs
    requires r.activeGenerators == if g in q.activeGeneratorIDs then q.activeGenerators else q.activeGenerators + [g]
    requires r.activeGeneratorIDs == q.activeGeneratorIDs + {g}
    ensures GeneratorsOK(r)
  {
    hide Generators.Healthy, Generators.Given, Generators.Quiet, Distinct;
    AppendIsDistinct(q.activeGenerators, g);
    forall k | k in r.generators
      ensures AwaitsItsJobs(r, k) && ListedOrQuiet(r, k)
    {
      assert AwaitsItsJobs(q, k) && ListedOrQuiet(q, k);
    }
  }

  lemma CompletionKeepsNames(q: Queue, r: Queue, used: set<Id>, id: Id)
    requires AliasesOK(q, used) && Current(q, id)
    requires var j := Original(q, id);
             && r.originalJobIDToJob == q.originalJobIDToJob - {j}
             && r.originalJobIDToGenerator == q.originalJobIDToGenerator - {j}
             && r.jobs == q.jobs && r.jobIDToOriginalJobID == q.jobIDToOriginalJobID - {id}
    ensures AliasesOK(r, used)
  {
    forall k | k in r.jobs
      ensures NamedOK(r, used, k)
    {
      assert NamedOK(q, used, k);
    }
    forall a | a in r.jobIDToOriginalJobID
      ensures AliasOK(r, used, a)
    {
      assert AliasOK(q, used, a);
    }
  }

  // ---------- RescheduleJob ----------

  lemma RescheduleKeepsValid(q: Queue, used: set<Id>, id: Id, newID: Id)
    requires Valid(q, used) && Current(q, id) && newID !in used
    ensures var (r, outcome) := RescheduleJob(q, id, newID);
            var j := Original(q, id);
            && outcome.Rescheduled? && Valid(r, used + {newID})
            && r.originalJobIDToJob == q.originalJobIDToJob && r.generators == q.generators
            && r.jobs == q.jobs[j := q.jobs[j].(id := newID)]
            && r.newFailedJobs == q.newFailedJobs + [j]
  {
    var j := Original(q, id);
    var r := RescheduleJob(q, id, newID).0;
    RescheduleKeepsNames(q, used, id, newID);
    hide AliasesOK;
    SameGenerators(q, r);
  }

  /** Renaming a job or queueing it again concerns no generator. */
  lemma SameGenerators(q: Queue, r: Queue)
    requires GeneratorsOK(q) && r.generators == q.generators
    requires r.activeGenerators == q.activeGenerators && r.activeGeneratorIDs == q.activeGeneratorIDs
    requires r.originalJobIDToGenerator == q.originalJobIDToGenerator && r.jobs.Keys == q.jobs.Keys
    requires forall j :: j in q.jobs ==> r.jobs[j] == q.jobs[j].(id := r.jobs[j].id)
    ensures GeneratorsOK(r)
  {
    hide Generators.Healthy, Generators.Given, Generators.Quiet, Distinct;
    forall k | k in r.generators
      ensures AwaitsItsJobs(r, k) && ListedOrQuiet(r, k)
    {
      assert AwaitsItsJobs(q, k) && ListedOrQuiet(q, k);
    }
  }

  lemma RescheduleKeepsNames(q: Queue, used: set<Id>, id: Id, newID: Id)
    requires Wired(q) && AliasesOK(q, used) && Current(q, id) && newID !in used
    ensures AliasesOK(RescheduleJob(q, id, newID).0, used + {newID})
  {
    var r := RescheduleJob(q, id, newID).0;
    hide Wired;
    RenamingKeepsNames(q, r, used, id, newID);
  }

  lemma RenamingKeepsNames(q: Queue, r: Queue, used: set<Id>, id: Id, newID: Id)
    requires AliasesOK(q, used) && Current(q, id) && newID !in used
    requires var j := Original(q, id);
             && r.jobs == q.jobs[j := q.jobs[j].(id := newID)]
             && r.jobIDToOriginalJobID == (q.jobIDToOriginalJobID - {id})[newID := j]
    requires r.originalJobIDToJob == q.originalJobIDToJob && r.originalJobIDToGenerator == q.originalJobIDToGenerator
    ensures AliasesOK(r, used + {newID})
  {
    var more := used + {newID};
    RenamingKeepsDistinct(q, r, used, id, newID);
    forall k | k in r.jobs
      ensures NamedOK(r, more, k)
    {
      assert NamedOK(q, used, k);
    }
    forall a | a in r.jobIDToOriginalJobID
      ensures AliasOK(r, more, a)
    {
      assert a != newID ==> AliasOK(q, used, a);
      assert newID in q.jobs ==> NamedOK(q, used, newID);
    }
  }

  lemma RenamingKeepsDistinct(q: Queue, r: Queue, used: set<Id>, id: Id, newID: Id)
    requires AliasesOK(q, used) && Current(q, id) && newID !in used
    requires r.jobs == q.jobs[Original(q, id) := q.jobs[Original(q, id)].(id := newID)]
    ensures forall k, l {:trigger r.jobs[k], r.jobs[l]} ::
              k in r.jobs && l in r.jobs && r.jobs[k].id == r.jobs[l].id ==> k == l
  {
    forall k, l | k in r.jobs && l in r.jobs && r.jobs[k].id == r.jobs[l].id
      ensures k == l
    {
      assert NamedOK(q, used, k) && NamedOK(q, used, l);
    }
  }
}
