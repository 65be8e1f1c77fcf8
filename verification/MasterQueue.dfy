/** The master's queue: generators served in turn, and jobs that keep their identity while their ID changes. */
module MasterQueue {
  import opened Models
  import Generators
  import opened Lists

  type Generator = Generators.Generator

  /** Generators and jobs are objects in the original. Generators are named by their ID; a job object is named by
      the ID it was issued with, and `jobs` holds every job object ever issued with its current ID. */
  datatype Queue = Queue(
    generators: map<nat, Generator>,
    activeGenerators: seq<nat>, activeGeneratorIDs: set<nat>,
    jobIDToOriginalJobID: map<Id, Id>,
    newFailedJobs: seq<Id>,
    jobs: map<Id, Job>,
    originalJobIDToJob: set<Id>,
    originalJobIDToGenerator: map<Id, nat>)

  const Empty: Queue := Queue(map[], [], {}, map[], [], map[], {}, map[])

  /** What every operation needs: names refer to something, and no generator has panicked. */
  predicate Wired(q: Queue) {
    && (forall g :: g in q.generators ==> Generators.Healthy(q.generators[g]))
    && (forall i :: 0 <= i < |q.activeGenerators| ==> q.activeGenerators[i] in q.generators)
    && (forall j :: j in q.originalJobIDToGenerator ==> q.originalJobIDToGenerator[j] in q.generators)
    && q.originalJobIDToJob <= q.jobs.Keys
  }

  function Original(q: Queue, id: Id): Id {
    if id in q.jobIDToOriginalJobID then q.jobIDToOriginalJobID[id] else id
  }

  // ---------- the operations ----------

  function Submit(q: Queue, g: nat, generator: Generator): Queue {
    q.(generators := q.generators[g := generator],
       activeGenerators := q.activeGenerators + [g],
       activeGeneratorIDs := q.activeGeneratorIDs + {g})
  }

  /** A generator with nothing to give leaves the list. */
  function Retire(q: Queue, generator: Generator): Queue
    requires |q.activeGenerators| > 0
  {
    var g := q.activeGenerators[0];
    q.(generators := q.generators[g := generator],
       activeGenerators := q.activeGenerators[1..],
       activeGeneratorIDs := q.activeGeneratorIDs - {g})
  }

  /** A generator that gives a job moves to the back. */
  function Issue(q: Queue, generator: Generator, job: Job): Queue
    requires |q.activeGenerators| > 0
  {
    var g := q.activeGenerators[0];
    q.(generators := q.generators[g := generator],
       activeGenerators := q.activeGenerators[1..] + [g],
       jobs := q.jobs[job.id := job],
       originalJobIDToJob := q.originalJobIDToJob + {job.id},
       originalJobIDToGenerator := q.originalJobIDToGenerator[job.id := g])
  }

  /** Asks the active generators in turn; `newID` is the ID drawn by the one that gives a job. */
  function AskActive(q: Queue, newID: Id): (Queue, Option<Id>)
    requires Wired(q)
    decreases |q.activeGenerators|
  {
    if q.activeGenerators == [] then (q, None)
    else
      var (generator, job) := Generators.NextJob(q.generators[q.activeGenerators[0]], newID);
      Generators.NextJobGivesAtMostOne(q.generators[q.activeGenerators[0]], newID);
      if job.None? then AskActive(Retire(q, generator), newID)
      else (Issue(q, generator, job.value), Some(job.value.id))
  }

  function NextJob(q: Queue, newID: Id): (Queue, Option<Id>)
    requires Wired(q)
  {
    if |q.newFailedJobs| > 0 then (q.(newFailedJobs := q.newFailedJobs[1..]), Some(q.newFailedJobs[0]))
    else AskActive(q, newID)
  }

  datatype Completion = NoSuchJob | AliasLost | Passed(generator: nat, outcome: Outcome)

  /** `AliasLost` is the panic on an alias whose job is gone. */
  function JobCompleted(q: Queue, id: Id, result: JobResult): (Queue, Completion)
    requires Wired(q)
  {
    var original := Original(q, id);
    var renamed := q.(jobIDToOriginalJobID := q.jobIDToOriginalJobID - {id});
    if original !in q.originalJobIDToGenerator then (renamed, if original != id then AliasLost else NoSuchJob)
    else
      var g := q.originalJobIDToGenerator[original];
      var (generator, outcome) := Generators.JobCompleted(q.generators[g], original, result);
      (renamed.(
         originalJobIDToJob := q.originalJobIDToJob - {original},
         originalJobIDToGenerator := q.originalJobIDToGenerator - {original},
         activeGenerators := if g in q.activeGeneratorIDs then q.activeGenerators else q.activeGenerators + [g],
         activeGeneratorIDs := q.activeGeneratorIDs + {g},
         generators := q.generators[g := generator]),
       Passed(g, outcome))
  }

  datatype Rescheduling = Rescheduled | NotFound | AliasBroken

  /** The job object gets a fresh ID, mapped to the ID it was issued with, and waits to be sent again. */
  function RescheduleJob(q: Queue, id: Id, newID: Id): (Queue, Rescheduling)
    requires Wired(q)
  {
    var original := Original(q, id);
    var renamed := q.(jobIDToOriginalJobID := q.jobIDToOriginalJobID - {id});
    if original !in q.originalJobIDToJob then
      (renamed, if id in q.jobIDToOriginalJobID then AliasBroken else NotFound)
    else
      (renamed.(
         jobs := q.jobs[original := q.jobs[original].(id := newID)],
         jobIDToOriginalJobID := renamed.jobIDToOriginalJobID[newID := original],
         newFailedJobs := q.newFailedJobs + [original]),
       Rescheduled)
  }

  // ---------- the queue's own invariant ----------

  /** A job that was issued and not completed. */
  predicate IsLive(q: Queue, j: Id) {
    j in q.originalJobIDToJob
  }

  predicate NamedOK(q: Queue, used: set<Id>, j: Id)
    requires j in q.jobs
  {
    && j in used && q.jobs[j].id in used
    && (IsLive(q, j) ==> Original(q, q.jobs[j].id) == j)
  }

  predicate AliasOK(q: Queue, used: set<Id>, id: Id)
    requires id in q.jobIDToOriginalJobID
  {
    var j := q.jobIDToOriginalJobID[id];
    && id in used && id !in q.jobs
    && IsLive(q, j) && j in q.jobs && q.jobs[j].id == id
  }

  /** Every live job has one current ID, which leads back to it; no two jobs ever share one. */
  ghost predicate AliasesOK(q: Queue, used: set<Id>) {
    && q.originalJobIDToJob <= q.jobs.Keys
    && q.originalJobIDToGenerator.Keys == q.originalJobIDToJob
    && (forall j {:trigger NamedOK(q, used, j)} :: j in q.jobs ==> NamedOK(q, used, j))
    && (forall id {:trigger AliasOK(q, used, id)} :: id in q.jobIDToOriginalJobID ==> AliasOK(q, used, id))
    && (forall j, k {:trigger q.jobs[j], q.jobs[k]} ::
          j in q.jobs && k in q.jobs && q.jobs[j].id == q.jobs[k].id ==> j == k)
  }

  /** A generator waits exactly for the live jobs it gave. */
  predicate AwaitsItsJobs(q: Queue, g: nat)
    requires g in q.generators
  {
    var given := Generators.Given(q.generators[g]);
    && (forall j :: j in given ==>
          j in q.originalJobIDToGenerator && q.originalJobIDToGenerator[j] == g
          && j in q.jobs && given[j] == q.jobs[j].(id := j))
    && (forall j :: j in q.originalJobIDToGenerator && q.originalJobIDToGenerator[j] == g ==> j in given)
  }

  /** Every generator off the active list has nothing to give. */
  ghost predicate ListedOrQuiet(q: Queue, g: nat)
    requires g in q.generators
  {
    g in q.activeGeneratorIDs || (Generators.Healthy(q.generators[g]) && Generators.Quiet(q.generators[g]))
  }

  ghost predicate GeneratorsOK(q: Queue) {
    && q.activeGeneratorIDs == Elements(q.activeGenerators) && Distinct(q.activeGenerators)
    && (forall g {:trigger AwaitsItsJobs(q, g)} :: g in q.generators ==> AwaitsItsJobs(q, g))
    && (forall g {:trigger ListedOrQuiet(q, g)} :: g in q.generators ==> ListedOrQuiet(q, g))
  }

  ghost predicate Valid(q: Queue, used: set<Id>) {
    Wired(q) && AliasesOK(q, used) && GeneratorsOK(q)
  }
}
