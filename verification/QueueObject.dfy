/** The queue as an object updated in place, proved to do what the queue's state machine says. Generator and job
    objects are entries of the two tables, named as in the state machine. */
module QueueObject {
  import opened Models
  import Spec = MasterQueue
  import Generators

  class Queue {
    var generators: map<nat, Generators.Generator>
    var jobs: map<Id, Job>
    var activeGenerators: seq<nat>
    var activeGeneratorIDs: set<nat>
    var jobIDToOriginalJobID: map<Id, Id>
    var newFailedJobs: seq<Id>
    var originalJobIDToJob: set<Id>
    var originalJobIDToGenerator: map<Id, nat>

    ghost function View(): Spec.Queue reads this {
      Spec.Queue(generators, activeGenerators, activeGeneratorIDs, jobIDToOriginalJobID, newFailedJobs, jobs,
                 originalJobIDToJob, originalJobIDToGenerator)
    }

    ghost predicate Valid() reads this {
      Spec.Wired(View())
    }

    constructor ()
      ensures Valid() && View() == Spec.Empty
    {
      generators, jobs := map[], map[];
      activeGenerators, activeGeneratorIDs := [], {};
      jobIDToOriginalJobID := map[];
      newFailedJobs := [];
      originalJobIDToJob, originalJobIDToGenerator := {}, map[];
    }

    method Submit(id: nat, generator: Generators.Generator)
      requires Valid() && Generators.Healthy(generator)
      modifies this
      ensures Valid() && View() == Spec.Submit(old(View()), id, generator)
    {
      hide Generators.Healthy;
      generators := generators[id := generator];
      activeGenerators := activeGenerators + [id];
      activeGeneratorIDs := activeGeneratorIDs + {id};
    }

    /** Valid again unless the generator panics. */
    method JobCompleted(id: Id, result: JobResult) returns (completion: Spec.Completion)
      requires Valid()
      requires forall j ::
                j in originalJobIDToGenerator ==> j in Generators.Given(generators[originalJobIDToGenerator[j]])
      modifies this
      ensures (View(), completion) == Spec.JobCompleted(old(View()), id, result)
      ensures (completion.Passed? && completion.outcome.Panicked?) || Valid()
    {
      hide Generators.Healthy, Generators.Given, Generators.JobCompleted;
      ghost var before := jobIDToOriginalJobID - {id};
      var original := id;
      if id in jobIDToOriginalJobID {
        original := jobIDToOriginalJobID[id];
        jobIDToOriginalJobID := jobIDToOriginalJobID - {id};
      }
      assert jobIDToOriginalJobID == before;
      if original !in originalJobIDToGenerator {
        return if original != id then Spec.AliasLost else Spec.NoSuchJob;
      }
      var g := originalJobIDToGenerator[original];
      originalJobIDToJob := originalJobIDToJob - {original};
      originalJobIDToGenerator := originalJobIDToGenerator - {original};
      if g !in activeGeneratorIDs {
        activeGenerators := activeGenerators + [g];
      }
      activeGeneratorIDs := activeGeneratorIDs + {g};
      Generators.JobCompletedTakesOne(generators[g], original, result);
      var (generator, outcome) := Generators.JobCompleted(generators[g], original, result);
      generators := generators[g := generator];
      return Spec.Passed(g, outcome);
    }

    method RescheduleJob(id: Id, newID: Id) returns (outcome: Spec.Rescheduling)
      requires Valid()
      modifies this
      ensures Valid() && (View(), outcome) == Spec.RescheduleJob(old(View()), id, newID)
    {
      hide Generators.Healthy;
      var original := id;
      if id in jobIDToOriginalJobID {
        original := jobIDToOriginalJobID[id];
        jobIDToOriginalJobID := jobIDToOriginalJobID - {id};
        if original !in originalJobIDToJob {
          return Spec.AliasBroken;
        }
      } else if id !in originalJobIDToJob {
        assert jobIDToOriginalJobID - {id} == jobIDToOriginalJobID;
        return Spec.NotFound;
      } else {
        assert jobIDToOriginalJobID - {id} == jobIDToOriginalJobID;
      }
      jobs := jobs[original := jobs[original].(id := newID)];
      jobIDToOriginalJobID := jobIDToOriginalJobID[newID := original];
      newFailedJobs := newFailedJobs + [original];
      return Spec.Rescheduled;
    }

    /** Asks the generator at the front: one turn of the loop in NextJob. */
    method AskFront(newID: Id) returns (job: Option<Id>)
      requires Valid() && activeGenerators != []
      modifies this
      ensures Valid() && newFailedJobs == old(newFailedJobs)
      ensures job.None? ==> Spec.AskActive(View(), newID) == Spec.AskActive(old(View()), newID)
      ensures job.None? ==> |activeGenerators| == old(|activeGenerators|) - 1
      ensures job.Some? ==> (View(), job) == Spec.AskActive(old(View()), newID)
    {
      hide Generators.Healthy, Generators.NextJob, Generators.Given;
      var front := activeGenerators[0];
      Generators.NextJobGivesAtMostOne(generators[front], newID);
      var (generator, given) := Generators.NextJob(generators[front], newID);
      generators := generators[front := generator];
      if given.None? {
        activeGenerators := activeGenerators[1..];
        activeGeneratorIDs := activeGeneratorIDs - {front};
        return None;
      }
      activeGenerators := activeGenerators[1..] + [front];
      originalJobIDToGenerator := originalJobIDToGenerator[given.value.id := front];
      originalJobIDToJob := originalJobIDToJob + {given.value.id};
      jobs := jobs[given.value.id := given.value];
      return Some(given.value.id);
    }

    method NextJob(newID: Id) returns (job: Option<Id>)
      requires Valid()
      modifies this
      ensures Valid()
      ensures (View(), job) == Spec.NextJob(old(View()), newID)
    {
      hide Generators.Healthy, Generators.NextJob;
      if |newFailedJobs| > 0 {
        var first := newFailedJobs[0];
        newFailedJobs := newFailedJobs[1..];
        return Some(first);
      }
      var attempts := |activeGenerators|;
      for k := 0 to attempts
        invariant Valid() && |activeGenerators| == attempts - k
        invariant Spec.AskActive(View(), newID) == Spec.AskActive(old(View()), newID)
      {
        job := AskFront(newID);
        if job.Some? {
          return;
        }
      }
      return None;
    }
  }
}
