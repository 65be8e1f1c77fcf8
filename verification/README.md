# A verified model of the judging system's master

The system judges programming submissions. A master keeps a queue of submissions, turns each into compile and test
jobs, sends the jobs to remote invokers, and collects the results; clients poll the master for progress. Invokers keep
files in a size-bounded cache and run jobs on worker pools. This project models the logic at the centre of it and
proves, for every run:

- **Job generators** (`Ioi*.dfy`, `Icpc*.dfy`, `Rounding.dfy`). Both kinds hand out tests out of order, drop tests
  that cannot matter any more, and publish results strictly in test order. However completions interleave and whatever
  is cancelled, the submission they return, exactly once, is the one a sequential left-to-right judge makes of the
  same outcomes. The dependency closure of IOI groups, their scores and the final verdict are characterised
  independently of the code, and the problems and outcomes on which the IOI generator panics are determined exactly.
- **Dispatch protocol** (`Generators`, `OpenRuns`, `MasterQueue`, `QueueLaws`, `QueueFairness`, `InvokerMachine`,
  `Dispatch*`, `InvokerFailures`, `EndToEnd`, `Transparency`, `Completion`). Queue, invoker registry and invokers as
  one state machine whose steps are the critical sections of the original, with arbitrary results, failures, timeouts,
  duplicates and reordering. No panic of queue, registry or invoker is reachable, and if invokers report each test's outcome, and SK
  only for jobs they were told to stop, every submission returned is the sequential judge's, across any number of
  invoker failures and reschedules. Every job a generator waits for has one current ID and is in exactly one place,
  and no submission gets stuck, **exactly if** no result is discarded because it came in after the jobs of its failed
  invoker were extracted and before they were rescheduled; that can happen, and a run from the start to a stuck
  submission is given. Short of it, every run can be completed. Exactly when an invoker is given up is determined,
  and so is what becomes of its jobs.
- **Cache** (`Lru*.dfy`). Lock counts, recency list, sizes, evictions and calls of the remover under interleaved Get,
  Lock, Unlock and background loads; exactly which step can leave the cache over its bound.
- **Incremental status** (`Status*.dfy`). A client that applies increments has after every poll a full snapshot of what the
  generators reported.
- **Worker pools** (`WorkerPool`, `PoolObject`). FIFO, no lost wake-up, orderly and deadlock-free shutdown of two
  pools one of which waits for the other.
- **Units** (`Units*.dfy`). Printing and parsing of times and memory sizes round-trip on all 64-bit amounts, and every
  string is read as its digits and unit say.

Each component has a state machine on values (functions), theorems about its runs (lemmas), and, where the original
updates objects, classes (`IoiGenerator`, `IcpcGenerator`, `QueueObject`, `InvokerObject`, `RegistryObject`,
`LruObject`, `StatusObjects`, `PoolObject`, `UnitsObject`) whose methods are proved to make exactly the state
machine's step. `Models` and `Lists` are shared.

Check everything with `dafny verify --resource-limit 2000000 --verification-time-limit 0 dfyconfig.toml`.

## Conventions

- Identifiers (UUIDv7, section 5.7 of RFC 9562) are numbers drawn fresh; status epochs, which the original compares as
  strings, are numbers that never decrease within one process (section 6.2 of RFC 9562). Verdicts are a datatype with
  one case for all unlisted strings. Floating-point points are `real`.
- A job object is named by the ID it was issued with; its current ID is a field, as in the original. An invoker object
  is named by a number. Go's map iteration order is a parameter (`order`, `orders`).
- An *oracle* fixes the compiler's answer and, for each test, the answer its run would give; any verdict is allowed,
  SK and RU included. `OpenRuns` shows that every run of a generator has an oracle.
- A panic that can happen (nil points in the IOI generator) is an outcome after which nothing is modelled. A panic
  that cannot happen is either absent from a method, whose precondition or invariant excludes it, or an explicit fault
  that is proved unreachable.
- Steps are the critical sections of the original. `SendJobs` is a sequence of two kinds of steps (fetch, send).
  `HandleInvokerJobResult` and the later `Queue.JobCompleted` are two steps, and so are the two sections of
  `OnInvokerFailure`, which extracts the jobs before it takes the registry's lock. Sections that take an invoker's
  mutex inside the registry's lock (a send and its record, the offers of `UpsertInvoker`) are one step with it: what
  can come in between concerns one invoker only and can as well come before or after.
- Where code and comment disagree the code is followed: the final IOI verdict is decided by the last failing test, so
  a CF followed by another failure ends as PT.

## Model

| member | source | states |
|---|---|---|
| IoiJudge.PropagateIsLeastClosedSuperset | master/queue/jobgenerators/ioi_generator.go:406-413 | one pass over the ordered groups turns a set of stopped groups into the least superset closed under "requires": the single loop computes the full transitive closure |
| IoiJudge.GroupScoreIsLocal | master/queue/jobgenerators/ioi_generator.go:222-263 | the score and the pass mark of a group depend on the results of its own tests only |
| IoiJudge.AcceptedExactly | master/queue/jobgenerators/ioi_generator.go:57-135 | the accepted problems are those in which every group has the score its scoring needs, every test is in exactly one group, the groups are in order, names are unique, and a group requires only earlier Complete groups |
| IoiScoring.AffectsIsLinked | master/queue/jobgenerators/ioi_generator.go:406-413 | the groups one pass reaches from a group are exactly those connected to it by a chain of requirements |
| IoiScoring.DeadExactlyWhenAffected | master/queue/jobgenerators/ioi_generator.go:174-181 | after a successful compilation a group gets no more tests exactly when some failing test among the first k is in it or in a group it depends on |
| IoiScoring.SkippedExactlyWhenBlocked | master/queue/jobgenerators/ioi_generator.go:291-318 | a test ends as SK exactly when an earlier test fails in its own group or in one it requires, directly or through others |
| IoiScoring.SkippedExactlyAfterBadResults | master/queue/jobgenerators/ioi_generator.go:197-210 | after a successful compilation a published result is SK exactly if an earlier published one that is not SK is bad (not OK in a Complete group, neither OK nor PT in a Min group) in the same group or in one it is connected to by requirements |
| IoiScoring.TestedExactlyWhenRequiredPassed | master/queue/jobgenerators/ioi_generator.go:396-414 | the first test of a group is run exactly if all groups it depends on, directly or through others, have published only OK |
| IoiScoring.PublishedResultIsTheRuns | master/queue/jobgenerators/ioi_generator.go:365-394 | a result that is not SK carries the measures of its own run, the points of the checker or those its group gives for the verdict, and its verdict but for the two cases turned into CF |
| IoiScoring.SkippedResultIsBare | master/queue/jobgenerators/ioi_generator.go:291-318 | a skipped result carries nothing but its number |
| IoiScoring.PointsAddUp | master/queue/jobgenerators/ioi_generator.go:233-241 | the points of a range of tests are the sum over any cut of it |
| IoiScoring.ScoreIsTheSumOfPoints | master/queue/jobgenerators/ioi_generator.go:416-432 | if all groups are EachTest the score of the submission is the sum of the points of all its tests |
| IoiScoring.FinalVerdictIsRight | master/queue/jobgenerators/ioi_generator.go:416-457 | the final verdict is never RU; compiled, it is OK exactly when all tests are OK, else CF or PT by the last test neither OK nor skipped (a CF followed by another failure ends as PT, as in the code); not compiled, it is CE or CF. The panic on skipped tests without a verdict is unreachable |
| IoiScoring.GroupResultsAreTheScores | master/queue/jobgenerators/ioi_generator.go:222-263 | one group result per group in order, passed exactly when all its tests are OK, a Complete group earning its score exactly then; the score is the total |
| IoiScoring.SkippedMinGroupScore | master/queue/jobgenerators/ioi_generator.go:242-256 | a Min group earns 0 when any one of its tests is skipped |
| IoiScoring.UnskippedMinGroupScore | master/queue/jobgenerators/ioi_generator.go:242-256 | otherwise it earns the least of its group score and the points of its tests |
| IoiScoring.CrashesExactly | master/queue/jobgenerators/ioi_generator.go:229-257 | the nil-points panics are reached exactly when an EachTest test is skipped, or a judged EachTest or Min test answers PT without points |
| IoiScoring.SafeExactlyWithoutEachTest | master/queue/jobgenerators/ioi_generator.go:233-241 | the problems that never panic, whatever compiler and tests answer (PT with points), are exactly those without EachTest groups |
| IoiScoring.SafeOnceCompiledExactly | master/queue/jobgenerators/ioi_generator.go:233-241 | when the program compiles they are exactly those whose EachTest groups require no group |
| IoiMachine.Prune | master/queue/jobgenerators/ioi_generator.go:174-181 | passing over tests of stopped groups changes slots and the give cursor only, and the cursor only forward |
| IoiMachine.PruneMarksClosedTests | master/queue/jobgenerators/ioi_generator.go:174-181 | it finishes exactly the tests of a run of stopped groups and stops at the first test that may be given |
| IoiMachine.Publish | master/queue/jobgenerators/ioi_generator.go:266-323 | publication goes on exactly until a running or undecided test, and touches results, group results, skip flags and cursors only |
| IoiMachine.FinalVerdictIsACause | master/queue/jobgenerators/ioi_generator.go:433-456 | the verdict loop yields OK exactly when every result is OK or skipped |
| IoiInvariant.PublishOneIsJudge | master/queue/jobgenerators/ioi_generator.go:291-323 | each published result and each skip flag is what the sequential judge has at that test |
| IoiInvariant.PruneKeepsBlocked | master/queue/jobgenerators/ioi_generator.go:174-181 | asking for a job never makes a publishable test appear: publication need not run in NextJob |
| IoiInvariant.GivenTestIsUnpublished | master/queue/jobgenerators/ioi_generator.go:182-191 | a test is given only before its position is published |
| IoiInvariant.StoppedJobIsSkipped | master/registry/registry.go:82-91 | a job the registry stops because of an answer runs a test that the judge skips |
| IoiInvariant.AnswerKeepsClosed | master/queue/jobgenerators/ioi_generator.go:396-414 | a completed test stops exactly groups the judge stops, and a failing judged test stops its group |
| IoiRuns.StepKeepsInv | master/queue/jobgenerators/ioi_generator.go:150-503 | every call of NextJob, every accepted result and every JobCompleted keeps the generator tied to the sequential judge |
| IoiRuns.RunKeepsInv | master/queue/jobgenerators/ioi_generator.go:150-503 | and so does every run, in any order of completion, with any job cancelled |
| IoiTheorems.ReturnedExactlyOnce | master/queue/jobgenerators/ioi_generator.go:325-333 | a run returns nothing before it is finished and then exactly one submission: the sequential judge's |
| IoiTheorems.ScheduleIndependence | master/queue/jobgenerators/ioi_generator.go:266-334 | two finished runs with the same outcome per test end with the same submission, whatever the interleaving and the cancellations |
| IoiTheorems.Progress | master/queue/jobgenerators/ioi_generator.go:150-195 | an unfinished generator without a job out always returns a job when asked |
| IoiTheorems.CrashesExactlyWhenTheJudgeDoes | master/queue/jobgenerators/ioi_generator.go:229-257 | a run that can go no further panicked exactly when judging meets a group without a score, and is finished otherwise |
| IoiTheorems.EveryRunCanBeExhausted | master/queue/jobgenerators/ioi_generator.go:229-257 | wherever a run stands it can go on to where it can go no further: the panic is reached whenever judging meets a group without a score, and every other submission can be finished, with the judge's result |
| IoiTheorems.TestsAreGivenInOrder | master/queue/jobgenerators/ioi_generator.go:174-192 | along every run tests are handed out in increasing order, so each at most once |
| IoiTheorems.EachTestIsGivenOnce | master/queue/jobgenerators/ioi_generator.go:174-192 | no test is handed out twice, whatever the run |
| IoiRequirements.RequiredExactly | master/queue/jobgenerators/ioi_generator.go:141-148 | in every run a job requires another one exactly if that one runs an earlier test whose bad result stops the group of its own at once: one of the same group unless it is EachTest, or of one it requires directly |
| IoiTheorems.RunningTestsAreTheGivenJobs | master/queue/jobgenerators/ioi_generator.go:182-191 | once compiled, the running tests are exactly those a given job is for, one job each |
| IoiTheorems.SkippedVerdictIsRepairedExactly | master/queue/jobgenerators/ioi_generator.go:299-302 | a run takes the branch turning SK into CF exactly if a test published so far is one that the judge does not skip and whose own run answers SK |
| IoiTheorems.SkippedVerdictIsNeverRepaired | master/queue/jobgenerators/ioi_generator.go:299-302 | so if no test's own run answers SK or RU, no run ever takes it, whatever is cancelled, and none publishes a placeholder |
| IoiTheorems.AnswerFinalizesExactlyWhenFinished | master/queue/jobgenerators/ioi_generator.go:325-333 | JobCompleted returns the submission exactly in the step that publishes the last test |
| IoiGenerator.IOIGenerator.constructor | master/queue/jobgenerators/ioi_generator.go:505-534 | a new generator has the problem and an unjudged submission, and nothing else |
| IoiGenerator.IOIGenerator.AddTests | master/queue/jobgenerators/ioi_generator.go:118-127 | appends the names and undecided results of one group's tests |
| IoiGenerator.IOIGenerator.BuildTables | master/queue/jobgenerators/ioi_generator.go:102-133 | fails only on ill-formed problems, and otherwise fills the lookup tables for all groups and tests |
| IoiGenerator.IOIGenerator.CheckIfGroupsDependenciesOK | master/queue/jobgenerators/ioi_generator.go:57-94 | accepts exactly the well-formed problems: consecutive non-empty ranges, distinct names, requirements on earlier Complete groups |
| IoiGenerator.IOIGenerator.PrepareGenerator | master/queue/jobgenerators/ioi_generator.go:96-135 | accepts exactly the well-formed problems and then stands in the initial state |
| IoiGenerator.IOIGenerator.DoesGroupDependOnJob | master/queue/jobgenerators/ioi_generator.go:141-148 | decides whether a running job must stop a new one |
| IoiGenerator.IOIGenerator.RequiredJobs | master/queue/jobgenerators/ioi_generator.go:185-189 | collects exactly the given jobs the new job depends on |
| IoiGenerator.IOIGenerator.SkipClosedTests | master/queue/jobgenerators/ioi_generator.go:174-181 | the loop is Prune |
| IoiGenerator.IOIGenerator.NextJob | master/queue/jobgenerators/ioi_generator.go:150-195 | state and result are those of the state machine's Ask |
| IoiGenerator.IOIGenerator.StopGivingNewTestsIfNeeded | master/queue/jobgenerators/ioi_generator.go:396-414 | closes the group and everything depending on it exactly when the verdict is not OK in a Complete group, or neither OK nor PT in a Min group |
| IoiGenerator.IOIGenerator.CalcGroupVerdict | master/queue/jobgenerators/ioi_generator.go:211-220 | OK exactly when all tests of the group are |
| IoiGenerator.IOIGenerator.ScoreGroup | master/queue/jobgenerators/ioi_generator.go:229-257 | computes the group score, or reports where the original dereferences nil points |
| IoiGenerator.IOIGenerator.CompleteGroupTesting | master/queue/jobgenerators/ioi_generator.go:222-263 | appends the group result and moves the group cursor, or panics on nil points |
| IoiGenerator.IOIGenerator.PublishTest | master/queue/jobgenerators/ioi_generator.go:284-323 | publishes one test as the state machine does |
| IoiGenerator.IOIGenerator.SetFinalScoreAndVerdict | master/queue/jobgenerators/ioi_generator.go:416-457 | adds the group points and settles the verdict |
| IoiGenerator.IOIGenerator.UpdateSubmissionResult | master/queue/jobgenerators/ioi_generator.go:266-334 | publishes what can be published and finalizes when everything is |
| IoiGenerator.IOIGenerator.CompileJobCompleted | master/queue/jobgenerators/ioi_generator.go:337-363 | stores the compilation result; a failure skips all groups |
| IoiGenerator.IOIGenerator.PopulateTestJobResult | master/queue/jobgenerators/ioi_generator.go:365-394 | fills in missing points or reports PT without points |
| IoiGenerator.IOIGenerator.TestJobCompleted | master/queue/jobgenerators/ioi_generator.go:460-484 | stores the repaired, rounded result and closes groups |
| IoiGenerator.IOIGenerator.JobCompleted | master/queue/jobgenerators/ioi_generator.go:486-503 | state and outcome are those of the state machine's Answer; valid again unless it panicked |
| IoiGenerator.NewIOIGenerator | master/queue/jobgenerators/ioi_generator.go:505-534 | returns a generator in its initial state exactly for well-formed problems |
| IcpcJudge.OksThenOneFailureThenSkips | master/queue/jobgenerators/icpc_generator.go:86-115 | compiled: OK results, then the first failing one, then only SK, one per test in order; verdict and score follow it |
| IcpcJudge.FailedCompilationSkipsAll | master/queue/jobgenerators/icpc_generator.go:130-144 | not compiled: every test is SK, the verdict CE or CF, the score 0 |
| IcpcJudge.FullMarksExactlyWhenAllOK | master/queue/jobgenerators/icpc_generator.go:116-120 | the score is 1 exactly when the program compiled and every test is OK |
| IcpcJudge.SkippedExactlyAfterAFailure | master/queue/jobgenerators/icpc_generator.go:86-115 | a published result is SK exactly if an earlier published one is neither OK nor SK |
| IcpcJudge.PublishedResultIsTheRuns | master/queue/jobgenerators/icpc_generator.go:148-163 | a result that is not SK carries the measures, points and verdict of its own run, CF for SK and for what is no outcome of a test |
| IcpcJudge.SkippedResultIsBare | master/queue/jobgenerators/icpc_generator.go:93-98 | a skipped result carries nothing but its number |
| IcpcMachine.Publish | master/queue/jobgenerators/icpc_generator.go:86-115 | publication goes on exactly until the first test without a result |
| IcpcMachine.BadAnswerSettles | master/queue/jobgenerators/icpc_generator.go:68-76 | after an answer that is not OK, the test's own or because it was stopped, the judge skips every later test |
| IcpcMachine.StepKeepsInv | master/queue/jobgenerators/icpc_generator.go:36-185 | every call keeps the generator tied to the sequential judge |
| IcpcMachine.RunKeepsInv | master/queue/jobgenerators/icpc_generator.go:36-185 | and so does every run with any completion order and cancellation |
| IcpcTheorems.ReturnedExactlyOnce | master/queue/jobgenerators/icpc_generator.go:78-122 | a run returns exactly one submission, when it is finished, and it is the sequential judge's |
| IcpcTheorems.ScheduleIndependence | master/queue/jobgenerators/icpc_generator.go:78-122 | finished runs with the same outcomes agree |
| IcpcTheorems.Progress | master/queue/jobgenerators/icpc_generator.go:36-66 | without a job out the generator returns a job exactly while it is unfinished |
| IcpcTheorems.EveryRunCanBeFinished | master/queue/jobgenerators/icpc_generator.go:39-64 | wherever a run stands it can go on to the end, with the judge's result |
| IcpcTheorems.TestsAreGivenInOrder | master/queue/jobgenerators/icpc_generator.go:53-63 | along every run tests are handed out in increasing order, so each at most once |
| IcpcTheorems.EachTestIsGivenOnce | master/queue/jobgenerators/icpc_generator.go:53-63 | no test is handed out twice, whatever the run |
| IcpcTheorems.RequiredExactly | master/queue/jobgenerators/icpc_generator.go:53-63 | in every run a job requires another one exactly if that one runs an earlier test |
| IcpcTheorems.SkippedVerdictIsRepairedExactly | master/queue/jobgenerators/icpc_generator.go:102-107 | a run takes the branch turning SK into CF exactly if a test published so far is one that the judge does not skip and whose own run answers SK |
| IcpcTheorems.SkippedVerdictIsNeverRepaired | master/queue/jobgenerators/icpc_generator.go:102-107 | so if no test's own run answers SK, no run ever takes it, whatever is cancelled |
| IcpcGenerator.ICPCGenerator.NextJob | master/queue/jobgenerators/icpc_generator.go:36-66 | state and result are those of Ask |
| IcpcGenerator.ICPCGenerator.MarkRestSkipped | master/queue/jobgenerators/icpc_generator.go:68-76 | setFail: placeholders for all tests not given yet |
| IcpcGenerator.ICPCGenerator.PublishNext | master/queue/jobgenerators/icpc_generator.go:92-115 | publishes one result; its panic is unreachable |
| IcpcGenerator.ICPCGenerator.UpdateSubmissionResult | master/queue/jobgenerators/icpc_generator.go:78-122 | publishes and finalizes as the state machine does |
| IcpcGenerator.ICPCGenerator.CompileJobCompleted | master/queue/jobgenerators/icpc_generator.go:125-145 | stores the compilation result and fails the rest unless CD |
| IcpcGenerator.ICPCGenerator.TestJobCompleted | master/queue/jobgenerators/icpc_generator.go:148-163 | stores the rounded result and fails the rest unless OK |
| IcpcGenerator.ICPCGenerator.JobCompleted | master/queue/jobgenerators/icpc_generator.go:165-185 | state and outcome are those of Answer; a job it did not give panics |
| Rounding.RoundValue | master/queue/jobgenerators/common.go:50-59 | two rounds of 64-bit round-ups for any factor, wrapping as the original does; it divides by zero exactly if the value reaches a factor whose square wraps to 0, and never for the two factors in use |
| Rounding.RoundsOnceToTheCoarsestFactor | master/queue/jobgenerators/common.go:50-59 | up to a limit near 2^64 rounding is one round-up to the coarsest factor reached; above it the sum wraps and the result is 0 |
| Rounding.NeverBelowItsInputExactly | master/queue/jobgenerators/common.go:50-59 | a positive value is not rounded below itself exactly up to that limit, and then less than doubles |
| Rounding.MonotoneExactly | master/queue/jobgenerators/common.go:50-59 | a larger value rounds to less exactly when it is above the limit and the smaller one, not 0, is within it |
| Rounding.IdempotentExactly | master/queue/jobgenerators/common.go:50-59 | rounding twice is rounding once exactly for the values up to a bound just below the limit, the largest one the coarsest factor keeps within the limit, and for those above the limit |
| Rounding.CompilationIsReported | master/queue/jobgenerators/common.go:19-44 | the compilation is reported as test 0 with its own time, memory and wall time, each rounded by its own factor, and CF for what is neither CD nor CE |
| Rounding.NotIdempotent | master/queue/jobgenerators/common.go:50-59 | a time in between: 18446744073708550000 rounds to 18446744073709000000, and that to 0 |
| Generators.NextJobGivesAtMostOne | master/queue/jobgenerators/generator.go:11-21 | either kind of generator gives at most one job, under the fresh ID, for its own submission, requiring only jobs it has out; the first job compiles, all others test |
| Generators.NothingToGiveIsQuiet | master/queue/queue.go:126-130 | a generator that returned nil returns nil again until a job completes, so taking it off the list loses nothing |
| Generators.JobCompletedKeepsSound | master/queue/jobgenerators/generator.go:11-21 | for both kinds: honest answers keep the generator sound, and it returns the judge's submission exactly when it finishes |
| Generators.IdleGeneratorIsFinished | master/queue/jobgenerators/generator.go:11-21 | for both kinds: nothing out and nothing to give means finished |
| OpenRuns.EveryRunHasAnOracle | master/queue/jobgenerators/generator.go:11-21 | whatever results a generator is given, there is an outcome per test explaining all of them, so the theorems about honest runs apply to every run |
| QueueLaws.SubmitKeepsValid | master/queue/queue.go:33-45 | submitting keeps the queue's invariant |
| QueueLaws.NextJobKeepsValid | master/queue/queue.go:112-138 | NextJob returns the oldest failed job, or a fresh live one, or nothing with the active list emptied; generators off the list stay without anything to give |
| QueueLaws.JobCompletedReachesItsGenerator | master/queue/queue.go:47-77 | a current ID reaches the generator waiting for its job, which is live no longer |
| QueueLaws.JobCompletedKeepsValid | master/queue/queue.go:47-77 | and the invariant is kept unless that generator panics |
| QueueLaws.RescheduleKeepsValid | master/queue/queue.go:79-110 | rescheduling renames one job, queues it again, and touches no generator |
| QueueFairness.WaitingNeverMovesBack | master/queue/queue.go:121-136 | unless asked, a listed generator never moves back, and moves up whenever another one's fresh job is handed out |
| QueueFairness.AtMostPositionFreshJobs | master/queue/queue.go:121-136 | bounded bypass: a generator at position p is passed over by at most p fresh jobs |
| QueueFairness.FailedJobsAreInOrder | master/queue/queue.go:79-120 | along every run the rescheduled jobs handed out and those still waiting are those that waited before and those rescheduled since, in that order |
| QueueObject.Queue.Submit | master/queue/queue.go:33-45 | appends the generator to the active list |
| QueueObject.Queue.JobCompleted | master/queue/queue.go:47-77 | state and completion are those of the queue's state machine |
| QueueObject.Queue.RescheduleJob | master/queue/queue.go:79-110 | renames and re-queues the job as the state machine does |
| QueueObject.Queue.AskFront | master/queue/queue.go:122-135 | one turn of the loop: ask the front generator, then rotate or retire it |
| QueueObject.Queue.NextJob | master/queue/queue.go:112-138 | failed jobs first, then the active generators in turn |
| InvokerMachine.SendRespectsTheLimit | master/registry/invoker.go:162-175 | a job is sent exactly when the invoker has not failed and fewer jobs than MaxNewJobs are being sent; the limit then still holds |
| InvokerMachine.SetJobTypeIsCounted | master/registry/invoker.go:116-124 | jobTypesCount stays the number of holders of each type |
| InvokerMachine.UpdateKeeps | master/registry/invoker.go:191-227 | a status update loses and adds no job, moves jobs only forward, is taken over only with a greater epoch, and never touches jobs being sent |
| InvokerMachine.UpdateFollowsTheStatus | master/registry/invoker.go:196-217 | after an update the jobs known as testing are exactly the active ones that are not being sent; the invoker fails exactly when a job without reply reappears |
| InvokerObject.Invoker.AddJob | master/registry/invoker.go:108-114 | a job being sent, counted |
| InvokerObject.Invoker.SetJobType | master/registry/invoker.go:116-124 | moves a job and both counts |
| InvokerObject.Invoker.RemoveJob | master/registry/invoker.go:126-133 | removes a job and its count |
| InvokerObject.Invoker.TrySendJob | master/registry/invoker.go:162-175 | state and answer are those of the state machine |
| InvokerObject.Invoker.ExtractJobs | master/registry/invoker.go:240-253 | returns all jobs and leaves none |
| InvokerObject.Invoker.JobTested | master/registry/invoker.go:255-267 | removes a known job, reports an unknown one |
| InvokerObject.Invoker.EnsureJobIsNotLost | master/registry/invoker.go:181-189 | the invoker has failed afterwards exactly if it had before or the job still has no reply; its jobs and status stay |
| InvokerObject.Invoker.UpdateStatus | master/registry/invoker.go:191-227 | the loop over the jobs is Scan, in whatever order they come |
| InvokerObject.Invoker.VerifyAndUpdateStatus | master/registry/invoker.go:269-279 | takes a status of its own address |
| InvokerObject.Invoker.CompleteSendJob | master/registry/invoker.go:135-160 | takes the reply to a send; the panic needs no branch |
| InvokerObject.Invoker.FreeSlots | master/registry/invoker.go:281-288 | reports MaxNewJobs less the jobs being sent |
| DispatchSteps.ReceiveKeepsInv | master/registry/registry.go:69-97 | taking in a result keeps the invariant at any time, the panic on a testing job without an invoker being unreachable; a result the registry knows is accepted if its invoker still has the job, and otherwise discarded |
| DispatchSteps.ApplyKeepsSafe | master/invoker_handlers.go:35-46 | passing an accepted result to the queue, in a later section, always finds its job: neither the alias panic nor the error is reachable |
| DispatchSteps.SentKeepsInv | master/registry/invoker.go:135-160 | the panic on a job that changed its type while being sent is unreachable, although the job's ID may have changed meanwhile |
| DispatchSteps.ExtractKeepsInv | master/registry/registry.go:38-38 | extracting the jobs of a failed invoker, before the lock is taken, keeps the invariant |
| DispatchSteps.UnregisterKeepsInv | master/registry/registry.go:40-52 | rescheduling, later and under the lock, those jobs the registry still has keeps it too, whatever came in between; the panic of RescheduleJob is unreachable |
| DispatchSteps.UpsertKeepsInv | master/registry/registry.go:55-67 | registering or updating an invoker keeps the invariant |
| DispatchSteps.StepKeepsSafe | master/registry/registry.go:37-122 | every step of queue, registry and invokers keeps the invariant, or a generator panics |
| DispatchTheorems.OnlyGeneratorsPanic | master/queue/queue.go:59-66 | in every run nothing panics except a generator |
| DispatchTheorems.StepConservesExactly | master/registry/registry.go:37-122 | conservation (every job a generator waits for is in exactly one of newFailedJobs, nextJob, invokerByJobID and the accepted results) is kept by every step but exactly a result whose job the registry maps to an invoker that does not have it |
| DispatchTheorems.DiscardedWhileExtracted | master/registry/registry.go:38-40 | in a reachable state that is exactly a result for a job that was extracted from a failed invoker and waits for the lock to be rescheduled |
| DispatchTheorems.RunConservesExactly | master/registry/registry.go:37-122 | a run conserves all jobs exactly if it discards no such result |
| DispatchTheorems.EveryAwaitedJobIsInOnePlace | master/registry/registry.go:37-122 | in every run each job a generator waits for has exactly one current ID, and is in exactly one place, or nowhere if its result was discarded; without such a result it is in exactly one place |
| DispatchTheorems.DiscardedIsLostForever | master/registry/registry.go:94-96 | a job whose result was discarded stays live and in no place in every later state |
| DispatchTheorems.AnyExtractedJobCanBeLost | master/registry/registry.go:38-40 | in any reachable state with a registered failed invoker that still has jobs, extracting them and receiving the result of any one of them loses it |
| DispatchTheorems.ALostJob | master/registry/registry.go:38-40 | this happens: a run of seven steps from the start after which the compile job of the only submission is awaited and in no place |
| DispatchTheorems.AliasesAreRight | master/queue/queue.go:47-110 | in every run jobIDToOriginalJobID is injective, each key is the ID of the job stored under its original ID, and both maps by original ID share one domain |
| DispatchTheorems.RegistryAndInvokersAgree | master/registry/registry.go:94-121 | an invoker object has a job exactly if the registry maps the job to it and its jobs are not extracted; both agree with the queue on what the job is, and the counts of every invoker are right |
| DispatchTheorems.ResultsAreDeliveredOnce | master/queue/queue.go:67-76 | each job's result reaches its generator at most once, and the job is nowhere afterwards |
| DispatchTheorems.StaleResultsAreIgnored | master/registry/registry.go:75-80 | superseded and duplicate results change nothing |
| DispatchTheorems.InvokersOnlyAdvance | master/registry/invoker.go:135-253 | every step moves jobs of every invoker only from sending to testing to no reply, epochs only grow, failures stay |
| InvokerFailures.EveryStepIsExact | master/registry/invoker.go:65-279 | what each step does to each invoker: which status it is offered and whether it takes it over, which jobs it is known to hold and how far they got, and whether it has failed |
| InvokerFailures.GivenUpExactly | master/registry/invoker.go:65-238 | a step gives up an invoker exactly if its connection fails, a job cannot be sent to it, the time of a job without reply is over, or a newer status it is offered lists such a job as active |
| InvokerFailures.GivenUpIsExtracted | master/registry/invoker.go:229-238 | whoever is given up is registered, and its jobs can be extracted at once |
| InvokerFailures.LostJobIsGivenOutAgain | master/registry/registry.go:37-53 | when the time of a lost job is over, handling the failure unregisters the invoker and puts that job and all others it had among those to be handed out again |
| InvokerFailures.RegistersExactly | master/registry/registry.go:55-67 | UpsertInvoker registers a new invoker exactly if no registered one of the address takes the status and stays alive |
| DispatchTheorems.StepKeepsAddressesExactly | master/registry/invoker.go:135-279 | at most one registered invoker per address is alive: every step keeps this but exactly an answer to a ping or a job that is taken over and carries the address of another registered invoker that is alive |
| DispatchTheorems.OneAliveInvokerPerAddress | master/registry/registry.go:55-67 | so it holds in every run without such an answer |
| DispatchTheorems.OwnAddressNeverCollides | master/registry/invoker.go:191-227 | and an invoker that reports its own address never gives one |
| DispatchTheorems.ACollision | master/registry/invoker.go:65-78 | this happens: a run of three steps, two registrations and an answer to a ping with the address of the other invoker, after which two registered invokers of one address are alive |
| DispatchTheorems.UpsertLeavesExactlyOneAlive | master/registry/registry.go:55-67 | after UpsertInvoker exactly one registered invoker of the address is alive |
| RegistryObject.InvokerRegistry.Fetch | master/registry/registry.go:107-109 | draws the next job when none is waiting |
| RegistryObject.InvokerRegistry.TrySend | master/registry/registry.go:114-119 | one attempt to send; the maps follow the invoker |
| RegistryObject.InvokerRegistry.SendTo | master/registry/registry.go:106-120 | sends to one invoker until it refuses or nothing is left, and terminates |
| RegistryObject.InvokerRegistry.SendJobs | master/registry/registry.go:99-122 | a sequence of fetch and send steps after which nothing is left or every invoker refuses |
| RegistryObject.InvokerRegistry.JobsToStop | master/registry/registry.go:82-91 | exactly the entries of testingJobs whose job lists the ID of the result among its requirements |
| RegistryObject.InvokerRegistry.ReceiveResult | master/registry/registry.go:69-97 | the locked section does what the protocol's step does and reports whether the result was accepted; for a verdict other than OK and PT exactly the running jobs that require the ID are stopped |
| RegistryObject.InvokerRegistry.ExtractFrom | master/registry/registry.go:38-38 | the extraction is the protocol's step |
| RegistryObject.InvokerRegistry.RescheduleOneJob | master/registry/registry.go:43-50 | reschedules a job the registry still has |
| RegistryObject.InvokerRegistry.RescheduleAll | master/registry/registry.go:40-52 | rescheduling in any order and unregistering, whenever the lock is got, are the protocol's step |
| RegistryObject.InvokerRegistry.OnInvokerFailure | master/registry/registry.go:37-53 | uninterrupted, it is the two steps |
| RegistryObject.InvokerRegistry.UpsertInvoker | master/registry/registry.go:55-67 | offers the status in order, registers a new invoker when nobody takes it |
| EndToEnd.ReturnedExactlyOnce | master/invoker_handlers.go:41-53 | in every run the finished generators are those whose submission was returned, each once, with its final result |
| EndToEnd.ReturnedIsAJudgement | master/invoker_handlers.go:41-53 | whatever the invokers answered, every submission returned is what the sequential judge makes of some outcome per test |
| EndToEnd.NoSubmissionIsStuck | master/queue/queue.go:70-73 | whenever no job is out and the queue has none to hand out, every submission has been returned, whatever invokers answered and however often they failed, if no result was discarded |
| EndToEnd.AllReturnedExactly | master/queue/queue.go:70-73 | and then all submissions have been returned exactly if no result was discarded |
| EndToEnd.ReturnedUnlessLost | master/queue/queue.go:70-73 | each submission by itself has then been returned exactly if no result for one of its own jobs was discarded: a lost job affects no other submission |
| EndToEnd.LostJobBlocksItsSubmission | master/queue/queue.go:70-73 | the submission of a lost job is never returned |
| EndToEnd.AStuckSubmission | master/registry/registry.go:38-40 | a run after which nothing is left to do and a submission is stuck |
| Transparency.StopsAreRequirements | master/registry/registry.go:82-91 | the jobs stopped for a result that is neither OK nor PT are exactly the running jobs of the same generator that require its job, if that job was never rescheduled; nothing is stopped for any other result |
| Transparency.StepKeepsFaithful | master/invoker_handlers.go:25-56 | every step keeps all generators sound for the outcomes, as long as accepted results are honest |
| Transparency.ReturnedIsTheJudgement | master/invoker_handlers.go:25-56 | if invokers report each test's outcome, and SK only for jobs the registry stopped, every submission returned is the sequential judge's, across failures, reschedules, duplicates and cancellations |
| Transparency.HonestRunsNeverPanic | master/queue/jobgenerators/ioi_generator.go:229-257 | and nothing panics if every submission's outcomes can be scored |
| Transparency.EverySubmissionIsJudged | master/invoker_handlers.go:25-56 | the whole path: once no job is out and none is left to hand out, every submission has been returned with the judge's result exactly if no result was discarded |
| Completion.EveryRunCanBeCompleted | master/registry/registry.go:37-122 | wherever a run among honest invokers stands it can go on, honestly and without losing a job, to where nothing is left to do, every submission then being judged exactly if no result of one of its jobs had been discarded: that is the only way to lose one |
| Transparency.NoSkipIsRepaired | master/queue/jobgenerators/ioi_generator.go:299-302 | a stopped job's SK never ends up as CF in any run among honest invokers, unless the own run of some test answers SK |
| LruCache.ItemUsedKeepsAccounts | lib/cache/cache.go:219-225 | using an item reorders the list and keeps the accounts |
| LruCache.EvictRemovesTheVictims | lib/cache/cache.go:228-255 | the eviction loop removes its victims and nothing else |
| LruCache.VictimsAreTheShortestPrefix | lib/cache/cache.go:228-239 | the victims are the shortest prefix of the unlocked keys in recency order that suffices, or all of them |
| LruCache.OlderGoesFirst | lib/cache/cache.go:228-239 | no surviving unlocked key is less recently used than an evicted one |
| LruCache.EvictionRestoresTheBound | lib/cache/cache.go:228-255 | the whole contract of eviction, with the accounts kept and the bound restored unless all loaded items are locked |
| LruProtocol.StepKeepsInv | lib/cache/cache.go:66-216 | Get, Lock, Unlock and loads in any interleaving keep lock counts, list, sizes and loads right |
| LruProtocol.CacheIsConsistent | lib/cache/cache.go:66-255 | in every run totalSize is the sum of loaded sizes, the list is the loaded keys without duplicates, lock counts are open locks plus waiting Gets, no panic is reachable |
| LruProtocol.GetReturnsWhatWasLoaded | lib/cache/cache.go:66-89 | what a Get hands out, at once exactly if the item is loaded or else after its wait, is the value and the error the loader returned last for its key |
| LruProtocol.GetIsTheLoader | lib/cache/cache.go:66-89 | with a loader that is a function of the key, Get is that function |
| LruProtocol.UnlockAnswersRightly | lib/cache/cache.go:108-124 | in every run Unlock finds nothing exactly if the key is neither loaded nor being loaded, and nothing locked exactly if no caller has a lock on it or waits for it |
| LruProtocol.LoadsAndUnlocksRestoreTheBound | lib/cache/cache.go:108-124 | after a load and after a successful Unlock the size is within the bound or all loaded items are locked |
| LruProtocol.StepKeepsTheBoundExactly | lib/cache/cache.go:66-124 | the bound (the size is within it or all loaded items are locked) is kept by every step but exactly a Get that waited and gives up the last lock of its item while the size exceeds the bound |
| LruProtocol.BoundHoldsWithoutOverflow | lib/cache/cache.go:66-124 | so it holds in every run without such a Get |
| LruProtocol.AGetCanExceedTheBound | lib/cache/cache.go:80-88 | this happens: a run of three steps that leaves the cache over its bound with nothing locked |
| LruProtocol.OnlyFairUnlocksKeepInv | lib/cache/cache.go:108-124 | the accounting of locks survives a step exactly when callers unlock only what they locked |
| LruRecency.RankIsByLastUse | lib/cache/cache.go:219-225 | in every run the recency list is sorted by last use, where a Get that returns, a Lock of a loaded item and a finished load are uses |
| LruRecency.UnlockEvictsTheLeastRecentlyUsed | lib/cache/cache.go:108-124 | every item an Unlock evicts was used less recently than every unlocked item that survives it |
| LruRecency.LoadEvictsTheLeastRecentlyUsed | lib/cache/cache.go:198-215 | the same for the items a finished load evicts, the loaded item being the last one used |
| LruRemover.EveryLoadIsRemovedOnce | lib/cache/cache.go:243-255 | nothing leaks: in every run the loads of a key that ended without error are as many as the calls of the remover for it, and one more exactly while its value is in the cache |
| LruRemover.CallsHaveTheLoadedValue | lib/cache/cache.go:247-249 | the remover is called with the value the loader returned last for the key, and never after an error |
| LruProtocol.LockedItemsStay | lib/cache/cache.go:91-102 | an item that stays locked stays, with its value |
| LruObject.LRUSizeCache.ItemUsed | lib/cache/cache.go:219-225 | moves or appends the key |
| LruObject.LRUSizeCache.LockAndGetHolder | lib/cache/cache.go:174-191 | locks the holder or starts a load |
| LruObject.LRUSizeCache.GetBegin | lib/cache/cache.go:66-78 | the part of Get before its wait: value and error of a loaded item, else the caller waits |
| LruObject.LRUSizeCache.GetEnd | lib/cache/cache.go:81-88 | the part after it: value and error of the item |
| LruObject.LRUSizeCache.Lock | lib/cache/cache.go:95-102 | locks and uses a loaded item |
| LruObject.LRUSizeCache.Unlock | lib/cache/cache.go:108-124 | releases and evicts, or reports an error |
| LruObject.LRUSizeCache.FinishLoad | lib/cache/cache.go:198-215 | fills the holder, adds its size, evicts |
| LruObject.LRUSizeCache.RemoveSingleItem | lib/cache/cache.go:243-255 | removes an unlocked item and its size |
| LruObject.LRUSizeCache.RemoveItemsIfNeeded | lib/cache/cache.go:228-239 | the loop over the list is Evict |
| StatusSync.OrderIsAlwaysSorted | master/queue/queuestatus/status.go:36-83 | in every run the list holds the active submissions, each once, last updated first |
| StatusSync.BreakIsExact | master/queue/queuestatus/status.go:99-108 | the early break leaves exactly the submissions updated in the client's epoch or later |
| StatusSync.APollIsAFullSnapshot | clients/tsapi/masterstatus/master_status.go:55-82 | after every successful poll the client has, for every submission under test, what its generator had reported last, and knows exactly which ones are under test: increments amount to full snapshots, across restarts of the master |
| StatusSync.APollBringsOnlyNews | master/queue/queuestatus/status.go:85-110 | a poll transfers exactly the submissions reported on since the epoch of the answer before, as reported last |
| StatusSync.AfterAQuietPollTheClientAgrees | clients/tsapi/masterstatus/master_status.go:73-79 | of every submission nothing was reported on since its epoch the client has what was reported last |
| StatusSync.StepKeepsInv | master/queue/queuestatus/status.go:36-110 | master updates, lost answers and polls in progress keep the agreement |
| StatusObjects.QueueStatus.AddSubmission | master/queue/queuestatus/status.go:36-49 | puts the submission in front |
| StatusObjects.QueueStatus.FinishSubmissionTesting | master/queue/queuestatus/status.go:51-60 | removes it |
| StatusObjects.QueueStatus.UpdateSubmission | master/queue/queuestatus/status.go:62-83 | stores what is reported, under the new epoch, and moves it to the front |
| StatusObjects.QueueStatus.CollectUpdated | master/queue/queuestatus/status.go:99-108 | the loop with its early break |
| StatusObjects.QueueStatus.GetStatus | master/queue/queuestatus/status.go:85-110 | answers with the active and the updated submissions |
| StatusObjects.MasterStatus.TakeStatus | clients/tsapi/masterstatus/master_status.go:69-81 | overwrites what the answer updates |
| WorkerPool.FifoExactlyOnce | invoker/threads_executor.go:78-88 | values are dequeued in the order they were accepted, each once |
| WorkerPool.NobodySleepsBesideWork | invoker/threads_executor.go:80-85 | no lost wake-up: while a worker sleeps beside queued values, as many others as there are values are about to take them |
| WorkerPool.ExitMeansDrained | invoker/threads_executor.go:80-83 | a worker exits only after stop with everything taken; when all have exited, everything was processed |
| WorkerPool.ShutdownTerminates | invoker/threads_executor.go:42-54 | a stopped pool always has a step to make until all workers have exited, each bringing the end closer, and accepts nothing |
| WorkerPool.WorkIsBounded | invoker/threads_executor.go:78-98 | whatever the scheduler chooses, the workers of a pool that gets nothing new make only so many steps |
| WorkerPool.NoProcessIsRejected | invoker/threads_executor.go:141-172 | with the runner pool stopped only after all sandbox workers exited, it never rejects a process, and a process a sandbox worker waits for is queued or runs |
| WorkerPool.BothPoolsComeToAnEnd | invoker/threads_executor.go:141-172 | no deadlock: although sandbox workers wait for their processes, after the stop some worker can always move until all workers of both pools have exited, each move bringing the end closer |
| WorkerPool.SettlingIsBounded | invoker/threads_executor.go:141-172 | whatever the scheduler chooses, only so many moves come without a new job or process |
| WorkerPool.NoThreadsNoEnd | invoker/threads_executor.go:174-193 | this needs a runner thread: without one, a sandbox worker that waits for a process waits for ever |
| PoolObject.ThreadsExecutor.AddValue | invoker/threads_executor.go:31-40 | appends and signals, or refuses after stop |
| PoolObject.ThreadsExecutor.StopAll | invoker/threads_executor.go:42-54 | closes and wakes everybody, once |
| PoolObject.ThreadsExecutor.TakeTurn | invoker/threads_executor.go:78-91 | one turn of the receiver loop |
| PoolObject.ThreadsExecutor.FinishProcessing | invoker/threads_executor.go:95-97 | the worker is idle again |
| Units.RoundTrip | lib/customfields/time.go:104-120 | for every 64-bit amount, of time and of memory, FromStr reads back what String prints |
| Units.PrintPicksTheLargestUnit | lib/customfields/memory.go:106-122 | String uses the largest listed unit that divides the amount |
| Units.ParsingIsExactWhenItFits | lib/customfields/time.go:73-94 | a parsed amount is number times unit exactly when that fits in 64 bits, and has wrapped around otherwise |
| Units.TimesAreRead | lib/customfields/time.go:73-94 | every string that starts with digits is read, by its suffix in any case, as that many nanoseconds, microseconds, milliseconds or seconds modulo 2^64, and rejected with any other suffix |
| Units.MemorySizesAreRead | lib/customfields/memory.go:75-96 | every string that starts with digits is read, by its suffix in any case, as that many bytes, kibibytes, mebibytes or gibibytes modulo 2^64, and rejected with any other suffix |
| Units.DocumentedAmounts | lib/customfields/time.go:12-18 | the amounts given as examples mean what the comment says |
| Units.CaseDoesNotMatter | lib/customfields/common.go:10-10 | upper case does not matter |
| UnitsObject.SeparateStr | lib/customfields/common.go:9-22 | splits number and lower-case suffix, or fails where ParseUint does |
| UnitsObject.Time.FromStr | lib/customfields/time.go:73-94 | sets the value, or leaves it alone on an error |
| UnitsObject.Time.ToString | lib/customfields/time.go:104-120 | prints, and what it prints parses back |
| UnitsObject.Memory.FromStr | lib/customfields/memory.go:75-96 | sets the value, or leaves it alone on an error |
| UnitsObject.Memory.ToString | lib/customfields/memory.go:106-122 | prints, and what it prints parses back |

## Left out

- IoiGenerator.NewIOIGenerator: does not distinguish the error messages of `prepareGenerator`; the problem type check belongs to the caller.
- IoiGenerator.IOIGenerator.JobCompleted: nothing is stated about a generator after it has panicked.
- IcpcJudge.OksThenOneFailureThenSkips: the repaired result is not written back into the generator's internal map, which the original does through a pointer and never reads again.
- LruProtocol.StepKeepsInv: the counters are unbounded; a total size or lock count of 2^64 is not modelled.
- RegistryObject.InvokerRegistry.SendJobs: runs without interference between its steps; the protocol lets other sections come in between.
- QueueObject.Queue.NextJob: generators and jobs are entries of tables, not separately allocated objects, so aliasing between them is not captured.
- WorkerPool.ShutdownTerminates: bounds the steps the workers can make, and says there is one; that the scheduler lets workers run is not modelled.
- WorkerPool.BothPoolsComeToAnEnd: how many processes a job starts is not modelled, only that each worker waits for one at a time.
- StatusSync.APollIsAFullSnapshot: assumes that epochs never decrease, also across a restart of the master; a clock that is set back is not modelled.
- Test numbers are unbounded, so a problem with 2^64 tests is not modelled.
- Required job IDs are sets, since the original fills them in map iteration order.
- The calls of the status updater inside the generators: the synchronisation is modelled on its own, with any updates at any time.
- `AddSubmission` stores the live pointer in the original; stored submissions are snapshots here.
- `LRUSizeCache.Insert` and `Remove`: for tests only, and they break the accounting by design.
- `StatusForMaster` beyond its free slots, metrics, logging and the measured wait durations.
- HTTP handlers, connectors, JSON, YAML and the database: a request is a step with arbitrary arguments.
- Clocks and timers: a timeout is a step that can happen at any time.
- Sandboxes, compile and test pipelines, checkers and the file store: an invoker answers anything.
- Lower-casing beyond the letters that can occur in a unit.
- Marshalling and database conversion of times and sizes.
- The problem importer, the form validation, the web front end and the vendored libraries.
