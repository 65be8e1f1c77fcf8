/** Whatever results a generator receives, there is an outcome per test that makes every one of them honest:
    each test is given once and answered once, so the answers themselves form the oracle. */
module OpenRuns {
  import opened Models
  import opened Generators
  import Ioi = IoiMachine
  import Icpc = IcpcMachine
  import IoiJudge

  /** A call of a generator by the queue: NextJob with a fresh identifier, or JobCompleted with any result at all. */
  datatype Call = Ask(id: Id) | Complete(id: Id, result: JobResult)

  predicate Possible(g: Generator, used: set<Id>, c: Call) {
    && Healthy(g)
    && match c
       case Ask(id) => id !in used
       case Complete(id, _) => id in Given(g)
  }

  function After(g: Generator, c: Call): Generator
    requires Healthy(g)
  {
    match c
    case Ask(id) => NextJob(g, id).0
    case Complete(id, r) => JobCompleted(g, id, r).0
  }

  function UsedAfter(used: set<Id>, c: Call): set<Id> {
    if c.Ask? then used + {c.id} else used
  }

  /** The calls lead from g to r. */
  predicate Run(g: Generator, used: set<Id>, calls: seq<Call>, r: Generator)
    decreases |calls|
  {
    if calls == [] then g == r
    else Possible(g, used, calls[0]) && Run(After(g, calls[0]), UsedAfter(used, calls[0]), calls[1..], r)
  }

  function UsedBy(used: set<Id>, calls: seq<Call>): set<Id>
    decreases |calls|
  {
    if calls == [] then used else UsedBy(UsedAfter(used, calls[0]), calls[1..])
  }

  lemma {:induction false} RunExtends(g: Generator, used: set<Id>, calls: seq<Call>, r: Generator, c: Call)
    requires Run(g, used, calls, r) && Possible(r, UsedBy(used, calls), c)
    ensures Run(g, used, calls + [c], After(r, c)) && UsedBy(used, calls + [c]) == UsedAfter(UsedBy(used, calls), c)
    decreases |calls|
  {
    hide Healthy, After, UsedAfter;
    if calls == [] {
      assert calls + [c] == [c];
      assert [c][1..] == [];
    } else {
      RunExtends(After(g, calls[0]), UsedAfter(used, calls[0]), calls[1..], r, c);
      assert (calls + [c])[1..] == calls[1..] + [c];
    }
  }

  // ---------- what is not settled yet ----------

  function CurrentPhase(g: Generator): Phase {
    match g
    case IOI(_, s) => s.phase
    case ICPC(_, s) => s.phase
  }

  /** The next test to be given. */
  function Cursor(g: Generator): nat {
    match g
    case IOI(_, s) => s.firstNotGivenTest
    case ICPC(_, s) => s.firstTestToGive
  }

  predicate Compiles(g: Generator, id: Id) {
    id in Given(g) && Given(g)[id].kind == CompileJob
  }

  predicate IsTestJob(g: Generator, id: Id, t: nat) {
    id in Given(g) && Given(g)[id].kind == TestJob && Given(g)[id].test == t
  }

  /** Jobs are compilations before anything else, one of them at a time, and tests, one job for each. */
  ghost predicate Orderly(g: Generator, used: set<Id>) {
    && (forall id :: id in Given(g) ==> id in used && Given(g)[id].id == id)
    && (forall i, j :: Compiles(g, i) && Compiles(g, j) ==> i == j)
    && (CurrentPhase(g) == NotStarted ==> Given(g) == map[])
    && 1 <= Cursor(g)
    && (forall i, t: nat :: IsTestJob(g, i, t) ==> 1 <= t < Cursor(g) && t <= Tests(g))
    && (forall i, j, t: nat :: IsTestJob(g, i, t) && IsTestJob(g, j, t) ==> i == j)
  }

  ghost predicate CompilationOpen(g: Generator) {
    CurrentPhase(g) == NotStarted || exists id :: Compiles(g, id)
  }

  ghost predicate TestOpen(g: Generator, t: nat) {
    t >= Cursor(g) || exists id :: IsTestJob(g, id, t)
  }

  lemma FreshIsOrderly(g: Generator, submitId: nat)
    requires IsFresh(g, submitId)
    ensures Healthy(g) && Orderly(g, {})
  {
    match g
    case IOI(p, _) =>
      if |p.groups| > 0 {
        IoiJudge.GroupEndsInside(p, 0);
      }
    case ICPC(_, _) =>
  }

  lemma NextJobAdvances(g: Generator, id: Id)
    requires Healthy(g)
    ensures var (g', job) := NextJob(g, id);
            && Tests(g') == Tests(g) && Cursor(g) <= Cursor(g')
            && (CurrentPhase(g') == NotStarted ==> CurrentPhase(g) == NotStarted && job.Some?)
            && (job.Some? && job.value.kind == CompileJob ==>
                  CurrentPhase(g) == NotStarted && CurrentPhase(g') == Started)
            && (job.Some? && job.value.kind == TestJob ==>
                  Cursor(g) <= job.value.test < Cursor(g') && job.value.test <= Tests(g))
  {
  }

  lemma JobCompletedAdvances(g: Generator, id: Id, r: JobResult)
    requires Healthy(g) && id in Given(g)
    ensures var g' := JobCompleted(g, id, r).0;
            && Tests(g') == Tests(g) && Cursor(g) <= Cursor(g')
            && Given(g') == Given(g) - {id}
            && (CurrentPhase(g') == NotStarted ==> CurrentPhase(g) == NotStarted)
  {
    hide Ioi.Answer, Icpc.Answer, Ioi.HasCause, IoiJudge.WellFormed, IoiJudge.Partitions;
    match g
    case IOI(p, s) => Ioi.AnswerShape(p, s, id, r);
    case ICPC(n, s) => Icpc.AnswerShape(n, s, id, r);
  }

  lemma AskKeepsOrderly(g: Generator, used: set<Id>, id: Id)
    requires Healthy(g) && Orderly(g, used) && id !in used
    ensures Orderly(NextJob(g, id).0, used + {id})
  {
    NextJobAdvances(g, id);
    NextJobGivesAtMostOne(g, id);
    hide NextJob, Healthy, CurrentPhase, Cursor, Tests, Given;
    var g' := NextJob(g, id).0;
    forall i, t: nat | IsTestJob(g', i, t)
      ensures 1 <= t < Cursor(g') && t <= Tests(g')
    {
      assert i != id ==> IsTestJob(g, i, t);
    }
    forall i, j, t: nat | IsTestJob(g', i, t) && IsTestJob(g', j, t)
      ensures i == j
    {
      assert i != id ==> IsTestJob(g, i, t);
      assert j != id ==> IsTestJob(g, j, t);
    }
    forall i, j | Compiles(g', i) && Compiles(g', j)
      ensures i == j
    {
      assert i != id ==> Compiles(g, i);
      assert j != id ==> Compiles(g, j);
    }
  }

  lemma AskOpensNothing(g: Generator, used: set<Id>, id: Id)
    requires Healthy(g) && Orderly(g, used) && id !in used
    ensures var g' := NextJob(g, id).0;
            && (CompilationOpen(g') ==> CompilationOpen(g))
            && (forall t: nat :: TestOpen(g', t) ==> TestOpen(g, t))
  {
    NextJobAdvances(g, id);
    NextJobGivesAtMostOne(g, id);
    hide NextJob, Healthy, CurrentPhase, Cursor, Tests, Given, Orderly;
    var g' := NextJob(g, id).0;
    if i :| Compiles(g', i) {
      assert i != id ==> Compiles(g, i);
    }
    forall t: nat | TestOpen(g', t)
      ensures TestOpen(g, t)
    {
      if t < Cursor(g') {
        var i :| IsTestJob(g', i, t);
        assert i != id ==> IsTestJob(g, i, t);
      }
    }
  }

  lemma CompleteKeepsOrderly(g: Generator, used: set<Id>, id: Id, r: JobResult)
    requires Healthy(g) && Orderly(g, used) && id in Given(g)
    ensures Orderly(JobCompleted(g, id, r).0, used)
  {
    hide JobCompleted, Healthy, CurrentPhase, Cursor, Tests, Given;
    JobCompletedAdvances(g, id, r);
    var g' := JobCompleted(g, id, r).0;
    forall i, t: nat | IsTestJob(g', i, t)
      ensures 1 <= t < Cursor(g') && t <= Tests(g')
    {
      assert IsTestJob(g, i, t);
    }
    forall i, j, t: nat | IsTestJob(g', i, t) && IsTestJob(g', j, t)
      ensures i == j
    {
      assert IsTestJob(g, i, t) && IsTestJob(g, j, t);
    }
    forall i, j | Compiles(g', i) && Compiles(g', j)
      ensures i == j
    {
      assert Compiles(g, i) && Compiles(g, j);
    }
  }

  lemma CompleteClosesItsJob(g: Generator, used: set<Id>, id: Id, r: JobResult)
    requires Healthy(g) && Orderly(g, used) && id in Given(g)
    ensures var g' := JobCompleted(g, id, r).0;
            && (CompilationOpen(g') ==> CompilationOpen(g) && Given(g)[id].kind == TestJob)
            && (forall t: nat :: TestOpen(g', t) ==> TestOpen(g, t) && !IsTestJob(g, id, t))
  {
    JobCompletedAdvances(g, id, r);
    hide JobCompleted, Healthy, CurrentPhase, Cursor, Tests, Given;
    var g' := JobCompleted(g, id, r).0;
    if i :| Compiles(g', i) {
      assert Compiles(g, i);
      assert Given(g)[id].kind == CompileJob ==> Compiles(g, id);
    }
    forall t: nat | TestOpen(g', t)
      ensures TestOpen(g, t) && !IsTestJob(g, id, t)
    {
      if t < Cursor(g') {
        var i :| IsTestJob(g', i, t);
        assert IsTestJob(g, i, t);
      }
    }
  }

  // ---------- the oracle made of the answers ----------

  /** The answers a sequence of calls contains; what it does not answer is taken from `rest`. */
  function AnswersIn(g: Generator, used: set<Id>, calls: seq<Call>, r: Generator, rest: Oracle): (o: Oracle)
    requires Run(g, used, calls, r) && |rest.tests| == Tests(g)
    ensures |o.tests| == Tests(g)
    decreases |calls|
  {
    if calls == [] then rest
    else
      var c := calls[0];
      SameTests(g, c);
      var later := AnswersIn(After(g, c), UsedAfter(used, c), calls[1..], r, rest);
      if c.Ask? then later else WithAnswer(later, Given(g)[c.id], c.result)
  }

  function WithAnswer(o: Oracle, job: Job, r: JobResult): Oracle {
    if job.kind == CompileJob then o.(compile := r)
    else if 1 <= job.test <= |o.tests| then o.(tests := o.tests[job.test - 1 := r])
    else o
  }

  lemma SameTests(g: Generator, c: Call)
    requires Healthy(g)
    ensures Tests(After(g, c)) == Tests(g)
  {
    match g
    case IOI(_, _) =>
    case ICPC(_, _) =>
  }

  /** The two oracles agree on everything that has not been answered yet. */
  ghost predicate Agree(g: Generator, o: Oracle, q: Oracle) {
    && |o.tests| == |q.tests| == Tests(g)
    && (CompilationOpen(g) ==> o.compile == q.compile)
    && (forall t: nat {:trigger TestOpen(g, t)} ::
          1 <= t <= Tests(g) && TestOpen(g, t) ==> o.tests[t - 1] == q.tests[t - 1])
  }

  lemma AskKeepsAgreement(g: Generator, used: set<Id>, id: Id, o: Oracle, q: Oracle)
    requires Healthy(g) && Orderly(g, used) && id !in used && Agree(g, o, q)
    ensures Agree(NextJob(g, id).0, o, q)
  {
    AskOpensNothing(g, used, id);
    NextJobAdvances(g, id);
  }

  lemma CompleteKeepsAgreement(g: Generator, used: set<Id>, id: Id, r: JobResult, o: Oracle, later: Oracle)
    requires Healthy(g) && Orderly(g, used) && id in Given(g) && |later.tests| == Tests(g)
    requires Agree(g, o, WithAnswer(later, Given(g)[id], r))
    ensures Agree(JobCompleted(g, id, r).0, o, later)
    ensures Honest(o, {}, id, Given(g)[id], r)
  {
    CompleteClosesItsJob(g, used, id, r);
    JobCompletedAdvances(g, id, r);
    hide JobCompleted, Healthy, CurrentPhase, Cursor, Tests, Given;
    var job := Given(g)[id];
    if job.kind == CompileJob {
      assert Compiles(g, id);
    } else {
      assert IsTestJob(g, id, job.test) && TestOpen(g, job.test);
    }
    var g' := JobCompleted(g, id, r).0;
    forall t: nat | 1 <= t <= Tests(g') && TestOpen(g', t)
      ensures o.tests[t - 1] == later.tests[t - 1]
    {
      assert TestOpen(g, t) && !IsTestJob(g, id, t);
    }
  }

  lemma {:induction false} RunIsSound(
      g: Generator, used: set<Id>, calls: seq<Call>, r: Generator, rest: Oracle, o: Oracle, submitId: nat)
    requires Run(g, used, calls, r) && Orderly(g, used) && |rest.tests| == Tests(g)
    requires Agree(g, o, AnswersIn(g, used, calls, r, rest)) && Sound(g, o, submitId, {}, used)
    ensures Sound(r, o, submitId, {}, UsedBy(used, calls)) && Orderly(r, UsedBy(used, calls)) && Agree(r, o, rest)
    decreases |calls|
  {
    if calls != [] {
      var c := calls[0];
      hide Sound, Orderly, Agree, Healthy, Honest;
      SameTests(g, c);
      match c {
        case Ask(id) =>
          AskKeepsOrderly(g, used, id);
          AskKeepsAgreement(g, used, id, o, AnswersIn(g, used, calls, r, rest));
          NextJobKeepsSound(g, o, submitId, {}, used, id);
        case Complete(id, result) =>
          OrderlyNamesJobs(g, used, id);
          CompleteKeepsOrderly(g, used, id, result);
          CompleteKeepsAgreement(g, used, id, result, o,
                                 AnswersIn(After(g, c), UsedAfter(used, c), calls[1..], r, rest));
          JobCompletedKeepsSound(g, o, submitId, {}, used, id, result);
      }
      RunIsSound(After(g, c), UsedAfter(used, c), calls[1..], r, rest, o, submitId);
    }
  }

  lemma OrderlyNamesJobs(g: Generator, used: set<Id>, id: Id)
    requires Orderly(g, used) && id in Given(g)
    ensures Given(g)[id].id == id
  {
  }

  /** Every run of a generator from its creation, whatever results it receives, is sound for the oracle made of
      those results. */
  lemma EveryRunHasAnOracle(g: Generator, submitId: nat, calls: seq<Call>, r: Generator, rest: Oracle)
    requires IsFresh(g, submitId) && Run(g, {}, calls, r) && |rest.tests| == Tests(g)
    ensures var o := AnswersIn(g, {}, calls, r, rest);
            && Sound(r, o, submitId, {}, UsedBy({}, calls))
            && Orderly(r, UsedBy({}, calls)) && Agree(r, o, rest)
  {
    var o := AnswersIn(g, {}, calls, r, rest);
    FreshIsOrderly(g, submitId);
    FreshIsSound(g, o, submitId);
    RunIsSound(g, {}, calls, r, rest, o, submitId);
  }

  // ---------- generators that have come to where they are ----------

  /** The generator was created for the submission and brought here by calls of the queue. */
  ghost predicate Reached(g: Generator, submitId: nat, used: set<Id>) {
    exists g0, calls :: IsFresh(g0, submitId) && Run(g0, {}, calls, g) && UsedBy({}, calls) <= used
  }

  lemma FreshIsReached(g: Generator, submitId: nat, used: set<Id>)
    requires IsFresh(g, submitId)
    ensures Reached(g, submitId, used)
  {
    assert Run(g, {}, [], g) && UsedBy({}, []) <= used;
  }

  lemma ReachedLater(g: Generator, submitId: nat, used: set<Id>, more: set<Id>)
    requires Reached(g, submitId, used) && used <= more
    ensures Reached(g, submitId, more)
  {
    var g0, calls :| IsFresh(g0, submitId) && Run(g0, {}, calls, g) && UsedBy({}, calls) <= used;
  }

  lemma CallReaches(g: Generator, submitId: nat, used: set<Id>, c: Call)
    requires Reached(g, submitId, used) && Possible(g, used, c)
    ensures Reached(After(g, c), submitId, UsedAfter(used, c))
  {
    var g0, calls :| IsFresh(g0, submitId) && Run(g0, {}, calls, g) && UsedBy({}, calls) <= used;
    hide Healthy, After;
    RunExtends(g0, {}, calls, g, c);
    assert && IsFresh(g0, submitId) && Run(g0, {}, calls + [c], After(g, c))
           && UsedBy({}, calls + [c]) <= UsedAfter(used, c);
  }

  lemma {:induction false} RunKeepsTests(g: Generator, used: set<Id>, calls: seq<Call>, r: Generator)
    requires Run(g, used, calls, r)
    ensures Tests(r) == Tests(g)
    decreases |calls|
  {
    hide Healthy, After, Tests;
    if calls != [] {
      SameTests(g, calls[0]);
      RunKeepsTests(After(g, calls[0]), UsedAfter(used, calls[0]), calls[1..], r);
    }
  }

  /** Some outcome of the compilation and of every test explains where the generator is; for a job that is out, any
      outcome can still be chosen. */
  lemma ReachedHasAnOracle(g: Generator, submitId: nat, used: set<Id>, rest: Oracle) returns (o: Oracle)
    requires Reached(g, submitId, used) && |rest.tests| == Tests(g)
    ensures Sound(g, o, submitId, {}, used) && Orderly(g, used) && Agree(g, o, rest)
  {
    var g0, calls :| IsFresh(g0, submitId) && Run(g0, {}, calls, g) && UsedBy({}, calls) <= used;
    RunKeepsTests(g0, {}, calls, g);
    hide Sound, Agree, IsFresh;
    EveryRunHasAnOracle(g0, submitId, calls, g, rest);
    o := AnswersIn(g0, {}, calls, g, rest);
    SoundForFewerStops(g, o, submitId, {}, UsedBy({}, calls), {}, used);
  }

  const AnyAnswer: JobResult := JobResult(CD, None, "", None)

  function AnyOracle(tests: nat): Oracle {
    Oracle(AnyAnswer, seq(tests, _ => AnyAnswer))
  }

  /** A result that completes a job is honest for some outcome that explains where the generator is. */
  lemma AnswerHasAnOracle(g: Generator, submitId: nat, used: set<Id>, id: Id, r: JobResult) returns (o: Oracle)
    requires Reached(g, submitId, used) && id in Given(g)
    ensures Sound(g, o, submitId, {}, used) && Given(g)[id].id == id && Honest(o, {}, id, Given(g)[id], r)
  {
    var job := Given(g)[id];
    var rest := WithAnswer(AnyOracle(Tests(g)), job, r);
    hide Sound, Reached, AnyOracle;
    o := ReachedHasAnOracle(g, submitId, used, rest);
    if job.kind == CompileJob {
      assert Compiles(g, id);
    } else {
      assert IsTestJob(g, id, job.test) && TestOpen(g, job.test);
    }
  }
}
