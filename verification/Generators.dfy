/** Both kinds of job generator behind the one interface the queue drives. */
module Generators {
  import opened Models
  import Ioi = IoiMachine
  import Icpc = IcpcMachine
  import IoiJudge
  import IoiInvariant
  import IoiRuns
  import IoiTheorems
  import IcpcJudge
  import IcpcTheorems

  datatype Generator =
    | IOI(problem: IoiJudge.Problem, ioi: Ioi.State)
    | ICPC(tests: nat, icpc: Icpc.State)

  /** The generator can be called: it has not panicked. */
  predicate Healthy(g: Generator) {
    match g
    case IOI(p, s) => Ioi.Bounded(p, s)
    case ICPC(n, s) => Icpc.Bounded(n, s)
  }

  function Given(g: Generator): map<Id, Job> {
    match g
    case IOI(_, s) => s.given
    case ICPC(_, s) => s.given
  }

  function Result(g: Generator): Submission {
    match g
    case IOI(_, s) => s.sub
    case ICPC(_, s) => s.sub
  }

  function NextJob(g: Generator, id: Id): (Generator, Option<Job>)
    requires Healthy(g)
  {
    match g
    case IOI(p, s) => var r := Ioi.Ask(p, s, id); (IOI(p, r.0), r.1)
    case ICPC(n, s) => var r := Icpc.Ask(n, s, id); (ICPC(n, r.0), r.1)
  }

  function JobCompleted(g: Generator, id: Id, result: JobResult): (Generator, Outcome)
    requires Healthy(g)
  {
    match g
    case IOI(p, s) => var r := Ioi.Answer(p, s, id, result); (IOI(p, r.0), r.1)
    case ICPC(n, s) => var r := Icpc.Answer(n, s, id, result); (ICPC(n, r.0), r.1)
  }

  predicate Finished(g: Generator) {
    match g
    case IOI(p, s) => IoiTheorems.IsFinal(p, s)
    case ICPC(n, s) => IcpcTheorems.IsFinal(n, s)
  }

  predicate IsFresh(g: Generator, submitId: nat) {
    match g
    case IOI(p, s) => IoiJudge.WellFormed(p) && s == Ioi.Init(p, submitId)
    case ICPC(n, s) => s == Icpc.Init(submitId)
  }

  // ---------- what the queue relies on ----------

  predicate HasStarted(g: Generator) {
    match g
    case IOI(_, s) => s.phase != NotStarted
    case ICPC(_, s) => s.phase != NotStarted
  }

  /** A job names the submission it is for; the first one compiles it, and all later ones run its tests. */
  lemma NextJobGivesAtMostOne(g: Generator, id: Id)
    requires Healthy(g)
    ensures var (g', job) := NextJob(g, id);
            && Healthy(g')
            && (job.Some? ==> job.value.id == id && Given(g') == Given(g)[id := job.value])
            && (job.Some? ==> job.value.required <= Given(g).Keys && job.value.submitId == Result(g).id)
            && (job.Some? ==> HasStarted(g') && job.value.kind == if HasStarted(g) then TestJob else CompileJob)
            && (job.None? ==> Given(g') == Given(g))
  {
  }

  lemma JobCompletedTakesOne(g: Generator, id: Id, result: JobResult)
    requires Healthy(g) && id in Given(g)
    ensures var (g', outcome) := JobCompleted(g, id, result);
            && Given(g') == Given(g) - {id}
            && (outcome.Panicked? || (Healthy(g') && (outcome.Pending? || outcome == Finalized(Result(g')))))
  {
    hide Ioi.Answer, Icpc.Answer, Ioi.HasCause, IoiJudge.WellFormed, IoiJudge.Partitions;
    match g
    case IOI(p, s) => Ioi.AnswerShape(p, s, id, result);
    case ICPC(n, s) => Icpc.AnswerShape(n, s, id, result);
  }

  /** Asked again, the generator would have nothing to give. */
  ghost predicate Quiet(g: Generator)
    requires Healthy(g)
  {
    forall id :: NextJob(g, id).1.None?
  }

  lemma NothingToGiveIsQuiet(g: Generator, id: Id)
    requires Healthy(g) && NextJob(g, id).1.None?
    ensures Healthy(NextJob(g, id).0) && Quiet(NextJob(g, id).0)
  {
    match g
    case ICPC(_, _) =>
    case IOI(p, s) =>
      if s.phase == Compiled {
        Ioi.NothingToPrune(p, Ioi.Prune(p, s));
      }
  }

  // ---------- the generator among honest answers ----------

  function Tests(g: Generator): nat {
    match g
    case IOI(p, _) => p.tests
    case ICPC(n, _) => n
  }

  /** What the sequential judge makes of the oracle's answers. */
  function Judgement(g: Generator, o: Oracle, submitId: nat): Submission
    requires Healthy(g) && |o.tests| == Tests(g)
  {
    match g
    case IOI(p, _) => IoiJudge.Judge(p, o, submitId)
    case ICPC(_, _) => IcpcJudge.Judge(o, submitId)
  }

  /** The generator's state is one that honest answers lead to; a panic only occurs where judging the oracle
      meets a group without a score. */
  ghost predicate Sound(g: Generator, o: Oracle, submitId: nat, stopped: set<Id>, used: set<Id>) {
    && |o.tests| == Tests(g)
    && match g
       case IOI(p, s) =>
         IoiJudge.WellFormed(p) && IoiInvariant.Inv(p, o, submitId, IoiInvariant.World(s, stopped, used))
       case ICPC(_, s) => Icpc.Inv(o, submitId, Icpc.World(s, stopped, used))
  }

  lemma FreshIsSound(g: Generator, o: Oracle, submitId: nat)
    requires IsFresh(g, submitId) && |o.tests| == Tests(g)
    ensures Sound(g, o, submitId, {}, {})
  {
    match g
    case IOI(p, _) => IoiRuns.StartIsInv(p, o, submitId);
    case ICPC(_, _) =>
  }

  lemma SoundForFewerStops(
      g: Generator, o: Oracle, submitId: nat, stopped: set<Id>, used: set<Id>, stopped': set<Id>, used': set<Id>)
    requires Sound(g, o, submitId, stopped, used) && stopped' <= stopped && used <= used'
    ensures Sound(g, o, submitId, stopped', used')
  {
    hide IoiInvariant.Inv, Icpc.Inv, IoiJudge.WellFormed;
    match g
    case IOI(p, s) =>
      IoiFewerStops(p, o, submitId, IoiInvariant.World(s, stopped, used), stopped', used');
    case ICPC(_, s) =>
      IcpcFewerStops(o, submitId, Icpc.World(s, stopped, used), stopped', used');
  }

  lemma IoiFewerStops(
      p: IoiJudge.Problem, o: Oracle, submitId: nat, w: IoiInvariant.World, stopped: set<Id>, used: set<Id>)
    requires IoiJudge.WellFormed(p) && IoiJudge.Covers(o, p) && IoiInvariant.Inv(p, o, submitId, w)
    requires stopped <= w.stopped && w.used <= used
    ensures IoiInvariant.Inv(p, o, submitId, IoiInvariant.World(w.s, stopped, used))
  {
    hide IoiJudge.WellFormed, IoiJudge.Partitions, Ioi.Bounded, Ioi.Blocked, IoiInvariant.SlotsOK,
      IoiInvariant.FlagsOK, IoiInvariant.JobsOK, IoiInvariant.RequiredOK, IoiInvariant.Judged,
      IoiInvariant.PublishedOK, IoiInvariant.Unscored, IoiInvariant.Compiling, IoiJudge.Dead, IoiJudge.Crashes,
      Ioi.Init;
    IoiJudge.WellFormedPartitions(p);
  }

  lemma IcpcFewerStops(o: Oracle, submitId: nat, w: Icpc.World, stopped: set<Id>, used: set<Id>)
    requires Icpc.Inv(o, submitId, w) && stopped <= w.stopped && w.used <= used
    ensures Icpc.Inv(o, submitId, Icpc.World(w.s, stopped, used))
  {
    hide IcpcJudge.VerdictAfter, Icpc.TestsOK, Icpc.PublishedOK, Icpc.Judged, Icpc.Blocked, Icpc.Init;
    var r := Icpc.World(w.s, stopped, used);
    if w.s.phase == Compiled {
      forall id | id in w.s.given
        ensures Icpc.JobOK(o, r, id)
      {
        assert Icpc.JobOK(o, w, id);
      }
    }
  }

  lemma NextJobKeepsSound(g: Generator, o: Oracle, submitId: nat, stopped: set<Id>, used: set<Id>, id: Id)
    requires Sound(g, o, submitId, stopped, used) && Healthy(g) && id !in used
    ensures Sound(NextJob(g, id).0, o, submitId, stopped, used + {id})
    ensures Finished(NextJob(g, id).0) <==> Finished(g)
    ensures Finished(g) ==> NextJob(g, id).1.None?
  {
    match g
    case IOI(p, s) =>
      var w := IoiInvariant.World(s, stopped, used);
      hide IoiInvariant.Inv, Ioi.Bounded, IoiJudge.WellFormed;
      IoiRuns.StepKeepsInv(p, o, submitId, w, Asked(id));
      IoiTheorems.AskKeepsFinished(p, o, submitId, w, id);
    case ICPC(_, s) =>
      var w := Icpc.World(s, stopped, used);
      hide Icpc.Inv;
      Icpc.StepKeepsInv(o, submitId, w, Asked(id));
      IcpcTheorems.AskKeepsFinished(o, submitId, w, id);
  }

  lemma NextJobKeepsResult(g: Generator, id: Id)
    requires Healthy(g)
    ensures Result(NextJob(g, id).0) == Result(g)
  {
    match g
    case IOI(_, _) =>
    case ICPC(_, _) =>
  }

  lemma StoppingKeepsSound(
      g: Generator, o: Oracle, submitId: nat, stopped: set<Id>, used: set<Id>, id: Id, r: JobResult)
    requires Sound(g, o, submitId, stopped, used) && Healthy(g) && id in Given(g)
    requires Given(g)[id].id == id && Honest(o, stopped, id, Given(g)[id], r)
    ensures Sound(g, o, submitId, stopped + Stops(Given(g), id, r), used)
  {
    match g
    case IOI(p, s) =>
      var w := IoiInvariant.World(s, stopped, used);
      HonestIsAllowed(p, o, w, id, r);
      IoiStoppingKeepsInv(p, o, submitId, w, id, r);
      hide *;
    case ICPC(_, s) =>
      var w := Icpc.World(s, stopped, used);
      hide Icpc.Inv;
      Icpc.StepKeepsInv(o, submitId, w, Accepted(id, r));
  }

  lemma IoiStoppingKeepsInv(p: IoiJudge.Problem, o: Oracle, submitId: nat, w: IoiInvariant.World, id: Id, r: JobResult)
    requires IoiJudge.WellFormed(p) && IoiJudge.Covers(o, p) && Ioi.Bounded(p, w.s)
    requires IoiInvariant.Inv(p, o, submitId, w) && IoiInvariant.Allowed(p, o, w, Accepted(id, r))
    ensures IoiInvariant.Inv(p, o, submitId, w.(stopped := w.stopped + Stops(w.s.given, id, r)))
  {
    hide IoiInvariant.Inv, IoiJudge.WellFormed, Honest, Stops;
    IoiRuns.StepKeepsInv(p, o, submitId, w, Accepted(id, r));
  }

  /** Whatever job is out, there is an honest answer to it. */
  lemma SomeHonestAnswer(g: Generator, o: Oracle, submitId: nat, stopped: set<Id>, used: set<Id>, id: Id)
      returns (r: JobResult)
    requires Sound(g, o, submitId, stopped, used) && Healthy(g) && id in Given(g)
    ensures forall k, any :: Honest(o, any, k, Given(g)[id], r)
  {
    match g
    case IOI(p, s) =>
      hide IoiInvariant.Inv, IoiJudge.WellFormed, Ioi.HasCause;
      r := IoiTheorems.Honestly(p, o, s, id);
    case ICPC(_, s) =>
      hide Icpc.Inv;
      IcpcTheorems.JobsCanBeAnswered(o, submitId, Icpc.World(s, stopped, used), id);
      r := IcpcTheorems.Honestly(o, s.given[id]);
  }

  lemma JobCompletedKeepsSound(
      g: Generator, o: Oracle, submitId: nat, stopped: set<Id>, used: set<Id>, id: Id, r: JobResult)
    requires Sound(g, o, submitId, stopped, used) && Healthy(g) && id in Given(g)
    requires Given(g)[id].id == id && Honest(o, stopped, id, Given(g)[id], r)
    ensures var (g', outcome) := JobCompleted(g, id, r);
            && Sound(g', o, submitId, stopped, used)
            && !Finished(g)
            && (outcome.Finalized? <==> Finished(g'))
            && (outcome.Finalized? ==> outcome.sub == Judgement(g, o, submitId))
  {
    match g
    case IOI(p, s) =>
      var w := IoiInvariant.World(s, stopped, used);
      HonestIsAllowed(p, o, w, id, r);
      hide *;
      IoiJobCompletedKeepsSound(p, o, submitId, w, id, r);
    case ICPC(_, _) => IcpcJobCompletedKeepsSound(g, o, submitId, stopped, used, id, r);
  }

  lemma HonestIsAllowed(p: IoiJudge.Problem, o: Oracle, w: IoiInvariant.World, id: Id, r: JobResult)
    requires Ioi.Bounded(p, w.s) && IoiJudge.Covers(o, p) && id in w.s.given && w.s.given[id].id == id
    requires Honest(o, w.stopped, id, w.s.given[id], r)
    ensures IoiInvariant.Allowed(p, o, w, Answered(id, r)) && IoiInvariant.Allowed(p, o, w, Accepted(id, r))
  {
    hide Ioi.HasCause, IoiJudge.WellFormed;
  }

  lemma IoiJobCompletedKeepsSound(
      p: IoiJudge.Problem, o: Oracle, submitId: nat, w: IoiInvariant.World, id: Id, r: JobResult)
    requires IoiJudge.WellFormed(p) && IoiJudge.Covers(o, p) && Ioi.Bounded(p, w.s) && id in w.s.given
    requires IoiInvariant.Inv(p, o, submitId, w) && IoiInvariant.Allowed(p, o, w, Answered(id, r))
    ensures var (s', outcome) := Ioi.Answer(p, w.s, id, r);
            && IoiInvariant.Inv(p, o, submitId, IoiInvariant.World(s', w.stopped, w.used))
            && !IoiTheorems.IsFinal(p, w.s)
            && (outcome.Finalized? <==> IoiTheorems.IsFinal(p, s'))
            && (outcome.Finalized? ==> outcome.sub == IoiJudge.Judge(p, o, submitId))
  {
    hide IoiInvariant.Inv, IoiJudge.WellFormed, Ioi.Answer, IoiTheorems.IsFinal, IoiJudge.Judge, Honest;
    IoiRuns.StepKeepsInv(p, o, submitId, w, Answered(id, r));
    IoiTheorems.AnswerFinalizesExactlyWhenFinished(p, o, submitId, w, id, r);
  }

  lemma IcpcJobCompletedKeepsSound(
      g: Generator, o: Oracle, submitId: nat, stopped: set<Id>, used: set<Id>, id: Id, r: JobResult)
    requires g.ICPC? && Sound(g, o, submitId, stopped, used) && Healthy(g) && id in Given(g)
    requires Given(g)[id].id == id && Honest(o, stopped, id, Given(g)[id], r)
    ensures var (s', outcome) := Icpc.Answer(g.tests, g.icpc, id, r);
            && Sound(ICPC(g.tests, s'), o, submitId, stopped, used)
            && !IcpcTheorems.IsFinal(g.tests, g.icpc)
            && !outcome.Panicked?
            && (outcome.Finalized? <==> IcpcTheorems.IsFinal(g.tests, s'))
            && (outcome.Finalized? ==> outcome.sub == IcpcJudge.Judge(o, submitId))
  {
    var w := Icpc.World(g.icpc, stopped, used);
    hide Icpc.Inv, Icpc.Answer, IcpcTheorems.IsFinal, IcpcJudge.Judge;
    Icpc.StepKeepsInv(o, submitId, w, Answered(id, r));
    IcpcTheorems.AnswerFinalizesExactlyWhenFinished(o, submitId, w, id, r);
  }

  lemma FinishedIsTheJudgement(g: Generator, o: Oracle, submitId: nat, stopped: set<Id>, used: set<Id>)
    requires Sound(g, o, submitId, stopped, used) && Healthy(g) && Finished(g)
    ensures Result(g) == Judgement(g, o, submitId)
  {
    match g
    case IOI(p, s) => IoiTheorems.FinishedIsJudged(p, o, submitId, IoiInvariant.World(s, stopped, used));
    case ICPC(_, s) =>
  }

  lemma IdleGeneratorIsFinished(g: Generator, o: Oracle, submitId: nat, stopped: set<Id>, used: set<Id>)
    requires Sound(g, o, submitId, stopped, used) && Healthy(g) && Quiet(g) && Given(g) == map[]
    ensures Finished(g)
  {
    assert NextJob(g, 0).1.None?;
    match g
    case IOI(p, s) => IoiTheorems.IdleIsFinished(p, o, submitId, IoiInvariant.World(s, stopped, used), 0);
    case ICPC(_, s) => IcpcTheorems.IdleIsFinished(o, submitId, Icpc.World(s, stopped, used), 0);
  }

  // ---------- the branch that turns SK into CF ----------

  /** Publishing after this answer takes it. */
  predicate RepairsOn(g: Generator, id: Id, r: JobResult)
    requires Healthy(g)
  {
    match g
    case IOI(p, s) => IoiTheorems.RepairsAt(p, IoiInvariant.World(s, {}, {}), Answered(id, r))
    case ICPC(n, s) => IcpcTheorems.RepairsAt(n, Icpc.World(s, {}, {}), Answered(id, r))
  }

  /** It takes a test whose own run answers SK. */
  lemma OnlyOwnSkipsAreRepaired(
      g: Generator, o: Oracle, submitId: nat, stopped: set<Id>, used: set<Id>, id: Id, r: JobResult)
    requires Sound(g, o, submitId, stopped, used) && Healthy(g) && id in Given(g)
    requires Given(g)[id].id == id && Honest(o, stopped, id, Given(g)[id], r) && RepairsOn(g, id, r)
    ensures exists i :: 0 <= i < |o.tests| && o.tests[i].verdict == SK
  {
    match g
    case IOI(p, s) =>
      var w := IoiInvariant.World(s, stopped, used);
      HonestIsAllowed(p, o, w, id, r);
      hide IoiInvariant.Inv, Ioi.Bounded, IoiJudge.WellFormed, Honest, IoiTheorems.Repairs, IoiJudge.Partitions,
        IoiJudge.Dead, Ioi.Received;
      IoiTheorems.StepRepairsExactly(p, o, submitId, w, Answered(id, r));
      IoiSkipIsOwn(p, o, w.s.firstNotCompletedTest, p.tests + 1);
    case ICPC(n, s) =>
      var w := Icpc.World(s, stopped, used);
      hide Icpc.Inv, IcpcTheorems.Repairs, Icpc.Received, Icpc.Answer;
      IcpcTheorems.StepRepairsExactly(o, submitId, w, Answered(id, r));
      IcpcSkipIsOwn(o, w.s.testedPrefixLength, Icpc.Next(n, w, Answered(id, r)).s.testedPrefixLength);
  }

  lemma IoiSkipIsOwn(p: IoiJudge.Problem, o: Oracle, lo: nat, hi: nat)
    requires IoiJudge.Partitions(p) && IoiJudge.Covers(o, p) && IoiTheorems.SomeAnswersSkip(p, o, lo, hi)
    ensures exists i :: 0 <= i < |o.tests| && o.tests[i].verdict == SK
  {
    var t: nat :| lo <= t < hi && IoiTheorems.AnswersSkip(p, o, t);
    assert o.tests[t - 1].verdict == SK;
  }

  lemma IcpcSkipIsOwn(o: Oracle, lo: nat, hi: nat)
    requires IcpcTheorems.SomeAnswersSkip(o, lo, hi)
    ensures exists i :: 0 <= i < |o.tests| && o.tests[i].verdict == SK
  {
    var t: nat :| lo < t <= hi && IcpcTheorems.AnswersSkip(o, t);
    assert o.tests[t - 1].verdict == SK;
  }

  /** Judging the oracle's answers meets a group without a score. */
  predicate Unscorable(g: Generator, o: Oracle) {
    g.IOI? && IoiJudge.Partitions(g.problem) && IoiJudge.Covers(o, g.problem) && IoiJudge.Crashes(g.problem, o)
  }

  lemma PanicMeansUnscorable(
      g: Generator, o: Oracle, submitId: nat, stopped: set<Id>, used: set<Id>, id: Id, r: JobResult)
    requires Sound(g, o, submitId, stopped, used) && Healthy(g) && id in Given(g)
    requires Given(g)[id].id == id && Honest(o, stopped, id, Given(g)[id], r)
    ensures JobCompleted(g, id, r).1.Panicked? ==> Unscorable(g, o)
  {
    match g
    case IOI(p, s) =>
      var w := IoiInvariant.World(s, stopped, used);
      HonestIsAllowed(p, o, w, id, r);
      hide IoiJudge.Crashes, Ioi.Answer, IoiInvariant.Live, Ioi.Bounded, IoiJudge.WellFormed, IoiInvariant.Compiling,
        IoiInvariant.Judged, Honest;
      IoiPanic(p, o, submitId, w, id, r);
    case ICPC(_, _) =>
      hide Icpc.Answer, IcpcTheorems.IsFinal, IcpcJudge.Judge;
      IcpcJobCompletedKeepsSound(g, o, submitId, stopped, used, id, r);
  }

  lemma IoiPanic(p: IoiJudge.Problem, o: Oracle, submitId: nat, w: IoiInvariant.World, id: Id, r: JobResult)
    requires IoiJudge.WellFormed(p) && IoiJudge.Covers(o, p) && Ioi.Bounded(p, w.s) && id in w.s.given
    requires IoiInvariant.Inv(p, o, submitId, w) && IoiInvariant.Allowed(p, o, w, Answered(id, r))
    ensures Ioi.Answer(p, w.s, id, r).1.Panicked? ==> IoiJudge.Partitions(p) && IoiJudge.Crashes(p, o)
  {
    hide IoiJudge.Crashes, Ioi.Answer, IoiInvariant.Live, IoiInvariant.Compiling, IoiInvariant.Judged, Honest;
    IoiRuns.StepKeepsInv(p, o, submitId, w, Answered(id, r));
    IoiTheorems.AnswerFinalizesExactlyWhenFinished(p, o, submitId, w, id, r);
  }

  lemma StepsKeepUnscorable(g: Generator, o: Oracle, id: Id, r: JobResult)
    requires Healthy(g)
    ensures Unscorable(NextJob(g, id).0, o) <==> Unscorable(g, o)
    ensures Unscorable(JobCompleted(g, id, r).0, o) <==> Unscorable(g, o)
  {
  }
}
