/** Which running jobs a job requires: exactly those whose bad result would stop it at once. */
module IoiRequirements {
  import opened Models
  import opened IoiJudge
  import opened IoiMachine
  import opened IoiInvariant
  import opened IoiRuns

  /** A bad result of test u stops the group of test t without other groups in between: u is in that group, and it is
      not one where each test counts for itself, or in a group it names as required. */
  predicate StopsAtOnce(p: Problem, u: nat, t: nat)
    requires Partitions(p) && IsTest(p, u) && IsTest(p, t)
  {
    || (GroupIndex(p, u) == GroupIndex(p, t) && GroupOf(p, t).scoring != EachTest)
    || GroupOf(p, u).name in GroupOf(p, t).required
  }

  /** Both run tests, and k requires j exactly if j runs an earlier one that can stop it at once. */
  predicate RequiresExactly(p: Problem, given: map<Id, Job>, k: Id, j: Id)
    requires Partitions(p) && k in given && j in given
  {
    && IsTest(p, given[j].test) && IsTest(p, given[k].test)
    && (j in given[k].required <==>
        given[j].test < given[k].test && StopsAtOnce(p, given[j].test, given[k].test))
  }

  ghost predicate AllRequireExactly(p: Problem, given: map<Id, Job>)
    requires Partitions(p)
  {
    forall k, j {:trigger RequiresExactly(p, given, k, j)} ::
      k in given && j in given ==> RequiresExactly(p, given, k, j)
  }

  lemma DependsWhenItStopsAtOnce(p: Problem, job: Job, t: nat)
    requires WellFormed(p) && Partitions(p) && IsTest(p, job.test) && IsTest(p, t)
    ensures DependsOnJob(p, GroupOf(p, t), job) <==> StopsAtOnce(p, job.test, t)
  {
    hide Partitions, FindGroup;
    var i, j := GroupIndex(p, job.test), GroupIndex(p, t);
    assert NamesDiffer(p, i, j) && NamesDiffer(p, j, i);
  }

  lemma GivenRunEarlierTests(p: Problem, o: Oracle, submitId: nat, w: World, j: Id)
    requires Bounded(p, w.s) && Partitions(p) && Covers(o, p) && Live(p, o, submitId, w) && j in w.s.given
    ensures IsTest(p, w.s.given[j].test) && w.s.given[j].test < w.s.firstNotGivenTest
  {
    hide WellFormed, HasCause, Partitions, FlagsOK, RequiredOK, StopsOK, PublishedOK, Judged, Built, Dead;
    assert JobOK(p, w.s, j);
    SlotsGiveSlot(p, o, w.s, w.s.given[j].test);
  }

  lemma GiveRequiresExactly(p: Problem, o: Oracle, submitId: nat, w: World, id: Id)
    requires WellFormed(p) && Partitions(p) && Covers(o, p) && Bounded(p, w.s) && Live(p, o, submitId, w) && IdsOK(w)
    requires id !in w.used && AllRequireExactly(p, w.s.given)
    requires w.s.phase == Compiled
    ensures AllRequireExactly(p, Ask(p, w.s, id).0.given)
  {
    hide WellFormed, HasCause, Partitions, Live, Prune, GroupIndex, StopsAtOnce, DependsOnJob;
    var pruned := Prune(p, w.s);
    var given := Ask(p, w.s, id).0.given;
    if pruned.firstNotGivenTest <= p.tests {
      var t := pruned.firstNotGivenTest;
      forall j | j in w.s.given
        ensures IsTest(p, w.s.given[j].test) && w.s.given[j].test < t
        ensures DependsOnJob(p, GroupOf(p, t), w.s.given[j]) <==> StopsAtOnce(p, w.s.given[j].test, t)
      {
        GivenRunEarlierTests(p, o, submitId, w, j);
        DependsWhenItStopsAtOnce(p, w.s.given[j], t);
      }
      forall k, j | k in given && j in given
        ensures RequiresExactly(p, given, k, j)
      {
        if k != id && j != id {
          assert RequiresExactly(p, w.s.given, k, j);
        }
      }
    }
  }

  lemma AnswerRequiresExactly(p: Problem, s: State, id: Id, r: JobResult)
    requires Partitions(p) && Bounded(p, s) && id in s.given && AllRequireExactly(p, s.given)
    ensures AllRequireExactly(p, Answer(p, s, id, r).0.given)
  {
    hide WellFormed, HasCause, Partitions, Answer, StopsAtOnce;
    AnswerShape(p, s, id, r);
    var n := Answer(p, s, id, r).0;
    forall k, j | k in n.given && j in n.given
      ensures RequiresExactly(p, n.given, k, j)
    {
      assert RequiresExactly(p, s.given, k, j);
    }
  }

  /** Once compiled, or with the job of the compilation alone. */
  ghost predicate RequirementsOK(p: Problem, s: State)
    requires Partitions(p)
  {
    s.phase == Compiled ==> AllRequireExactly(p, s.given)
  }

  lemma CompilationLeavesNoJobs(p: Problem, submitId: nat, s: State, id: Id)
    requires Compiling(p, submitId, s) && id in s.given
    ensures s.given - {id} == map[]
  {
  }

  lemma StepKeepsRequirements(p: Problem, o: Oracle, submitId: nat, w: World, e: Event)
    requires WellFormed(p) && Partitions(p) && Covers(o, p) && Inv(p, o, submitId, w) && !w.s.crashed
    requires Allowed(p, o, w, e) && RequirementsOK(p, w.s)
    ensures RequirementsOK(p, Next(p, w, e).s)
  {
    hide WellFormed, HasCause, Partitions, Live, Judged, Answer, Honest, AllRequireExactly, Prune;
    match e
    case Accepted(_, _) =>
    case Asked(id) =>
      if w.s.phase == Compiled {
        GiveRequiresExactly(p, o, submitId, w, id);
      }
    case Answered(id, r) =>
      AnswerShape(p, w.s, id, r);
      match w.s.phase
      case NotStarted =>
      case Compiled => AnswerRequiresExactly(p, w.s, id, r);
      case Started =>
        if Compiling(p, submitId, w.s) {
          CompilationLeavesNoJobs(p, submitId, w.s, id);
          NobodyRequires(p);
        } else {
          JudgedHasNoJobs(p, o, submitId, w.s);
        }
  }

  lemma NobodyRequires(p: Problem)
    requires Partitions(p)
    ensures AllRequireExactly(p, map[])
  {
  }

  lemma {:induction false} RunKeepsRequirements(
      p: Problem, o: Oracle, submitId: nat, w: World, es: seq<Event>, r: World)
    requires WellFormed(p) && Partitions(p) && Covers(o, p) && Inv(p, o, submitId, w) && Run(p, o, w, es, r)
    requires RequirementsOK(p, w.s)
    ensures RequirementsOK(p, r.s)
    decreases |es|
  {
    hide WellFormed, Partitions, Inv, Allowed, Next, RequirementsOK;
    if es != [] {
      StepKeepsRequirements(p, o, submitId, w, es[0]);
      StepKeepsInv(p, o, submitId, w, es[0]);
      RunKeepsRequirements(p, o, submitId, Next(p, w, es[0]), es[1..], r);
    }
  }

  /** In every run, once compiled, a job that is out requires another one exactly if that one runs an earlier test whose
      bad result stops the group of its own at once. */
  lemma RequiredExactly(p: Problem, o: Oracle, submitId: nat, es: seq<Event>, r: World, k: Id, j: Id)
    requires WellFormed(p) && Partitions(p) && Covers(o, p) && Run(p, o, Start(p, submitId), es, r)
    requires r.s.phase == Compiled && k in r.s.given && j in r.s.given
    ensures IsTest(p, r.s.given[j].test) && IsTest(p, r.s.given[k].test)
    ensures j in r.s.given[k].required <==>
            r.s.given[j].test < r.s.given[k].test && StopsAtOnce(p, r.s.given[j].test, r.s.given[k].test)
  {
    hide WellFormed, Partitions, Inv, Run, StopsAtOnce, GroupIndex;
    StartIsInv(p, o, submitId);
    RunKeepsRequirements(p, o, submitId, Start(p, submitId), es, r);
    assert RequiresExactly(p, r.s.given, k, j);
  }
}
