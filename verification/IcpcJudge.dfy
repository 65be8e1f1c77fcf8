/** A sequential judge for ICPC problems: tests in order until the first that is not OK. */
module IcpcJudge {
  import opened Models
  import Rounding

  const UNKNOWN_VERDICT_ERROR: string := "unknown verdict for test job: CF"
  const SKIPPED_ERROR: string := "Invoker returned verdict SK, but no previous tests failed"

  predicate IsListed(v: Verdict) {
    v in {OK, PT, WA, RT, ML, TL, WL, SE, CF, SK}
  }

  /** The result stored for a completed test job. */
  function Built(t: nat, r: JobResult): TestResult {
    Rounding.BuildTestResult(t, if IsListed(r.verdict) then r else r.(verdict := CF, error := UNKNOWN_VERDICT_ERROR))
  }

  /** A test no earlier test blocks must not be skipped: SK is turned into CF on publication. */
  function Repair(r: TestResult): TestResult {
    if r.verdict == SK then r.(verdict := CF, error := SKIPPED_ERROR) else r
  }

  function Own(o: Oracle, t: nat): TestResult
    requires 1 <= t <= |o.tests|
  {
    Repair(Built(t, o.tests[t - 1]))
  }

  /** RU while everything up to test k is fine, and the verdict that settled the submission otherwise. */
  function VerdictAfter(o: Oracle, k: nat): Verdict
    requires k <= |o.tests|
  {
    if k == 0 then if o.compile.verdict == CD then RU else CompileVerdict(o.compile)
    else if VerdictAfter(o, k - 1) != RU then VerdictAfter(o, k - 1)
    else if Own(o, k).verdict == OK then RU
    else Own(o, k).verdict
  }

  function JudgeTest(o: Oracle, t: nat): TestResult
    requires 1 <= t <= |o.tests|
  {
    if VerdictAfter(o, t - 1) != RU then Placeholder(t, SK) else Own(o, t)
  }

  function JudgeTests(o: Oracle, k: nat): (results: seq<TestResult>)
    requires k <= |o.tests|
    ensures |results| == k
    ensures forall i :: 0 <= i < k ==> results[i] == JudgeTest(o, i + 1)
  {
    if k == 0 then [] else JudgeTests(o, k - 1) + [JudgeTest(o, k)]
  }

  function Judge(o: Oracle, submitId: nat): Submission {
    var settled := VerdictAfter(o, |o.tests|);
    Submission(submitId, if settled == RU then OK else settled, if settled == RU then 1.0 else 0.0,
               JudgeTests(o, |o.tests|), Some(Rounding.CompileReport(o.compile)), [])
  }

  // ---------- what the judge's submission looks like ----------

  lemma {:induction false} SettledStays(o: Oracle, j: nat, k: nat)
    requires j <= k <= |o.tests| && VerdictAfter(o, j) != RU
    ensures VerdictAfter(o, k) == VerdictAfter(o, j)
    decreases k
  {
    if j < k {
      SettledStays(o, j, k - 1);
    }
  }

  lemma OwnIsListed(o: Oracle, t: nat)
    requires 1 <= t <= |o.tests|
    ensures Own(o, t).verdict in {OK, PT, WA, RT, ML, TL, WL, SE, CF} && Own(o, t).testNumber == t
  {
  }

  /** The first test that is not OK, or one past the last test. */
  function FirstFailure(o: Oracle, k: nat): (f: nat)
    requires k <= |o.tests|
    ensures 1 <= f <= k + 1
    ensures forall t: nat {:trigger Own(o, t)} :: 1 <= t < f ==> Own(o, t).verdict == OK
    ensures f <= k ==> Own(o, f).verdict != OK
  {
    if k == 0 then 1
    else
      var f := FirstFailure(o, k - 1);
      if f < k || Own(o, k).verdict != OK then f else k + 1
  }

  lemma {:induction false} VerdictIsTheFirstFailure(o: Oracle, k: nat)
    requires k <= |o.tests| && o.compile.verdict == CD
    ensures var f := FirstFailure(o, k); VerdictAfter(o, k) == if f <= k then Own(o, f).verdict else RU
  {
    if k > 0 {
      VerdictIsTheFirstFailure(o, k - 1);
      if FirstFailure(o, k) <= k {
        OwnIsListed(o, FirstFailure(o, k));
      }
    }
  }

  lemma {:induction false} FailureIsStable(o: Oracle, k: nat, n: nat)
    requires k <= n <= |o.tests|
    ensures FirstFailure(o, k) == if FirstFailure(o, n) <= k then FirstFailure(o, n) else k + 1
    decreases n
  {
    if k < n {
      FailureIsStable(o, k, n - 1);
    }
  }

  lemma JudgedUpToTheFailure(o: Oracle, t: nat)
    requires 1 <= t <= |o.tests| && o.compile.verdict == CD
    ensures JudgeTest(o, t) == if t <= FirstFailure(o, |o.tests|) then Own(o, t) else Placeholder(t, SK)
  {
    VerdictIsTheFirstFailure(o, t - 1);
    FailureIsStable(o, t - 1, |o.tests|);
    if FirstFailure(o, t - 1) <= t - 1 {
      OwnIsListed(o, FirstFailure(o, t - 1));
    }
  }

  /** After a successful compilation: OK results, the first failing one, then only skipped ones, one per
      test in order. The verdict is the first failing one, and the score is 1 exactly when there is none. */
  lemma OksThenOneFailureThenSkips(o: Oracle, submitId: nat)
    requires o.compile.verdict == CD
    ensures var sub, n, f := Judge(o, submitId), |o.tests|, FirstFailure(o, |o.tests|);
            && |sub.testResults| == n
            && (forall i :: 0 <= i < n ==>
                  && sub.testResults[i].testNumber == i + 1
                  && (i + 1 < f ==> sub.testResults[i].verdict == OK)
                  && (i + 1 == f ==> sub.testResults[i] == Own(o, f) && sub.testResults[i].verdict !in {OK, SK, RU})
                  && (i + 1 > f ==> sub.testResults[i] == Placeholder(i + 1, SK)))
            && (f <= n ==> sub.verdict == Own(o, f).verdict && sub.score == 0.0)
            && (f > n ==> sub.verdict == OK && sub.score == 1.0)
  {
    var n := |o.tests|;
    hide Own, VerdictAfter, FirstFailure;
    VerdictIsTheFirstFailure(o, n);
    forall t: nat | 1 <= t <= n
      ensures JudgeTest(o, t) == if t <= FirstFailure(o, n) then Own(o, t) else Placeholder(t, SK)
    {
      JudgedUpToTheFailure(o, t);
    }
    forall t: nat {:trigger Own(o, t)} | 1 <= t <= n
      ensures Own(o, t).testNumber == t && Own(o, t).verdict !in {SK, RU}
    {
      OwnIsListed(o, t);
    }
  }

  /** A failed compilation skips every test and decides the verdict. */
  lemma FailedCompilationSkipsAll(o: Oracle, submitId: nat)
    requires o.compile.verdict != CD
    ensures var sub := Judge(o, submitId);
            && sub.verdict == (if o.compile.verdict == CE then CE else CF) && sub.score == 0.0
            && |sub.testResults| == |o.tests|
            && (forall i :: 0 <= i < |o.tests| ==> sub.testResults[i] == Placeholder(i + 1, SK))
  {
    forall k | 0 <= k <= |o.tests|
      ensures VerdictAfter(o, k) == CompileVerdict(o.compile)
    {
      SettledStays(o, 0, k);
    }
  }

  /** The score is 1 exactly when every result is OK; and full marks go with the verdict OK. */
  lemma FullMarksExactlyWhenAllOK(o: Oracle, submitId: nat)
    ensures var sub := Judge(o, submitId);
            && (sub.score == 1.0 <==> sub.verdict == OK)
            && (sub.verdict == OK <==>
                o.compile.verdict == CD && forall i :: 0 <= i < |o.tests| ==> sub.testResults[i].verdict == OK)
  {
    if o.compile.verdict == CD {
      OksThenOneFailureThenSkips(o, submitId);
      var f := FirstFailure(o, |o.tests|);
      if f <= |o.tests| {
        assert Judge(o, submitId).testResults[f - 1].verdict != OK;
      }
    } else {
      FailedCompilationSkipsAll(o, submitId);
    }
  }

  /** Test u, before t, was run and is not OK. */
  predicate FailsBefore(o: Oracle, submitId: nat, u: nat, t: nat) {
    1 <= u < t <= |o.tests| && Judge(o, submitId).testResults[u - 1].verdict !in {OK, SK}
  }

  /** After a successful compilation a published result is SK exactly if an earlier published one is neither OK
      nor SK. */
  lemma SkippedExactlyAfterAFailure(o: Oracle, submitId: nat, t: nat)
    requires o.compile.verdict == CD && 1 <= t <= |o.tests|
    ensures Judge(o, submitId).testResults[t - 1].verdict == SK <==>
            exists u: nat :: FailsBefore(o, submitId, u, t)
  {
    hide Own, VerdictAfter, FirstFailure;
    var sub, f := Judge(o, submitId), FirstFailure(o, |o.tests|);
    OksThenOneFailureThenSkips(o, submitId);
    FirstFailureIsInRange(o);
    if t > f {
      assert sub.testResults[f - 1].verdict !in {OK, SK, RU};
      assert FailsBefore(o, submitId, f, t);
    }
    if u: nat :| FailsBefore(o, submitId, u, t) {
      assert u <= f;
    }
  }

  lemma FirstFailureIsInRange(o: Oracle)
    ensures 1 <= FirstFailure(o, |o.tests|) <= |o.tests| + 1
  {
  }

  /** What the own run of a test amounts to. */
  predicate IsOfRun(result: TestResult, t: nat, r: JobResult) {
    && result.testNumber == t && result.points == r.points && Rounding.Measured(result, r.statistics)
    && result.verdict == (if r.verdict in {OK, PT, WA, RT, ML, TL, WL, SE, CF} then r.verdict else CF)
    && result.error == (if r.verdict == SK then "Invoker returned verdict SK, but no previous tests failed"
                        else if result.verdict == r.verdict then r.error
                        else "unknown verdict for test job: CF")
  }

  lemma OwnIsOfRun(o: Oracle, t: nat)
    requires 1 <= t <= |o.tests|
    ensures IsOfRun(Own(o, t), t, o.tests[t - 1])
  {
    hide Rounding.Rounded;
  }

  /** A published result that is not SK belongs to its test, has the measures and points of its run, and its verdict;
      SK and a verdict that is no outcome of a test are CF. */
  lemma PublishedResultIsTheRuns(o: Oracle, submitId: nat, t: nat)
    requires 1 <= t <= |o.tests| && Judge(o, submitId).testResults[t - 1].verdict != SK
    ensures IsOfRun(Judge(o, submitId).testResults[t - 1], t, o.tests[t - 1])
  {
    hide VerdictAfter, Own, IsOfRun;
    OwnIsOfRun(o, t);
  }

  /** A skipped result says nothing else. */
  lemma SkippedResultIsBare(o: Oracle, submitId: nat, t: nat)
    requires 1 <= t <= |o.tests| && Judge(o, submitId).testResults[t - 1].verdict == SK
    ensures Judge(o, submitId).testResults[t - 1] == TestResult(t, SK, None, None, None, None, "", None)
  {
    hide VerdictAfter, Own;
    OwnIsListed(o, t);
  }
}
