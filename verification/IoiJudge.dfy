/** IOI problems, the dependency closure of their test groups, and a sequential judge
    that walks the tests in order. Test numbers are 1-based, as in the original. */
module IoiJudge {
  import opened Models
  import Rounding

  datatype Scoring = Complete | EachTest | Min | UnknownScoring

  datatype Group = Group(
    name: string, first: nat, last: nat,
    testScore: Option<real>, groupScore: Option<real>,
    scoring: Scoring, required: seq<string>)

  datatype Problem = Problem(groups: seq<Group>, tests: nat)

  // ---------- which problems are accepted ----------

  predicate HasScores(g: Group) {
    match g.scoring
    case Complete => g.groupScore.Some?
    case Min => g.groupScore.Some?
    case EachTest => g.testScore.Some?
    case UnknownScoring => false
  }

  predicate NonEmpty(p: Problem, i: nat) {
    i < |p.groups| ==> p.groups[i].first <= p.groups[i].last
  }

  predicate Adjacent(p: Problem, i: nat) {
    i + 1 < |p.groups| ==> p.groups[i + 1].first == p.groups[i].last + 1
  }

  /** The groups cut 1..tests into consecutive non-empty ranges. */
  predicate Partitions(p: Problem) {
    && (forall i: nat {:trigger NonEmpty(p, i)} :: i < |p.groups| ==> NonEmpty(p, i))
    && (p.groups != [] ==> p.groups[0].first == 1)
    && (forall i: nat {:trigger Adjacent(p, i)} :: i < |p.groups| ==> Adjacent(p, i))
    && p.tests == if p.groups == [] then 0 else p.groups[|p.groups| - 1].last
  }

  predicate NamesDiffer(p: Problem, i: nat, j: nat) {
    i < j < |p.groups| ==> p.groups[i].name != p.groups[j].name
  }

  /** A group may only require earlier groups scored as a whole. */
  predicate RequiresEarlier(p: Problem, i: nat, r: string)
    requires i < |p.groups|
  {
    exists j :: 0 <= j < i && p.groups[j].name == r && p.groups[j].scoring == Complete
  }

  predicate WellFormed(p: Problem) {
    && (forall i: nat {:trigger HasScores(p.groups[i])} :: i < |p.groups| ==> HasScores(p.groups[i]))
    && Partitions(p)
    && (forall i: nat, j: nat {:trigger NamesDiffer(p, i, j)} :: i < j < |p.groups| ==> NamesDiffer(p, i, j))
    && (forall i: nat, r {:trigger RequiresEarlier(p, i, r)} ::
          i < |p.groups| && r in p.groups[i].required ==> RequiresEarlier(p, i, r))
  }

  lemma WellFormedPartitions(p: Problem)
    requires WellFormed(p)
    ensures Partitions(p)
  {
  }

  // ---------- looking up groups ----------

  function Names(p: Problem): set<string> {
    set i | 0 <= i < |p.groups| :: p.groups[i].name
  }

  /** The group of a test, searching the first k groups from the back. */
  function FindGroup(p: Problem, k: nat, t: nat): (i: nat)
    requires Partitions(p) && 0 < k <= |p.groups| && 1 <= t <= p.groups[k - 1].last
    ensures i < k && p.groups[i].first <= t <= p.groups[i].last
  {
    assert k > 1 ==> Adjacent(p, k - 2);
    if p.groups[k - 1].first <= t then k - 1 else FindGroup(p, k - 1, t)
  }

  predicate IsTest(p: Problem, t: nat) {
    1 <= t <= p.tests
  }

  function GroupIndex(p: Problem, t: nat): (i: nat)
    requires Partitions(p) && IsTest(p, t)
    ensures i < |p.groups| && p.groups[i].first <= t <= p.groups[i].last
  {
    FindGroup(p, |p.groups|, t)
  }

  function GroupOf(p: Problem, t: nat): Group
    requires Partitions(p) && IsTest(p, t)
  {
    p.groups[GroupIndex(p, t)]
  }

  lemma {:induction false} FirstsIncrease(p: Problem, i: nat, j: nat)
    requires Partitions(p) && i < j < |p.groups|
    ensures p.groups[i].last < p.groups[j].first
    decreases j
  {
    assert Adjacent(p, j - 1) && NonEmpty(p, j - 1);
    if i < j - 1 {
      FirstsIncrease(p, i, j - 1);
    }
  }

  lemma GroupIndexUnique(p: Problem, t: nat, i: nat)
    requires Partitions(p) && i < |p.groups| && p.groups[i].first <= t <= p.groups[i].last
    ensures IsTest(p, t) && GroupIndex(p, t) == i
  {
    if 0 < i {
      FirstsIncrease(p, 0, i);
    }
    if i < |p.groups| - 1 {
      FirstsIncrease(p, i, |p.groups| - 1);
      assert NonEmpty(p, |p.groups| - 1);
    }
    var j := GroupIndex(p, t);
    if i < j {
      FirstsIncrease(p, i, j);
    } else if j < i {
      FirstsIncrease(p, j, i);
    }
  }

  predicate Follows(p: Problem, i: nat, j: nat) {
    i < j < |p.groups| ==> p.groups[i].last < p.groups[j].first
  }

  /** Every group is a range of tests, and the groups follow each other. */
  ghost predicate InOrder(p: Problem) {
    && (forall i :: 0 <= i < |p.groups| ==> 1 <= p.groups[i].first <= p.groups[i].last <= p.tests)
    && (forall i: nat, j: nat {:trigger Follows(p, i, j)} :: Follows(p, i, j))
  }

  /** Some group has the test. */
  predicate IsCovered(p: Problem, t: nat) {
    exists i :: 0 <= i < |p.groups| && p.groups[i].first <= t <= p.groups[i].last
  }

  ghost predicate AllCovered(p: Problem) {
    forall t :: IsTest(p, t) ==> IsCovered(p, t)
  }

  lemma CoveredGroupsAreAdjacent(p: Problem, i: nat)
    requires InOrder(p) && AllCovered(p)
    ensures Adjacent(p, i)
  {
    if i + 1 < |p.groups| {
      var t := p.groups[i].last + 1;
      assert Follows(p, i, i + 1);
      assert IsTest(p, t) && IsCovered(p, t);
      var k :| 0 <= k < |p.groups| && p.groups[k].first <= t <= p.groups[k].last;
      assert Follows(p, k, i) && Follows(p, i + 1, k);
    }
  }

  lemma CoveredEndsMeet(p: Problem)
    requires InOrder(p) && AllCovered(p) && p.groups != []
    ensures p.groups[0].first == 1 && p.groups[|p.groups| - 1].last == p.tests
  {
    assert IsTest(p, 1) && IsTest(p, p.tests) && IsCovered(p, 1) && IsCovered(p, p.tests);
    var i :| 0 <= i < |p.groups| && p.groups[i].first <= 1 <= p.groups[i].last;
    var k :| 0 <= k < |p.groups| && p.groups[k].first <= p.tests <= p.groups[k].last;
    assert Follows(p, 0, i) && Follows(p, k, |p.groups| - 1);
  }

  lemma CoveredIsPartition(p: Problem)
    requires InOrder(p) && AllCovered(p)
    ensures Partitions(p)
  {
    forall i: nat
      ensures Adjacent(p, i)
    {
      CoveredGroupsAreAdjacent(p, i);
    }
    if p.groups == [] {
      assert !IsCovered(p, 1);
    } else {
      CoveredEndsMeet(p);
    }
  }

  /** Consecutive ranges are those that follow each other and together cover all tests. */
  lemma PartitionsExactly(p: Problem)
    ensures Partitions(p) <==> InOrder(p) && AllCovered(p)
  {
    if Partitions(p) {
      forall i: nat, j: nat
        ensures Follows(p, i, j)
      {
        if i < j < |p.groups| {
          FirstsIncrease(p, i, j);
        }
      }
      forall i | 0 <= i < |p.groups|
        ensures 1 <= p.groups[i].first <= p.groups[i].last <= p.tests
      {
        assert NonEmpty(p, i);
        GroupIndexUnique(p, p.groups[i].first, i);
        GroupIndexUnique(p, p.groups[i].last, i);
      }
      forall t | IsTest(p, t)
        ensures IsCovered(p, t)
      {
        var i := GroupIndex(p, t);
      }
    }
    if InOrder(p) && AllCovered(p) {
      CoveredIsPartition(p);
    }
  }

  /** The accepted problems: every group has the score its scoring needs; every test is in exactly one group, in order;
      names are unique; and a group requires only earlier groups scored as a whole. */
  lemma AcceptedExactly(p: Problem)
    ensures WellFormed(p) <==>
            && (forall g :: g in p.groups ==>
                  || (g.scoring in {Complete, Min} && g.groupScore.Some?)
                  || (g.scoring == EachTest && g.testScore.Some?))
            && (forall i :: 0 <= i < |p.groups| ==> 1 <= p.groups[i].first <= p.groups[i].last <= p.tests)
            && (forall i, j :: 0 <= i < j < |p.groups| ==> p.groups[i].last < p.groups[j].first)
            && AllCovered(p)
            && (forall i, j :: 0 <= i < j < |p.groups| ==> p.groups[i].name != p.groups[j].name)
            && (forall i, r :: 0 <= i < |p.groups| && r in p.groups[i].required ==>
                  exists j :: 0 <= j < i && p.groups[j].name == r && p.groups[j].scoring == Complete)
  {
    PartitionsExactly(p);
    OrderSpelledOut(p);
    hide Partitions, InOrder, AllCovered, NamesDiffer, RequiresEarlier;
    assert (forall i: nat {:trigger HasScores(p.groups[i])} :: i < |p.groups| ==> HasScores(p.groups[i])) <==>
           (forall g :: g in p.groups ==> HasScores(g));
    NamesDifferPairwise(p);
    RequirementsSpelledOut(p);
  }

  lemma OrderSpelledOut(p: Problem)
    ensures InOrder(p) <==>
            && (forall i :: 0 <= i < |p.groups| ==> 1 <= p.groups[i].first <= p.groups[i].last <= p.tests)
            && (forall i, j :: 0 <= i < j < |p.groups| ==> p.groups[i].last < p.groups[j].first)
  {
    if InOrder(p) {
      forall i, j | 0 <= i < j < |p.groups|
        ensures p.groups[i].last < p.groups[j].first
      {
        assert Follows(p, i, j);
      }
    }
  }

  lemma NamesDifferPairwise(p: Problem)
    ensures (forall i: nat, j: nat {:trigger NamesDiffer(p, i, j)} :: i < j < |p.groups| ==> NamesDiffer(p, i, j)) <==>
            (forall i, j :: 0 <= i < j < |p.groups| ==> p.groups[i].name != p.groups[j].name)
  {
    if forall i: nat, j: nat {:trigger NamesDiffer(p, i, j)} :: i < j < |p.groups| ==> NamesDiffer(p, i, j) {
      forall i, j | 0 <= i < j < |p.groups|
        ensures p.groups[i].name != p.groups[j].name
      {
        assert NamesDiffer(p, i, j);
      }
    }
  }

  lemma RequirementsSpelledOut(p: Problem)
    ensures (forall i: nat, r {:trigger RequiresEarlier(p, i, r)} ::
              i < |p.groups| && r in p.groups[i].required ==> RequiresEarlier(p, i, r)) <==>
            (forall i, r :: 0 <= i < |p.groups| && r in p.groups[i].required ==>
              exists j :: 0 <= j < i && p.groups[j].name == r && p.groups[j].scoring == Complete)
  {
    if forall i: nat, r {:trigger RequiresEarlier(p, i, r)} ::
        i < |p.groups| && r in p.groups[i].required ==> RequiresEarlier(p, i, r) {
      forall i, r | 0 <= i < |p.groups| && r in p.groups[i].required
        ensures exists j :: 0 <= j < i && p.groups[j].name == r && p.groups[j].scoring == Complete
      {
        assert RequiresEarlier(p, i, r);
      }
    }
  }

  // ---------- one pass over the ordered groups closes a set of groups under dependency ----------

  predicate RequiresOneOf(g: Group, dead: set<string>) {
    exists r :: r in g.required && r in dead
  }

  /** The pass of ioi_generator.go, from group k on: a group requiring a dead group becomes dead. */
  function Propagate(p: Problem, k: nat, dead: set<string>): set<string>
    requires k <= |p.groups|
    decreases |p.groups| - k
  {
    if k == |p.groups| then dead
    else Propagate(p, k + 1, if RequiresOneOf(p.groups[k], dead) then dead + {p.groups[k].name} else dead)
  }

  predicate ClosedUnder(p: Problem, dead: set<string>) {
    forall i :: 0 <= i < |p.groups| && RequiresOneOf(p.groups[i], dead) ==> p.groups[i].name in dead
  }

  /** A single pass is enough: it yields the least closed superset. */
  lemma PropagateIsLeastClosedSuperset(p: Problem, dead: set<string>)
    requires WellFormed(p)
    ensures dead <= Propagate(p, 0, dead)
    ensures ClosedUnder(p, Propagate(p, 0, dead))
    ensures forall other: set<string> :: dead <= other && ClosedUnder(p, other) ==> Propagate(p, 0, dead) <= other
  {
    PropagateCloses(p, 0, dead);
    forall other: set<string> | dead <= other && ClosedUnder(p, other)
      ensures Propagate(p, 0, dead) <= other
    {
      PropagateIsBelow(p, 0, dead, other);
    }
  }

  lemma {:induction false} PropagateCloses(p: Problem, k: nat, dead: set<string>)
    requires WellFormed(p) && k <= |p.groups|
    requires forall i :: 0 <= i < k && RequiresOneOf(p.groups[i], dead) ==> p.groups[i].name in dead
    ensures dead <= Propagate(p, k, dead)
    ensures ClosedUnder(p, Propagate(p, k, dead))
    decreases |p.groups| - k
  {
    if k < |p.groups| {
      var next := if RequiresOneOf(p.groups[k], dead) then dead + {p.groups[k].name} else dead;
      forall i | 0 <= i < k + 1 && RequiresOneOf(p.groups[i], next)
        ensures p.groups[i].name in next
      {
        var r :| r in p.groups[i].required && r in next;
        assert RequiresEarlier(p, i, r);
        var j :| 0 <= j < i && p.groups[j].name == r && p.groups[j].scoring == Complete;
        assert NamesDiffer(p, j, k);
        assert RequiresOneOf(p.groups[i], dead);
      }
      PropagateCloses(p, k + 1, next);
    }
  }

  lemma {:induction false} PropagateIsBelow(p: Problem, k: nat, dead: set<string>, other: set<string>)
    requires k <= |p.groups| && dead <= other && ClosedUnder(p, other)
    ensures Propagate(p, k, dead) <= other
    decreases |p.groups| - k
  {
    if k < |p.groups| {
      if RequiresOneOf(p.groups[k], dead) {
        assert RequiresOneOf(p.groups[k], other);
        PropagateIsBelow(p, k + 1, dead + {p.groups[k].name}, other);
      } else {
        PropagateIsBelow(p, k + 1, dead, other);
      }
    }
  }

  // ---------- what one test result does ----------

  predicate Prevents(g: Group, v: Verdict) {
    match g.scoring
    case Complete => v != OK
    case Min => v != OK && v != PT
    case EachTest => false
    case UnknownScoring => false
  }

  const NIL_POINTS_ERROR: string := "checker returned nil points, but verdict=PT"
  const SKIPPED_ERROR: string := "invoker returned verdict SK, but no required test failed"

  /** populateTestJobResult: fills in missing points; PT without points is an error. */
  function Populate(g: Group, r: JobResult): JobResult {
    if g.scoring == Complete || g.scoring == UnknownScoring || r.points.Some? then r
    else if r.verdict == OK then r.(points := if g.scoring == EachTest then g.testScore else g.groupScore)
    else if r.verdict == PT then
      r.(verdict := CF, error := (if r.error == "" then "" else r.error + "; ") + NIL_POINTS_ERROR)
    else r.(points := Some(0.0))
  }

  /** The internal result stored for a completed test job. */
  function Built(p: Problem, t: nat, r: JobResult): TestResult
    requires Partitions(p) && IsTest(p, t)
  {
    Rounding.BuildTestResult(t, Populate(GroupOf(p, t), r))
  }

  /** A test nobody blocks must not be skipped: SK is turned into CF on publication. */
  function Repair(r: TestResult): TestResult {
    if r.verdict == SK then r.(verdict := CF, error := SKIPPED_ERROR) else r
  }

  // ---------- scoring: results[lo..hi] are the tests of one group ----------

  predicate AllOK(results: seq<TestResult>, lo: nat, hi: nat)
    requires lo <= hi <= |results|
  {
    forall i :: lo <= i < hi ==> results[i].verdict == OK
  }

  function SumPoints(results: seq<TestResult>, lo: nat, hi: nat): Option<real>
    requires lo <= hi <= |results|
  {
    if lo == hi then Some(0.0)
    else
      var init, last := SumPoints(results, lo, hi - 1), results[hi - 1];
      if init.None? || last.points.None? then None else Some(init.value + last.points.value)
  }

  function Lower(x: real, y: real): real {
    if y < x then y else x
  }

  function MinPoints(bound: real, results: seq<TestResult>, lo: nat, hi: nat): Option<real>
    requires lo <= hi <= |results|
  {
    if lo == hi then Some(bound)
    else
      var init, last := MinPoints(bound, results, lo, hi - 1), results[hi - 1];
      if init.None? then None
      else if last.points.Some? then Some(Lower(init.value, last.points.value))
      else if last.verdict == SK then Some(0.0)
      else None
  }

  predicate EndsWithin(g: Group, results: seq<TestResult>) {
    1 <= g.first <= g.last <= |results|
  }

  /** The score of a finished group; None where the original panics on nil points. */
  function GroupScore(g: Group, results: seq<TestResult>): Option<real>
    requires EndsWithin(g, results)
  {
    match g.scoring
    case Complete =>
      Some(if AllOK(results, g.first - 1, g.last) && g.groupScore.Some? then g.groupScore.value else 0.0)
    case EachTest => SumPoints(results, g.first - 1, g.last)
    case Min =>
      if g.groupScore.Some? then MinPoints(g.groupScore.value, results, g.first - 1, g.last) else None
    case UnknownScoring => Some(0.0)
  }

  function GroupResultOf(g: Group, results: seq<TestResult>): GroupResult
    requires EndsWithin(g, results)
  {
    var score := GroupScore(g, results);
    GroupResult(g.name, if score.Some? then score.value else 0.0, AllOK(results, g.first - 1, g.last))
  }

  /** A group's score depends on the results of its own tests only. */
  lemma GroupScoreIsLocal(g: Group, a: seq<TestResult>, b: seq<TestResult>)
    requires EndsWithin(g, a) && EndsWithin(g, b)
    requires forall i :: g.first - 1 <= i < g.last ==> a[i] == b[i]
    ensures GroupScore(g, a) == GroupScore(g, b) && GroupResultOf(g, a) == GroupResultOf(g, b)
  {
    var lo := g.first - 1;
    for hi := lo to g.last
      invariant SumPoints(a, lo, hi) == SumPoints(b, lo, hi)
      invariant g.groupScore.Some? ==>
                  MinPoints(g.groupScore.value, a, lo, hi) == MinPoints(g.groupScore.value, b, lo, hi)
    {
    }
    assert AllOK(a, lo, g.last) <==> AllOK(b, lo, g.last);
  }

  function TotalPoints(groups: seq<GroupResult>, k: nat): real
    requires k <= |groups|
  {
    if k == 0 then 0.0 else TotalPoints(groups, k - 1) + groups[k - 1].points
  }

  /** The verdict loop of setFinalScoreAndVerdict: the last result that is neither OK nor SK decides. */
  function FinalVerdict(results: seq<TestResult>, k: nat): Verdict
    requires k <= |results|
  {
    if k == 0 then OK
    else
      var last := results[k - 1].verdict;
      if last == CF then CF
      else if last == SK || last == OK then FinalVerdict(results, k - 1)
      else PT
  }

  // ---------- the sequential judge ----------

  predicate Covers(o: Oracle, p: Problem) {
    |o.tests| == p.tests
  }

  function Own(p: Problem, o: Oracle, t: nat): TestResult
    requires Partitions(p) && Covers(o, p) && IsTest(p, t)
  {
    Repair(Built(p, t, o.tests[t - 1]))
  }

  /** Test t, if judged at all, stops its group. */
  predicate Fails(p: Problem, o: Oracle, t: nat)
    requires Partitions(p) && Covers(o, p) && IsTest(p, t)
  {
    Prevents(GroupOf(p, t), Own(p, o, t).verdict)
  }

  predicate CompilesOK(o: Oracle) {
    o.compile.verdict == CD
  }

  /** Groups that may no longer be judged after the first k tests. */
  function Dead(p: Problem, o: Oracle, k: nat): set<string>
    requires Partitions(p) && Covers(o, p) && k <= p.tests
  {
    if k == 0 then if CompilesOK(o) then {} else Names(p)
    else if Fails(p, o, k) then Propagate(p, 0, Dead(p, o, k - 1) + {GroupOf(p, k).name})
    else Dead(p, o, k - 1)
  }

  function JudgeTest(p: Problem, o: Oracle, t: nat): TestResult
    requires Partitions(p) && Covers(o, p) && IsTest(p, t)
  {
    if GroupOf(p, t).name in Dead(p, o, t - 1) then Placeholder(t, SK) else Own(p, o, t)
  }

  function JudgeTests(p: Problem, o: Oracle, k: nat): (results: seq<TestResult>)
    requires Partitions(p) && Covers(o, p) && k <= p.tests
    ensures |results| == k
    ensures forall i :: 0 <= i < k ==> results[i] == JudgeTest(p, o, i + 1)
  {
    if k == 0 then [] else JudgeTests(p, o, k - 1) + [JudgeTest(p, o, k)]
  }

  lemma GroupEndsInside(p: Problem, i: nat)
    requires Partitions(p) && i < |p.groups|
    ensures 1 <= p.groups[i].first <= p.groups[i].last <= p.tests
  {
    assert NonEmpty(p, i);
    GroupIndexUnique(p, p.groups[i].first, i);
    GroupIndexUnique(p, p.groups[i].last, i);
  }

  /** The judge's score of group i. */
  function JudgeScore(p: Problem, o: Oracle, i: nat): Option<real>
    requires Partitions(p) && Covers(o, p) && i < |p.groups|
  {
    GroupEndsInside(p, i);
    GroupScore(p.groups[i], JudgeTests(p, o, p.tests))
  }

  function JudgeGroup(p: Problem, o: Oracle, i: nat): GroupResult
    requires Partitions(p) && Covers(o, p) && i < |p.groups|
  {
    GroupEndsInside(p, i);
    GroupResultOf(p.groups[i], JudgeTests(p, o, p.tests))
  }

  function JudgeGroups(p: Problem, o: Oracle, m: nat): (results: seq<GroupResult>)
    requires Partitions(p) && Covers(o, p) && m <= |p.groups|
    ensures |results| == m
    ensures forall i :: 0 <= i < m ==> results[i] == JudgeGroup(p, o, i)
  {
    if m == 0 then [] else JudgeGroups(p, o, m - 1) + [JudgeGroup(p, o, m - 1)]
  }

  function Judge(p: Problem, o: Oracle, id: nat): Submission
    requires Partitions(p) && Covers(o, p)
  {
    var results := JudgeTests(p, o, p.tests);
    var groups := JudgeGroups(p, o, |p.groups|);
    Submission(id,
      if CompilesOK(o) then FinalVerdict(results, |results|) else CompileVerdict(o.compile),
      TotalPoints(groups, |groups|), results, Some(Rounding.CompileReport(o.compile)), groups)
  }

  /** Judging reaches a group with a nil score, where the original panics. */
  predicate Crashes(p: Problem, o: Oracle)
    requires Partitions(p) && Covers(o, p)
  {
    exists i :: 0 <= i < |p.groups| && JudgeScore(p, o, i).None?
  }
}
