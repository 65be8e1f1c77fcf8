/** What the sequential judge, and so every finished run, awards; and when a nil score crashes it. */
module IoiScoring {
  import opened Models
  import opened IoiJudge
  import opened IoiMachine
  import opened IoiInvariant

  // ---------- which tests are skipped ----------

  /** The failure of group `from` makes the judge skip group `to`: `to` is `from` or requires it, directly or not. */
  predicate Affects(p: Problem, from: string, to: string) {
    to in Propagate(p, 0, {from})
  }

  lemma PropagateUnion(p: Problem, a: set<string>, b: set<string>)
    requires WellFormed(p)
    ensures Propagate(p, 0, a + b) == Propagate(p, 0, a) + Propagate(p, 0, b)
  {
    PropagateIsLeastClosedSuperset(p, a);
    PropagateIsLeastClosedSuperset(p, b);
    PropagateIsLeastClosedSuperset(p, a + b);
    var u := Propagate(p, 0, a) + Propagate(p, 0, b);
    ClosedUnion(p, Propagate(p, 0, a), Propagate(p, 0, b));
    assert a + b <= u;
    assert a <= Propagate(p, 0, a + b) && b <= Propagate(p, 0, a + b);
  }

  lemma ClosedUnion(p: Problem, a: set<string>, b: set<string>)
    requires ClosedUnder(p, a) && ClosedUnder(p, b)
    ensures ClosedUnder(p, a + b)
  {
    forall i | 0 <= i < |p.groups| && RequiresOneOf(p.groups[i], a + b)
      ensures p.groups[i].name in a + b
    {
      var r :| r in p.groups[i].required && r in a + b;
      assert r in a ==> RequiresOneOf(p.groups[i], a);
      assert r in b ==> RequiresOneOf(p.groups[i], b);
    }
  }

  ghost predicate Culprit(p: Problem, o: Oracle, u: nat, k: nat, name: string)
    requires Partitions(p) && Covers(o, p)
  {
    IsTest(p, u) && u <= k && Fails(p, o, u) && Affects(p, GroupOf(p, u).name, name)
  }

  /** One of the first k tests fails and affects the group. */
  ghost predicate HasCulprit(p: Problem, o: Oracle, k: nat, name: string)
    requires Partitions(p) && Covers(o, p)
  {
    exists u: nat :: Culprit(p, o, u, k, name)
  }

  lemma OneMoreCulprit(p: Problem, o: Oracle, k: nat, name: string)
    requires Partitions(p) && Covers(o, p) && IsTest(p, k)
    ensures HasCulprit(p, o, k, name) <==>
            HasCulprit(p, o, k - 1, name) || (Fails(p, o, k) && Affects(p, GroupOf(p, k).name, name))
  {
    hide Fails, Affects, Partitions;
    var k' := k - 1;
    if HasCulprit(p, o, k', name) {
      var u: nat :| Culprit(p, o, u, k', name);
      assert Culprit(p, o, u, k, name);
    }
    if HasCulprit(p, o, k, name) {
      var u: nat :| Culprit(p, o, u, k, name);
      assert u == k || Culprit(p, o, u, k', name);
    }
    assert Fails(p, o, k) && Affects(p, GroupOf(p, k).name, name) ==> Culprit(p, o, k, k, name);
  }

  lemma NoCulpritAtFirst(p: Problem, o: Oracle, name: string)
    requires Partitions(p) && Covers(o, p)
    ensures !HasCulprit(p, o, 0, name)
  {
  }

  /** After k tests a group is dead exactly when some failing test among them affects it. */
  lemma {:induction false} DeadExactlyWhenAffected(p: Problem, o: Oracle, k: nat, name: string)
    requires WellFormed(p) && Covers(o, p) && CompilesOK(o) && k <= p.tests
    ensures name in Dead(p, o, k) <==> HasCulprit(p, o, k, name)
  {
    hide Fails, WellFormed, HasCulprit, Partitions, Propagate, ClosedUnder, GroupIndex;
    WellFormedPartitions(p);
    if k == 0 {
      NoCulpritAtFirst(p, o, name);
    } else {
      DeadExactlyWhenAffected(p, o, k - 1, name);
      OneMoreCulprit(p, o, k, name);
      FailureAddsWhatItAffects(p, o, k, name);
    }
  }

  /** A failing test adds to the dead groups exactly those its own group affects. */
  lemma FailureAddsWhatItAffects(p: Problem, o: Oracle, k: nat, name: string)
    requires WellFormed(p) && Covers(o, p) && IsTest(p, k)
    ensures Fails(p, o, k) ==>
              (name in Dead(p, o, k) <==> name in Dead(p, o, k - 1) || Affects(p, GroupOf(p, k).name, name))
  {
    hide Fails, WellFormed, Partitions, Propagate, ClosedUnder, GroupIndex;
    WellFormedPartitions(p);
    var before := Dead(p, o, k - 1);
    DeadIsClosed(p, o, k - 1);
    PropagateIsLeastClosedSuperset(p, before);
    PropagateUnion(p, before, {GroupOf(p, k).name});
    assert before <= before;
  }

  lemma OwnIsNeverSkipped(p: Problem, o: Oracle, t: nat)
    requires Partitions(p) && Covers(o, p) && IsTest(p, t)
    ensures Own(p, o, t).verdict != SK
  {
  }

  /** After a successful compilation a test is skipped exactly when an earlier test fails in a group that is
      the test's own or one it requires, directly or through other groups. */
  lemma SkippedExactlyWhenBlocked(p: Problem, o: Oracle, t: nat)
    requires WellFormed(p) && Covers(o, p) && CompilesOK(o) && IsTest(p, t)
    ensures JudgeTest(p, o, t).verdict == SK <==>
            HasCulprit(p, o, t - 1, GroupOf(p, t).name)
  {
    OwnIsNeverSkipped(p, o, t);
    DeadExactlyWhenAffected(p, o, t - 1, GroupOf(p, t).name);
  }

  // ---------- the dependency relation, spelled out ----------

  predicate Requires(p: Problem, to: string, from: string) {
    exists i :: 0 <= i < |p.groups| && p.groups[i].name == to && from in p.groups[i].required
  }

  predicate Chain(p: Problem, c: seq<string>) {
    c != [] && forall i, j {:trigger c[i], c[j]} :: 0 <= i && j == i + 1 < |c| ==> Requires(p, c[j], c[i])
  }

  ghost predicate Linked(p: Problem, from: string, to: string) {
    exists c :: Chain(p, c) && c[0] == from && c[|c| - 1] == to
  }

  /** One pass over the groups finds precisely the groups linked by a chain of requirements. */
  lemma AffectsIsLinked(p: Problem, from: string, to: string)
    requires WellFormed(p)
    ensures Affects(p, from, to) <==> Linked(p, from, to)
  {
    hide WellFormed;
    PropagateIsLeastClosedSuperset(p, {from});
    if Linked(p, from, to) {
      var c :| Chain(p, c) && c[0] == from && c[|c| - 1] == to;
      ChainStaysInside(p, c, Propagate(p, 0, {from}), |c| - 1);
    }
    if Affects(p, from, to) {
      var linked := set n | n in Names(p) + {from} && Linked(p, from, n);
      assert Chain(p, [from]);
      assert from in linked;
      assert ClosedUnder(p, linked) by { LinkedIsClosed(p, from, linked); }
      assert {from} <= linked;
    }
  }

  lemma {:induction false} ChainStaysInside(p: Problem, c: seq<string>, dead: set<string>, k: nat)
    requires Chain(p, c) && ClosedUnder(p, dead) && c[0] in dead && k < |c|
    ensures c[k] in dead
  {
    if k > 0 {
      ChainStaysInside(p, c, dead, k - 1);
      assert Requires(p, c[k], c[k - 1]);
      var i :| 0 <= i < |p.groups| && p.groups[i].name == c[k] && c[k - 1] in p.groups[i].required;
      assert RequiresOneOf(p.groups[i], dead);
    }
  }

  lemma LinkedIsClosed(p: Problem, from: string, linked: set<string>)
    requires linked == set n | n in Names(p) + {from} && Linked(p, from, n)
    ensures ClosedUnder(p, linked)
  {
    forall i | 0 <= i < |p.groups| && RequiresOneOf(p.groups[i], linked)
      ensures p.groups[i].name in linked
    {
      var r :| r in p.groups[i].required && r in linked;
      var c :| Chain(p, c) && c[0] == from && c[|c| - 1] == r;
      var longer := c + [p.groups[i].name];
      assert Requires(p, p.groups[i].name, r);
      assert Chain(p, longer) && longer[0] == from && longer[|longer| - 1] == p.groups[i].name;
    }
  }

  // ---------- which tests are skipped, read off the published results ----------

  /** A test that was run and stops its group: anything but OK where the group is scored as a whole, and anything but
      OK and PT where the least points count. */
  predicate IsBad(g: Group, v: Verdict) {
    v != SK && ((g.scoring == Complete && v != OK) || (g.scoring == Min && v !in {OK, PT}))
  }

  /** Test u of group i has a bad result, and the group of test t is i or depends on it. */
  ghost predicate Blocks(p: Problem, o: Oracle, i: nat, u: nat, t: nat)
    requires Partitions(p) && Covers(o, p) && IsTest(p, t)
  {
    && i < |p.groups| && p.groups[i].first <= u <= p.groups[i].last && 1 <= u < t
    && IsBad(p.groups[i], Published(p, o)[u - 1].verdict)
    && Linked(p, p.groups[i].name, GroupOf(p, t).name)
  }

  lemma LinkedTransitively(p: Problem, a: string, b: string, c: string)
    requires Linked(p, a, b) && Linked(p, b, c)
    ensures Linked(p, a, c)
  {
    var x :| Chain(p, x) && x[0] == a && x[|x| - 1] == b;
    var y :| Chain(p, y) && y[0] == b && y[|y| - 1] == c;
    var z := x + y[1..];
    forall i, j {:trigger z[i], z[j]} | 0 <= i && j == i + 1 < |z|
      ensures Requires(p, z[j], z[i])
    {
      if j < |x| {
        assert z[i] == x[i] && z[j] == x[j];
      } else {
        assert z[i] == y[i - |x| + 1] && z[j] == y[j - |x| + 1];
      }
    }
    assert Chain(p, z) && z[0] == a && z[|z| - 1] == c;
  }

  /** A culprit that was skipped itself has another one before it. */
  lemma {:induction false} CulpritIsBad(p: Problem, o: Oracle, u: nat, t: nat) returns (i: nat, v: nat)
    requires WellFormed(p) && Partitions(p) && Covers(o, p) && CompilesOK(o) && IsTest(p, t)
    requires Culprit(p, o, u, t - 1, GroupOf(p, t).name)
    ensures Blocks(p, o, i, v, t)
    decreases u
  {
    hide WellFormed, Dead, Propagate, ClosedUnder, Partitions, GroupIndex, Chain, Built;
    i, v := GroupIndex(p, u), u;
    AffectsIsLinked(p, GroupOf(p, u).name, GroupOf(p, t).name);
    OwnIsNeverSkipped(p, o, u);
    if JudgeTest(p, o, u).verdict == SK {
      SkippedExactlyWhenBlocked(p, o, u);
      var w: nat :| Culprit(p, o, w, u - 1, GroupOf(p, u).name);
      i, v := CulpritIsBad(p, o, w, u);
      LinkedTransitively(p, p.groups[i].name, GroupOf(p, u).name, GroupOf(p, t).name);
    }
  }

  lemma BadIsCulprit(p: Problem, o: Oracle, i: nat, u: nat, t: nat)
    requires WellFormed(p) && Partitions(p) && Covers(o, p) && IsTest(p, t) && Blocks(p, o, i, u, t)
    ensures Culprit(p, o, u, t - 1, GroupOf(p, t).name)
  {
    hide WellFormed, Dead, Propagate, ClosedUnder, Partitions, Chain, Built;
    GroupIndexUnique(p, u, i);
    AffectsIsLinked(p, p.groups[i].name, GroupOf(p, t).name);
  }

  /** After a successful compilation a published result is SK exactly if an earlier test has a bad published result in
      the same group or in one the group depends on, directly or through others. */
  lemma SkippedExactlyAfterBadResults(p: Problem, o: Oracle, t: nat)
    requires WellFormed(p) && Partitions(p) && Covers(o, p) && CompilesOK(o) && IsTest(p, t)
    ensures Published(p, o)[t - 1].verdict == SK <==> exists i: nat, u: nat :: Blocks(p, o, i, u, t)
  {
    hide WellFormed, Dead, Partitions, Culprit, Blocks, Own;
    SkippedExactlyWhenBlocked(p, o, t);
    if HasCulprit(p, o, t - 1, GroupOf(p, t).name) {
      var w: nat :| Culprit(p, o, w, t - 1, GroupOf(p, t).name);
      var i, u := CulpritIsBad(p, o, w, t);
    }
    if i: nat, u: nat :| Blocks(p, o, i, u, t) {
      BadIsCulprit(p, o, i, u, t);
    }
  }

  // ---------- a group is tested only when what it requires has passed ----------

  lemma NamedOnce(p: Problem, i: nat, j: nat)
    requires WellFormed(p) && i < |p.groups| && j < |p.groups| && p.groups[i].name == p.groups[j].name
    ensures i == j
  {
    assert NamesDiffer(p, i, j) && NamesDiffer(p, j, i);
  }

  /** The groups of a chain come in order, and all but the last are scored as a whole. */
  lemma {:induction false} ChainAscends(p: Problem, c: seq<string>, k: nat, j: nat, i: nat)
    requires WellFormed(p) && Chain(p, c) && k < |c| && j < |p.groups| && i < |p.groups|
    requires c[0] == p.groups[j].name && c[k] == p.groups[i].name
    ensures j <= i && (k > 0 ==> j < i && p.groups[j].scoring == Complete)
    decreases k
  {
    hide Partitions, HasScores;
    if k == 0 {
      NamedOnce(p, i, j);
    } else {
      assert Requires(p, c[k], c[k - 1]);
      var a :| 0 <= a < |p.groups| && p.groups[a].name == c[k] && c[k - 1] in p.groups[a].required;
      NamedOnce(p, a, i);
      assert RequiresEarlier(p, i, c[k - 1]);
      var b :| 0 <= b < i && p.groups[b].name == c[k - 1] && p.groups[b].scoring == Complete;
      ChainAscends(p, c, k - 1, j, b);
      if k == 1 {
        NamedOnce(p, b, j);
      }
    }
  }

  lemma DependsOnEarlierWholeGroups(p: Problem, j: nat, i: nat)
    requires WellFormed(p) && i < |p.groups| && j < |p.groups| && i != j
    requires Linked(p, p.groups[j].name, p.groups[i].name)
    ensures j < i && p.groups[j].scoring == Complete
  {
    var c :| Chain(p, c) && c[0] == p.groups[j].name && c[|c| - 1] == p.groups[i].name;
    ChainAscends(p, c, |c| - 1, j, i);
    if |c| == 1 {
      NamedOnce(p, i, j);
    }
  }

  /** Test u of group j is not OK, and group i depends on j. */
  ghost predicate NotPassed(p: Problem, o: Oracle, j: nat, u: nat, i: nat)
    requires Partitions(p) && Covers(o, p) && i < |p.groups|
  {
    && j < |p.groups| && j != i && p.groups[j].first <= u <= p.groups[j].last && 1 <= u <= p.tests
    && Linked(p, p.groups[j].name, p.groups[i].name)
    && Published(p, o)[u - 1].verdict != OK
  }

  /** After a successful compilation the first test of a group is run exactly if every group it depends on, directly or
      through others, has all its tests OK. */
  lemma TestedExactlyWhenRequiredPassed(p: Problem, o: Oracle, i: nat)
    requires WellFormed(p) && Partitions(p) && Covers(o, p) && CompilesOK(o) && i < |p.groups|
    ensures 1 <= p.groups[i].first <= p.tests
    ensures Published(p, o)[p.groups[i].first - 1].verdict == SK <==> exists j: nat, u: nat :: NotPassed(p, o, j, u, i)
  {
    hide WellFormed, Partitions, Published, GroupIndex, Chain, Requires;
    GroupEndsInside(p, i);
    var t := p.groups[i].first;
    GroupIndexUnique(p, t, i);
    SkippedExactlyAfterBadResults(p, o, t);
    if j: nat, u: nat :| Blocks(p, o, j, u, t) {
      assert NotPassed(p, o, j, u, i);
    }
    if j: nat, u: nat :| NotPassed(p, o, j, u, i) {
      DependsOnEarlierWholeGroups(p, j, i);
      FirstsIncrease(p, j, i);
      if Published(p, o)[u - 1].verdict != SK {
        assert Blocks(p, o, j, u, t);
      } else {
        GroupIndexUnique(p, u, j);
        SkippedExactlyAfterBadResults(p, o, u);
        var k: nat, v: nat :| Blocks(p, o, k, v, u);
        LinkedTransitively(p, p.groups[k].name, p.groups[j].name, p.groups[i].name);
        assert Blocks(p, o, k, v, t);
      }
    }
  }

  // ---------- verdict ----------

  predicate IsFailure(v: Verdict) {
    v != OK && v != SK
  }

  ghost predicate JudgedFailure(p: Problem, o: Oracle, u: nat)
    requires Partitions(p) && Covers(o, p)
  {
    IsTest(p, u) && IsFailure(JudgeTest(p, o, u).verdict)
  }

  /** Nothing is skipped without a published failure before it. */
  lemma {:induction false} DeadHasJudgedFailure(p: Problem, o: Oracle, k: nat) returns (u: nat)
    requires Partitions(p) && Covers(o, p) && CompilesOK(o) && k <= p.tests && Dead(p, o, k) != {}
    ensures u <= k && JudgedFailure(p, o, u)
  {
    if Dead(p, o, k - 1) != {} {
      u := DeadHasJudgedFailure(p, o, k - 1);
    } else {
      u := k;
      OwnIsNeverSkipped(p, o, k);
    }
  }

  /** The final verdict is never RU; after a successful compilation it is OK exactly when all tests are OK,
      and otherwise CF or PT by the last test that is neither OK nor skipped. */
  lemma FinalVerdictIsRight(p: Problem, o: Oracle, submitId: nat)
    requires Partitions(p) && Covers(o, p)
    ensures var sub := Judge(p, o, submitId);
            && sub.verdict != RU
            && (CompilesOK(o) ==> (sub.verdict == OK <==> AllOK(sub.testResults, 0, p.tests)))
            && (CompilesOK(o) && sub.verdict != OK ==>
                  exists u :: LastFailure(sub.testResults, u, p.tests)
                    && sub.verdict == if sub.testResults[u].verdict == CF then CF else PT)
            && (!CompilesOK(o) ==> sub.verdict == if o.compile.verdict == CE then CE else CF)
  {
    hide Dead, Own, JudgeTest, JudgeGroups;
    var results := JudgeTests(p, o, p.tests);
    FinalVerdictIsACause(results, p.tests);
    if CompilesOK(o) && FinalVerdict(results, p.tests) == OK && !AllOK(results, 0, p.tests) {
      var i :| 0 <= i < p.tests && results[i].verdict != OK;
      SkippedHasFailure(p, o, i + 1);
    }
    FinalVerdictIsOfLastFailure(results, p.tests);
  }

  lemma SkippedHasFailure(p: Problem, o: Oracle, t: nat)
    requires Partitions(p) && Covers(o, p) && CompilesOK(o) && IsTest(p, t)
    requires JudgeTest(p, o, t).verdict != OK
    ensures exists i :: 0 <= i < p.tests && IsFailure(JudgeTests(p, o, p.tests)[i].verdict)
  {
    var results := JudgeTests(p, o, p.tests);
    OwnIsNeverSkipped(p, o, t);
    if JudgeTest(p, o, t).verdict == SK {
      var u := DeadHasJudgedFailure(p, o, t - 1);
      assert IsFailure(results[u - 1].verdict);
    } else {
      assert IsFailure(results[t - 1].verdict);
    }
  }

  predicate LastFailure(results: seq<TestResult>, u: int, k: nat) {
    && 0 <= u < k <= |results|
    && IsFailure(results[u].verdict)
    && forall i :: u < i < k ==> !IsFailure(results[i].verdict)
  }

  lemma {:induction false} FinalVerdictIsOfLastFailure(results: seq<TestResult>, k: nat)
    requires k <= |results|
    ensures FinalVerdict(results, k) != OK ==>
              exists u :: LastFailure(results, u, k)
                && FinalVerdict(results, k) == if results[u].verdict == CF then CF else PT
  {
    if k > 0 && FinalVerdict(results, k) != OK {
      if IsFailure(results[k - 1].verdict) {
        assert LastFailure(results, k - 1, k);
      } else {
        FinalVerdictIsOfLastFailure(results, k - 1);
        var u :| LastFailure(results, u, k - 1)
                 && FinalVerdict(results, k - 1) == if results[u].verdict == CF then CF else PT;
        assert LastFailure(results, u, k);
      }
    }
  }

  // ---------- what a result says ----------

  /** The points the checker did not report. */
  predicate FilledIn(g: Group, v: Verdict, points: Option<real>) {
    match g.scoring
    case Complete => points == None
    case EachTest => if v == OK then points == g.testScore else if v == PT then points == None else points == Some(0.0)
    case Min => if v == OK then points == g.groupScore else if v == PT then points == None else points == Some(0.0)
    case UnknownScoring => points == None
  }

  /** A published result that is not SK belongs to its test, has the measures of its run and the points the checker
      reported, or those its group gives for the verdict. The verdict is that of the run, but CF for SK, and for PT
      without points where points count. A group with points for OK has them. */
  lemma PublishedResultIsTheRuns(p: Problem, o: Oracle, t: nat)
    requires WellFormed(p) && Partitions(p) && Covers(o, p) && IsTest(p, t) && Published(p, o)[t - 1].verdict != SK
    ensures var result, r, g := Published(p, o)[t - 1], o.tests[t - 1], GroupOf(p, t);
            var pointless := r.verdict == PT && r.points == None && g.scoring != Complete;
            && result.testNumber == t && Rounding.Measured(result, r.statistics)
            && (if r.points.Some? then result.points == r.points else FilledIn(g, r.verdict, result.points))
            && result.verdict == (if r.verdict == SK || pointless then CF else r.verdict)
            && result.error == (if r.verdict == SK then "invoker returned verdict SK, but no required test failed"
                                else if !pointless then r.error
                                else if r.error == "" then "checker returned nil points, but verdict=PT"
                                else r.error + "; " + "checker returned nil points, but verdict=PT")
            && (r.verdict == OK && g.scoring != Complete ==> result.points.Some?)
  {
    hide Dead, Partitions, Rounding.Rounded;
    assert HasScores(p.groups[GroupIndex(p, t)]);
  }

  /** A skipped result says nothing else. */
  lemma SkippedResultIsBare(p: Problem, o: Oracle, t: nat)
    requires Partitions(p) && Covers(o, p) && IsTest(p, t) && Published(p, o)[t - 1].verdict == SK
    ensures var result := Published(p, o)[t - 1];
            && result.testNumber == t && result.points == None && result.error == ""
            && Rounding.Measured(result, None)
  {
    hide Dead, Partitions, Own;
    OwnIsNeverSkipped(p, o, t);
  }

  // ---------- sums ----------

  function Plus(a: Option<real>, b: Option<real>): Option<real> {
    if a.Some? && b.Some? then Some(a.value + b.value) else None
  }

  /** The points of a range are those of its parts, and of a single test its own. */
  lemma {:induction false} PointsAddUp(results: seq<TestResult>, lo: nat, mid: nat, hi: nat)
    requires lo <= mid <= hi <= |results|
    ensures SumPoints(results, lo, hi) == Plus(SumPoints(results, lo, mid), SumPoints(results, mid, hi))
    ensures hi == lo + 1 ==> SumPoints(results, lo, hi) == results[lo].points
    ensures hi == lo ==> SumPoints(results, lo, hi) == Some(0.0)
    decreases hi
  {
    if mid < hi {
      PointsAddUp(results, lo, mid, hi - 1);
    }
  }

  /** All groups count each test for itself. */
  predicate EachTestCounts(p: Problem) {
    forall i :: 0 <= i < |p.groups| ==> p.groups[i].scoring == EachTest
  }

  /** Then the score of the submission is the sum of the points of all tests. */
  lemma ScoreIsTheSumOfPoints(p: Problem, o: Oracle, submitId: nat)
    requires WellFormed(p) && Partitions(p) && Covers(o, p) && !Crashes(p, o) && EachTestCounts(p)
    ensures var sub := Judge(p, o, submitId);
            |sub.testResults| == p.tests && SumPoints(sub.testResults, 0, p.tests) == Some(sub.score)
  {
    hide WellFormed, Partitions, Dead, Own, SumPoints, Crashes, FinalVerdict;
    GroupTotalsAreSums(p, o, |p.groups|);
    EndsAtTheLastTest(p);
  }

  function EndOf(p: Problem, k: nat): nat
    requires k <= |p.groups|
  {
    if k == 0 then 0 else p.groups[k - 1].last
  }

  lemma EndsAtTheLastTest(p: Problem)
    requires Partitions(p)
    ensures EndOf(p, |p.groups|) == p.tests
  {
  }

  lemma GroupsFollow(p: Problem, k: nat)
    requires Partitions(p) && k < |p.groups|
    ensures p.groups[k].first == EndOf(p, k) + 1 && EndOf(p, k) <= EndOf(p, k + 1) <= p.tests
  {
    GroupEndsInside(p, k);
    if k > 0 {
      assert Adjacent(p, k - 1);
    }
  }

  lemma {:induction false} GroupTotalsAreSums(p: Problem, o: Oracle, k: nat)
    requires Partitions(p) && Covers(o, p) && !Crashes(p, o) && EachTestCounts(p) && k <= |p.groups|
    ensures EndOf(p, k) <= p.tests
    ensures SumPoints(Published(p, o), 0, EndOf(p, k)) == Some(TotalPoints(JudgeGroups(p, o, k), k))
  {
    hide Partitions, Dead, Own, JudgeTests, SumPoints;
    if k == 0 {
      PointsAddUp(Published(p, o), 0, 0, 0);
    } else {
      GroupTotalsAreSums(p, o, k - 1);
      GroupsFollow(p, k - 1);
      PointsAddUp(Published(p, o), 0, EndOf(p, k - 1), EndOf(p, k));
      assert JudgeScore(p, o, k - 1).Some?;
      PrefixTotals(JudgeGroups(p, o, k), JudgeGroups(p, o, k - 1), k - 1);
    }
  }

  lemma {:induction false} PrefixTotals(a: seq<GroupResult>, b: seq<GroupResult>, k: nat)
    requires k <= |a| && k <= |b| && forall i :: 0 <= i < k ==> a[i] == b[i]
    ensures TotalPoints(a, k) == TotalPoints(b, k)
  {
    if k > 0 {
      PrefixTotals(a, b, k - 1);
    }
  }

  // ---------- group scores ----------

  /** Test t is skipped by the judge. */
  predicate IsSkipped(p: Problem, o: Oracle, t: nat)
    requires Partitions(p) && Covers(o, p) && IsTest(p, t)
  {
    GroupOf(p, t).name in Dead(p, o, t - 1)
  }

  /** Once a test of a group is skipped, so are the later ones. */
  lemma SkippingIsASuffix(p: Problem, o: Oracle, i: nat, t: nat, u: nat)
    requires WellFormed(p) && Covers(o, p) && i < |p.groups|
    requires p.groups[i].first <= t <= u <= p.groups[i].last
    requires IsTest(p, t) && IsTest(p, u) && IsSkipped(p, o, t)
    ensures IsSkipped(p, o, u)
  {
    hide Fails;
    GroupIndexUnique(p, t, i);
    GroupIndexUnique(p, u, i);
    DeadGrows(p, o, t - 1, u - 1);
  }

  predicate IsLeast(v: real, bound: real, results: seq<TestResult>, lo: nat, hi: nat)
    requires lo <= hi <= |results|
  {
    && v <= bound
    && (forall k :: lo <= k < hi ==> results[k].points.Some? && v <= results[k].points.value)
    && (v == bound || exists k :: lo <= k < hi && results[k].points == Some(v))
  }

  /** All results the judge publishes. */
  function Published(p: Problem, o: Oracle): (results: seq<TestResult>)
    requires Partitions(p) && Covers(o, p)
    ensures |results| == p.tests
  {
    JudgeTests(p, o, p.tests)
  }

  predicate NoneSkipped(results: seq<TestResult>, lo: nat, hi: nat)
    requires lo <= hi <= |results|
  {
    forall k :: lo <= k < hi ==> results[k].verdict != SK
  }

  lemma {:induction false} MinPointsIsLeast(bound: real, results: seq<TestResult>, lo: nat, hi: nat)
    requires lo <= hi <= |results| && NoneSkipped(results, lo, hi)
    ensures match MinPoints(bound, results, lo, hi)
            case None => exists k :: lo <= k < hi && results[k].points == None
            case Some(v) => IsLeast(v, bound, results, lo, hi)
  {
    if lo < hi {
      MinPointsIsLeast(bound, results, lo, hi - 1);
    }
  }

  lemma NothingSkippedBefore(p: Problem, o: Oracle, i: nat)
    requires WellFormed(p) && Covers(o, p) && i < |p.groups|
    requires 1 <= p.groups[i].first <= p.groups[i].last <= p.tests && !IsSkipped(p, o, p.groups[i].last)
    ensures NoneSkipped(Published(p, o), p.groups[i].first - 1, p.groups[i].last)
  {
    hide Dead, Own, Partitions;
    forall k | p.groups[i].first - 1 <= k < p.groups[i].last
      ensures JudgeTests(p, o, p.tests)[k].verdict != SK
    {
      OwnIsNeverSkipped(p, o, k + 1);
      if IsSkipped(p, o, k + 1) {
        SkippingIsASuffix(p, o, i, k + 1, p.groups[i].last);
      }
    }
  }

  /** A Min group earns 0 when one of its tests is skipped... */
  lemma SkippedMinGroupScore(p: Problem, o: Oracle, i: nat, t: nat)
    requires WellFormed(p) && Covers(o, p) && i < |p.groups| && p.groups[i].scoring == Min
    requires 1 <= p.groups[i].first <= t <= p.groups[i].last <= p.tests
    requires JudgeScore(p, o, i).Some? && IsSkipped(p, o, t)
    ensures JudgeScore(p, o, i).value == 0.0
  {
    hide Dead, Own, Partitions, WellFormed;
    var g := p.groups[i];
    WellFormedPartitions(p);
    SkippingIsASuffix(p, o, i, t, g.last);
    assert JudgeTests(p, o, p.tests)[g.last - 1] == Placeholder(g.last, SK);
  }

  /** ...and otherwise the least of its group score and its points. */
  lemma UnskippedMinGroupScore(p: Problem, o: Oracle, i: nat)
    requires WellFormed(p) && Covers(o, p) && i < |p.groups| && p.groups[i].scoring == Min
    requires 1 <= p.groups[i].first <= p.groups[i].last <= p.tests
    requires JudgeScore(p, o, i).Some? && p.groups[i].groupScore.Some? && !IsSkipped(p, o, p.groups[i].last)
    ensures IsLeast(JudgeScore(p, o, i).value, p.groups[i].groupScore.value, Published(p, o),
                    p.groups[i].first - 1, p.groups[i].last)
  {
    hide WellFormed, Dead, Own, IsLeast, JudgeScore, MinPoints, JudgeTests, Published, IsSkipped, NoneSkipped,
      GroupIndex, GroupOf, Partitions;
    WellFormedPartitions(p);
    var g := p.groups[i];
    MinScoreIsMinPoints(p, o, i);
    NothingSkippedBefore(p, o, i);
    LeastOfMinPoints(JudgeScore(p, o, i), g.groupScore.value, Published(p, o), g.first - 1, g.last);
  }

  lemma LeastOfMinPoints(score: Option<real>, bound: real, results: seq<TestResult>, lo: nat, hi: nat)
    requires lo <= hi <= |results| && NoneSkipped(results, lo, hi)
    requires score == MinPoints(bound, results, lo, hi) && score.Some?
    ensures IsLeast(score.value, bound, results, lo, hi)
  {
    hide MinPoints, IsLeast, NoneSkipped;
    MinPointsIsLeast(bound, results, lo, hi);
  }

  lemma MinScoreIsMinPoints(p: Problem, o: Oracle, i: nat)
    requires Partitions(p) && Covers(o, p) && i < |p.groups| && p.groups[i].scoring == Min
    requires 1 <= p.groups[i].first <= p.groups[i].last <= p.tests && p.groups[i].groupScore.Some?
    ensures JudgeScore(p, o, i) == MinPoints(p.groups[i].groupScore.value, Published(p, o),
                                             p.groups[i].first - 1, p.groups[i].last)
  {
    hide Dead, Own, Partitions, MinPoints, JudgeTests;
  }

  /** The judge's submission has one group result per group, in order, with the group's score; a Complete group earns
      its score exactly when all its tests are OK and nothing otherwise; the points of the submission are the total. */
  lemma GroupResultsAreTheScores(p: Problem, o: Oracle, submitId: nat, i: nat)
    requires WellFormed(p) && Covers(o, p) && !Crashes(p, o) && i < |p.groups|
    ensures 1 <= p.groups[i].first <= p.groups[i].last <= p.tests
    ensures var sub, g := Judge(p, o, submitId), p.groups[i];
            && |sub.groupResults| == |p.groups| && |sub.testResults| == p.tests
            && sub.groupResults[i].name == g.name
            && JudgeScore(p, o, i) == Some(sub.groupResults[i].points)
            && (sub.groupResults[i].passed <==> AllOK(sub.testResults, g.first - 1, g.last))
            && (g.scoring == Complete ==>
                  g.groupScore.Some?
                  && sub.groupResults[i].points == if sub.groupResults[i].passed then g.groupScore.value else 0.0)
            && sub.score == TotalPoints(sub.groupResults, |p.groups|)
  {
    assert Partitions(p) && HasScores(p.groups[i]);
    GroupEndsInside(p, i);
    assert JudgeScore(p, o, i).Some?;
    hide Dead, Own, JudgeTest, WellFormed, Partitions, FinalVerdict, SumPoints, MinPoints, AllOK, Crashes;
    assert JudgeGroups(p, o, |p.groups|)[i] == JudgeGroup(p, o, i);
  }

  // ---------- when a nil score crashes the original ----------

  predicate NilAt(g: Group, r: TestResult) {
    r.points == None && (g.scoring == EachTest || (g.scoring == Min && r.verdict != SK))
  }

  lemma {:induction false} NilScores(g: Group, results: seq<TestResult>, lo: nat, hi: nat)
    requires lo <= hi <= |results|
    ensures g.scoring == EachTest ==>
              (SumPoints(results, lo, hi).None? <==> exists k :: lo <= k < hi && NilAt(g, results[k]))
    ensures g.scoring == Min && g.groupScore.Some? ==>
              (MinPoints(g.groupScore.value, results, lo, hi).None? <==>
               exists k :: lo <= k < hi && NilAt(g, results[k]))
  {
    if lo < hi {
      NilScores(g, results, lo, hi - 1);
    }
  }

  lemma NilGroupScore(g: Group, results: seq<TestResult>)
    requires HasScores(g) && EndsWithin(g, results)
    ensures GroupScore(g, results).None? <==> exists k :: g.first - 1 <= k < g.last && NilAt(g, results[k])
  {
    NilScores(g, results, g.first - 1, g.last);
  }

  /** The oracle's answer for test t is PT without points. */
  predicate NilPoints(p: Problem, o: Oracle, t: nat)
    requires Partitions(p) && Covers(o, p) && IsTest(p, t)
  {
    o.tests[t - 1].verdict == PT && o.tests[t - 1].points == None
  }

  predicate CrashingTest(p: Problem, o: Oracle, t: nat)
    requires Partitions(p) && Covers(o, p) && IsTest(p, t)
  {
    match GroupOf(p, t).scoring
    case EachTest => IsSkipped(p, o, t) || NilPoints(p, o, t)
    case Min => !IsSkipped(p, o, t) && NilPoints(p, o, t)
    case Complete => false
    case UnknownScoring => false
  }

  lemma JudgedNil(p: Problem, o: Oracle, t: nat)
    requires WellFormed(p) && Covers(o, p) && IsTest(p, t)
    ensures NilAt(GroupOf(p, t), JudgeTest(p, o, t)) <==> CrashingTest(p, o, t)
  {
    hide Dead, Partitions, GroupIndex;
    WellFormedPartitions(p);
    assert HasScores(p.groups[GroupIndex(p, t)]);
    OwnIsNeverSkipped(p, o, t);
  }

  lemma GroupCrashes(p: Problem, o: Oracle, i: nat)
    requires WellFormed(p) && Covers(o, p) && i < |p.groups|
    ensures JudgeScore(p, o, i).None? <==>
            exists t: nat :: GroupTest(p, i, t) && CrashingTest(p, o, t)
  {
    var g := p.groups[i];
    GroupEndsInside(p, i);
    var results := JudgeTests(p, o, p.tests);
    GroupScoreIsNil(p, o, i);
    hide *;
    forall t: nat | GroupTest(p, i, t)
      ensures NilAt(g, results[t - 1]) <==> CrashingTest(p, o, t)
    {
      GroupIndexUnique(p, t, i);
      JudgedNil(p, o, t);
    }
    if t: nat :| GroupTest(p, i, t) && NilAt(g, results[t - 1]) {
      assert CrashingTest(p, o, t);
    }
    if t: nat :| GroupTest(p, i, t) && CrashingTest(p, o, t) {
      assert NilAt(g, results[t - 1]);
    }
  }

  lemma GroupScoreIsNil(p: Problem, o: Oracle, i: nat)
    requires WellFormed(p) && Covers(o, p) && i < |p.groups| && 1 <= p.groups[i].first <= p.groups[i].last <= p.tests
    ensures JudgeScore(p, o, i).None? <==>
            exists t: nat :: GroupTest(p, i, t) && NilAt(p.groups[i], JudgeTests(p, o, p.tests)[t - 1])
  {
    var g := p.groups[i];
    assert HasScores(g);
    var results := JudgeTests(p, o, p.tests);
    assert JudgeScore(p, o, i) == GroupScore(g, results);
    hide *;
    NilGroupScore(g, results);
    if k :| g.first - 1 <= k < g.last && NilAt(g, results[k]) {
      assert GroupTest(p, i, k + 1);
    }
  }

  predicate GroupTest(p: Problem, i: nat, t: nat)
    requires Partitions(p) && i < |p.groups|
  {
    p.groups[i].first <= t <= p.groups[i].last && IsTest(p, t)
  }

  /** The judge, and so every exhausted run, crashes exactly when some EachTest test is skipped, or some judged
      EachTest or Min test answers PT without points. */
  lemma CrashesExactly(p: Problem, o: Oracle)
    requires WellFormed(p) && Covers(o, p)
    ensures Crashes(p, o) <==> exists t: nat :: IsTest(p, t) && CrashingTest(p, o, t)
  {
    hide WellFormed, Dead, CrashingTest, JudgeScore;
    WellFormedPartitions(p);
    if Crashes(p, o) {
      var i :| 0 <= i < |p.groups| && JudgeScore(p, o, i).None?;
      GroupCrashes(p, o, i);
    }
    if t: nat :| IsTest(p, t) && CrashingTest(p, o, t) {
      var i := GroupIndex(p, t);
      GroupCrashes(p, o, i);
      assert GroupTest(p, i, t);
    }
  }

  /** What the checker of the invoker guarantees: PT comes with points. */
  predicate CarriesPoints(o: Oracle) {
    forall i :: 0 <= i < |o.tests| ==> o.tests[i].verdict == PT ==> o.tests[i].points.Some?
  }

  predicate NoEachTest(p: Problem) {
    forall i :: 0 <= i < |p.groups| ==> p.groups[i].scoring != EachTest
  }

  predicate EachTestRequiresNothing(p: Problem) {
    forall i :: 0 <= i < |p.groups| && p.groups[i].scoring == EachTest ==> p.groups[i].required == []
  }

  /** Every test answers WA. */
  function AllWrong(p: Problem, compile: Verdict): Oracle {
    Oracle(JobResult(compile, None, "", None), seq(p.tests, _ => JobResult(WA, None, "", None)))
  }

  /** Problems without EachTest groups, and only they, are safe whatever the compiler and the tests answer. */
  lemma SafeExactlyWithoutEachTest(p: Problem)
    requires WellFormed(p)
    ensures NoEachTest(p) <==> forall o :: Covers(o, p) && CarriesPoints(o) ==> !Crashes(p, o)
  {
    hide WellFormed, Dead, Crashes, Partitions, NoEachTest, CarriesPoints;
    WellFormedPartitions(p);
    if NoEachTest(p) {
      forall o | Covers(o, p) && CarriesPoints(o)
        ensures !Crashes(p, o)
      {
        NoEachTestNeverCrashes(p, o);
      }
    } else {
      EachTestCanCrash(p);
    }
  }

  lemma NoEachTestNeverCrashes(p: Problem, o: Oracle)
    requires WellFormed(p) && Covers(o, p) && NoEachTest(p) && CarriesPoints(o)
    ensures !Crashes(p, o)
  {
    hide WellFormed, Dead, Crashes, Partitions;
    WellFormedPartitions(p);
    CrashesExactly(p, o);
  }

  lemma EachTestCanCrash(p: Problem)
    requires WellFormed(p) && !NoEachTest(p)
    ensures exists o :: Covers(o, p) && CarriesPoints(o) && Crashes(p, o)
  {
    hide WellFormed, Dead, Crashes, Partitions;
    WellFormedPartitions(p);
    var i :| 0 <= i < |p.groups| && p.groups[i].scoring == EachTest;
    var o := AllWrong(p, CE);
    GroupEndsInside(p, i);
    FailedCompilationKillsAll(p, o, i);
    DeadGrows(p, o, 0, p.groups[i].first - 1);
    DeadEachTestGroupCrashes(p, o, i);
  }

  lemma DeadEachTestGroupCrashes(p: Problem, o: Oracle, i: nat)
    requires WellFormed(p) && Covers(o, p) && i < |p.groups| && p.groups[i].scoring == EachTest
    requires 1 <= p.groups[i].first <= p.tests && p.groups[i].name in Dead(p, o, p.groups[i].first - 1)
    ensures Crashes(p, o)
  {
    assert Partitions(p);
    var t := p.groups[i].first;
    GroupEndsInside(p, i);
    GroupIndexUnique(p, t, i);
    hide WellFormed, Partitions, Dead, Crashes, GroupIndex, CrashingTest, IsSkipped;
    SkippedEachTestCrashes(p, o, t);
    CrashesExactly(p, o);
  }

  lemma SkippedEachTestCrashes(p: Problem, o: Oracle, t: nat)
    requires Partitions(p) && Covers(o, p) && IsTest(p, t) && GroupOf(p, t).scoring == EachTest
    requires GroupOf(p, t).name in Dead(p, o, t - 1)
    ensures CrashingTest(p, o, t)
  {
    hide Partitions, Dead, GroupIndex;
  }

  lemma FailedCompilationKillsAll(p: Problem, o: Oracle, i: nat)
    requires Partitions(p) && Covers(o, p) && !CompilesOK(o) && i < |p.groups|
    ensures p.groups[i].name in Dead(p, o, 0)
  {
  }

  /** An EachTest group that requires nothing never fails and is never reached by another's failure. */
  lemma IndependentGroupStaysAlive(p: Problem, o: Oracle, i: nat, k: nat)
    requires WellFormed(p) && Covers(o, p) && CompilesOK(o) && i < |p.groups| && k <= p.tests
    requires p.groups[i].scoring == EachTest && p.groups[i].required == []
    ensures p.groups[i].name !in Dead(p, o, k)
  {
    hide Fails, WellFormed, Partitions, Affects, Dead;
    WellFormedPartitions(p);
    var name := p.groups[i].name;
    DeadExactlyWhenAffected(p, o, k, name);
    if HasCulprit(p, o, k, name) {
      var u: nat :| Culprit(p, o, u, k, name);
      EachTestNeverFails(p, o, u);
      UnrelatedGroupIsNotAffected(p, GroupIndex(p, u), i);
    }
  }

  lemma UnrelatedGroupIsNotAffected(p: Problem, j: nat, i: nat)
    requires WellFormed(p) && i < |p.groups| && j < |p.groups| && i != j && p.groups[i].required == []
    ensures !Affects(p, p.groups[j].name, p.groups[i].name)
  {
    hide WellFormed, Propagate, ClosedUnder;
    var others := Names(p) - {p.groups[i].name};
    DistinctGroupsHaveDistinctNames(p, i, j);
    OthersAreClosed(p, i);
    PropagateIsLeastClosedSuperset(p, {p.groups[j].name});
    assert {p.groups[j].name} <= others;
  }

  lemma EachTestNeverFails(p: Problem, o: Oracle, t: nat)
    requires Partitions(p) && Covers(o, p) && IsTest(p, t)
    ensures GroupOf(p, t).scoring == EachTest ==> !Fails(p, o, t)
  {
  }

  lemma DistinctGroupsHaveDistinctNames(p: Problem, i: nat, j: nat)
    requires WellFormed(p) && i < |p.groups| && j < |p.groups| && i != j
    ensures p.groups[i].name != p.groups[j].name
  {
    assert i < j ==> NamesDiffer(p, i, j);
    assert j < i ==> NamesDiffer(p, j, i);
  }

  lemma OthersAreClosed(p: Problem, i: nat)
    requires WellFormed(p) && i < |p.groups| && p.groups[i].required == []
    ensures ClosedUnder(p, Names(p) - {p.groups[i].name})
  {
    forall j | 0 <= j < |p.groups| && RequiresOneOf(p.groups[j], Names(p) - {p.groups[i].name})
      ensures p.groups[j].name in Names(p) - {p.groups[i].name}
    {
      if j != i {
        DistinctGroupsHaveDistinctNames(p, i, j);
      }
    }
  }

  lemma WrongRequirementSkips(p: Problem, o: Oracle, i: nat, r: string)
    requires WellFormed(p) && o == AllWrong(p, CD) && i < |p.groups| && r in p.groups[i].required
    requires 1 <= p.groups[i].first <= p.tests
    ensures p.groups[i].name in Dead(p, o, p.groups[i].first - 1)
  {
    assert RequiresEarlier(p, i, r);
    var j :| 0 <= j < i && p.groups[j].name == r && p.groups[j].scoring == Complete;
    GroupEndsInside(p, j);
    FirstsIncrease(p, j, i);
    GroupIndexUnique(p, p.groups[j].first, j);
    var k := p.groups[i].first - 1;
    assert Fails(p, o, p.groups[j].first);
    hide Fails, WellFormed;
    FailingTestKillsItsGroup(p, o, p.groups[j].first, k);
    DeadIsClosed(p, o, k);
    assert RequiresOneOf(p.groups[i], Dead(p, o, k));
  }

  /** When the program compiles, the safe problems are exactly those whose EachTest groups require no other group. */
  lemma SafeOnceCompiledExactly(p: Problem)
    requires WellFormed(p)
    ensures EachTestRequiresNothing(p) <==>
            forall o :: Covers(o, p) && CarriesPoints(o) && CompilesOK(o) ==> !Crashes(p, o)
  {
    hide WellFormed, Dead, Crashes, Partitions, EachTestRequiresNothing, CarriesPoints;
    WellFormedPartitions(p);
    if EachTestRequiresNothing(p) {
      forall o | Covers(o, p) && CarriesPoints(o) && CompilesOK(o)
        ensures !Crashes(p, o)
      {
        IndependentEachTestNeverCrashes(p, o);
      }
    } else {
      DependentEachTestCanCrash(p);
    }
  }

  lemma IndependentEachTestNeverCrashes(p: Problem, o: Oracle)
    requires WellFormed(p) && EachTestRequiresNothing(p) && Covers(o, p) && CarriesPoints(o) && CompilesOK(o)
    ensures !Crashes(p, o)
  {
    hide WellFormed, Dead, Crashes, Partitions;
    WellFormedPartitions(p);
    CrashesExactly(p, o);
    forall t: nat | IsTest(p, t)
      ensures !CrashingTest(p, o, t)
    {
      if GroupOf(p, t).scoring == EachTest {
        IndependentGroupStaysAlive(p, o, GroupIndex(p, t), t - 1);
      }
    }
  }

  lemma DependentEachTestCanCrash(p: Problem)
    requires WellFormed(p) && !EachTestRequiresNothing(p)
    ensures exists o :: Covers(o, p) && CarriesPoints(o) && CompilesOK(o) && Crashes(p, o)
  {
    hide WellFormed, Dead, Crashes, Partitions;
    WellFormedPartitions(p);
    var i :| 0 <= i < |p.groups| && p.groups[i].scoring == EachTest && p.groups[i].required != [];
    GroupEndsInside(p, i);
    WrongRequirementSkips(p, AllWrong(p, CD), i, p.groups[i].required[0]);
    DeadEachTestGroupCrashes(p, AllWrong(p, CD), i);
  }
}
