/** The IOI job generator: an object updated in place, proved to do what the state machine says. */
module IoiGenerator {
  import opened Models
  import opened IoiJudge
  import opened IoiMachine
  import Rounding

  datatype InternalGroupInfo = InternalGroupInfo(shouldGiveNewJobs: bool, shouldMarkFinalTestsSkipped: bool)

  function Closed(info: map<string, InternalGroupInfo>): set<string> {
    set n | n in info && !info[n].shouldGiveNewJobs
  }

  function Skipped(info: map<string, InternalGroupInfo>): set<string> {
    set n | n in info && info[n].shouldMarkFinalTestsSkipped
  }

  ghost predicate GroupKnown(p: Problem, infos: map<string, Group>, i: nat)
    requires i < |p.groups|
  {
    p.groups[i].name in infos && infos[p.groups[i].name] == p.groups[i]
  }

  ghost predicate TestKnown(p: Problem, names: map<nat, string>, t: nat)
    requires Partitions(p)
  {
    (t in names <==> IsTest(p, t)) && (IsTest(p, t) ==> names[t] == GroupOf(p, t).name)
  }

  /** The lookup tables agree with the problem. */
  ghost predicate TablesOK(p: Problem, infos: map<string, Group>, names: map<nat, string>)
    requires Partitions(p)
  {
    && (forall i: nat {:trigger GroupKnown(p, infos, i)} :: i < |p.groups| ==> GroupKnown(p, infos, i))
    && (forall t: nat {:trigger TestKnown(p, names, t)} :: TestKnown(p, names, t))
  }

  // ---------- the checks of prepareGenerator ----------

  function LastOf(p: Problem, k: nat): nat
    requires k <= |p.groups|
  {
    if k == 0 then 0 else p.groups[k - 1].last
  }

  /** The first k groups are non-empty consecutive ranges starting at test 1. */
  ghost predicate PrefixPartition(p: Problem, k: nat)
    requires k <= |p.groups|
  {
    forall i: nat {:trigger Fits(p, i)} :: i < k ==> Fits(p, i)
  }

  ghost predicate Fits(p: Problem, i: nat)
    requires i < |p.groups|
  {
    p.groups[i].first == LastOf(p, i) + 1 && p.groups[i].first <= p.groups[i].last
  }

  lemma PartitionsFit(p: Problem)
    ensures Partitions(p) <==> PrefixPartition(p, |p.groups|) && p.tests == LastOf(p, |p.groups|)
  {
    if Partitions(p) {
      forall i: nat | i < |p.groups|
        ensures Fits(p, i)
      {
        assert NonEmpty(p, i) && (i > 0 ==> Adjacent(p, i - 1));
      }
    }
    if PrefixPartition(p, |p.groups|) {
      forall i: nat | i < |p.groups|
        ensures NonEmpty(p, i) && Adjacent(p, i)
      {
        assert Fits(p, i) && (i + 1 < |p.groups| ==> Fits(p, i + 1));
      }
      assert |p.groups| > 0 ==> Fits(p, 0);
    }
  }

  lemma {:induction false} EarlierGroupsEndBefore(p: Problem, k: nat, i: nat)
    requires k <= i < |p.groups| && PrefixPartition(p, i + 1)
    ensures k < i ==> p.groups[k].first <= p.groups[k].last < p.groups[i].first
    decreases i
  {
    assert Fits(p, i);
    if k < i {
      assert Fits(p, i - 1);
      if k < i - 1 {
        EarlierGroupsEndBefore(p, k, i - 1);
      }
    }
  }

  /** What building the tables leaves behind for the first k groups, well formed or not. */
  ghost predicate NamesTable(p: Problem, names: map<nat, string>, k: nat)
    requires k <= |p.groups|
  {
    && (forall t: nat {:trigger t in names} :: t in names <==> 1 <= t <= LastOf(p, k))
    && (forall i: nat, t: nat {:trigger names[t], Fits(p, i)} ::
          i < k && p.groups[i].first <= t <= p.groups[i].last ==> t in names && names[t] == p.groups[i].name)
  }

  lemma OneMoreNamedGroup(p: Problem, names: map<nat, string>, more: map<nat, string>, i: nat)
    requires i < |p.groups| && PrefixPartition(p, i + 1) && NamesTable(p, names, i)
    requires forall u: nat {:trigger u in more} ::
               u in more <==> u in names || p.groups[i].first <= u <= p.groups[i].last
    requires forall u: nat {:trigger more[u]} :: u in more ==>
               more[u] == if p.groups[i].first <= u <= p.groups[i].last then p.groups[i].name else names[u]
    ensures NamesTable(p, more, i + 1)
  {
    assert Fits(p, i);
    forall k: nat, t: nat | k < i + 1 && p.groups[k].first <= t <= p.groups[k].last
      ensures t in more && more[t] == p.groups[k].name
    {
      EarlierGroupsEndBefore(p, k, i);
      assert Fits(p, k);
      assert k < i ==> names[t] == p.groups[k].name;
    }
  }

  lemma OneMoreFreshGroup(p: Problem, i: nat)
    requires i < |p.groups| && PrefixPartition(p, i + 1)
    ensures var (first, last) := (p.groups[i].first, p.groups[i].last);
            && first <= last
            && FreshSlots(LastOf(p, i)) + seq(last + 1 - first, j requires 0 <= j => FreshSlot(first + j))
               == FreshSlots(LastOf(p, i + 1))
  {
    assert Fits(p, i);
  }

  ghost predicate InfosTable(p: Problem, infos: map<string, Group>, k: nat)
    requires k <= |p.groups|
  {
    && (forall i :: 0 <= i < k ==> p.groups[i].name in infos)
    && (forall n :: n in infos ==> exists j :: 0 <= j < k && p.groups[j].name == n && infos[n] == p.groups[j])
  }

  ghost predicate EarlierComplete(p: Problem, infos: map<string, Group>, i: nat, r: string) {
    (exists j :: 0 <= j < i && j < |p.groups| && p.groups[j].name == r) && r in infos && infos[r].scoring == Complete
  }

  ghost predicate AllScored(p: Problem, k: nat)
    requires k <= |p.groups|
  {
    forall i: nat {:trigger HasScores(p.groups[i])} :: i < k ==> HasScores(p.groups[i])
  }

  lemma OneMoreScored(p: Problem, i: nat)
    requires i < |p.groups| && AllScored(p, i) && HasScores(p.groups[i])
    ensures AllScored(p, i + 1)
  {
  }

  lemma EmptyGroupIsIllFormed(p: Problem, i: nat)
    requires i < |p.groups| && p.groups[i].first > p.groups[i].last
    ensures !WellFormed(p)
  {
    assert !NonEmpty(p, i);
  }

  lemma EmptyTables(p: Problem)
    ensures InfosTable(p, map[], 0) && NamesTable(p, map[], 0) && AllScored(p, 0)
    ensures Closed(map[]) == {} && Skipped(map[]) == {} && FreshSlots(LastOf(p, 0)) == []
  {
  }

  lemma NamesAreUnique(p: Problem, i: nat, j: nat)
    requires WellFormed(p) && i < |p.groups| && j < |p.groups| && p.groups[i].name == p.groups[j].name
    ensures i == j
  {
    assert i < j ==> NamesDiffer(p, i, j);
    assert j < i ==> NamesDiffer(p, j, i);
  }

  lemma WellFormedDependency(p: Problem, infos: map<string, Group>, i: nat, r: string)
    requires WellFormed(p) && InfosTable(p, infos, |p.groups|) && i < |p.groups| && r in p.groups[i].required
    ensures EarlierComplete(p, infos, i, r)
  {
    assert RequiresEarlier(p, i, r);
    var j :| 0 <= j < i && p.groups[j].name == r && p.groups[j].scoring == Complete;
    var k :| 0 <= k < |p.groups| && p.groups[k].name == r && infos[r] == p.groups[k];
    NamesAreUnique(p, j, k);
  }

  lemma OneMoreOpen(infos: map<string, InternalGroupInfo>, name: string)
    requires Closed(infos) == {} && Skipped(infos) == {}
    ensures Closed(infos[name := InternalGroupInfo(true, false)]) == {}
    ensures Skipped(infos[name := InternalGroupInfo(true, false)]) == {}
  {
    var r := infos[name := InternalGroupInfo(true, false)];
    forall n | n in r
      ensures n !in Closed(r) && n !in Skipped(r)
    {
      assert n != name ==> n !in Closed(infos) && n !in Skipped(infos);
    }
  }

  lemma OneMoreName(p: Problem, i: nat)
    requires i < |p.groups|
    ensures NamesBefore(p, i + 1) == NamesBefore(p, i) + {p.groups[i].name}
  {
  }

  function NamesBefore(p: Problem, k: nat): set<string>
    requires k <= |p.groups|
  {
    set j | 0 <= j < k :: p.groups[j].name
  }

  ghost predicate DependenciesMet(p: Problem, infos: map<string, Group>, k: nat)
    requires k <= |p.groups|
  {
    forall i, r :: 0 <= i < k && r in p.groups[i].required ==> EarlierComplete(p, infos, i, r)
  }

  lemma WellFormedNeeds(p: Problem)
    ensures WellFormed(p) ==>
              && Partitions(p)
              && forall a: nat, b: nat {:trigger NamesDiffer(p, a, b)} :: a < b < |p.groups| ==> NamesDiffer(p, a, b)
  {
  }

  lemma NothingRequiredYet(p: Problem, infos: map<string, Group>)
    ensures DependenciesMet(p, infos, 0)
  {
  }

  lemma OneMoreMet(p: Problem, infos: map<string, Group>, i: nat)
    requires i < |p.groups| && DependenciesMet(p, infos, i)
    requires forall r :: r in p.groups[i].required ==> EarlierComplete(p, infos, i, r)
    ensures DependenciesMet(p, infos, i + 1)
  {
  }

  lemma OneMoreInfo(p: Problem, infos: map<string, Group>, i: nat)
    requires i < |p.groups| && InfosTable(p, infos, i)
    ensures InfosTable(p, infos[p.groups[i].name := p.groups[i]], i + 1)
  {
  }

  lemma UnsortedIsNoPartition(p: Problem, i: nat)
    requires 0 < i < |p.groups| && p.groups[i].first < p.groups[i - 1].first
    ensures !Partitions(p)
  {
    PartitionsFit(p);
    if Partitions(p) {
      EarlierGroupsEndBefore(p, i - 1, i);
    }
  }

  lemma UnmetIsIllFormed(p: Problem, infos: map<string, Group>, i: nat)
    requires InfosTable(p, infos, |p.groups|) && i < |p.groups|
    requires exists r :: r in p.groups[i].required && !EarlierComplete(p, infos, i, r)
    ensures !WellFormed(p)
  {
    var r :| r in p.groups[i].required && !EarlierComplete(p, infos, i, r);
    if WellFormed(p) {
      WellFormedDependency(p, infos, i, r);
    }
  }

  lemma MetIsWellFormed(p: Problem, infos: map<string, Group>)
    requires AllScored(p, |p.groups|)
    requires Partitions(p) && InfosTable(p, infos, |p.groups|) && DependenciesMet(p, infos, |p.groups|)
    requires forall a: nat, b: nat {:trigger NamesDiffer(p, a, b)} :: a < b < |p.groups| ==> NamesDiffer(p, a, b)
    ensures WellFormed(p)
  {
    forall i: nat, r | i < |p.groups| && r in p.groups[i].required
      ensures RequiresEarlier(p, i, r)
    {
      assert EarlierComplete(p, infos, i, r);
      var j :| 0 <= j < i && p.groups[j].name == r;
      var k :| 0 <= k < |p.groups| && p.groups[k].name == r && infos[r] == p.groups[k];
      assert NamesDiffer(p, j, k) && NamesDiffer(p, k, j);
    }
  }

  lemma InitIsBounded(p: Problem, submitId: nat)
    requires WellFormed(p)
    ensures Bounded(p, Init(p, submitId))
  {
    if |p.groups| > 0 {
      GroupEndsInside(p, 0);
    }
  }

  lemma TablesFollow(p: Problem, infos: map<string, Group>, names: map<nat, string>)
    requires WellFormed(p) && InfosTable(p, infos, |p.groups|) && NamesTable(p, names, |p.groups|)
    ensures TablesOK(p, infos, names)
  {
    PartitionsFit(p);
    forall i: nat | i < |p.groups|
      ensures GroupKnown(p, infos, i)
    {
      var j :| 0 <= j < |p.groups| && p.groups[j].name == p.groups[i].name && infos[p.groups[i].name] == p.groups[j];
      NamesAreUnique(p, i, j);
    }
    forall t: nat
      ensures TestKnown(p, names, t)
    {
      if IsTest(p, t) {
        assert Fits(p, GroupIndex(p, t)) && t in names && names[t] == p.groups[GroupIndex(p, t)].name;
      }
    }
  }

  class IOIGenerator {
    const problem: Problem
    var submission: Submission
    var state: Phase
    var givenJobs: map<Id, Job>
    var groupNameToGroupInfo: map<string, Group>
    var groupNameToInternalInfo: map<string, InternalGroupInfo>
    var testNumberToGroupName: map<nat, string>
    var internalTestResults: seq<Slot>
    var firstNotCompletedTest: nat
    var firstNotCompletedGroup: nat
    var firstNotGivenTest: nat
    var crashed: bool

    function View(): State
      reads this
    {
      State(submission, state, givenJobs, Closed(groupNameToInternalInfo), Skipped(groupNameToInternalInfo),
            internalTestResults, firstNotCompletedTest, firstNotCompletedGroup, firstNotGivenTest, crashed)
    }

    ghost predicate Tables()
      reads this
    {
      && WellFormed(problem)
      && TablesOK(problem, groupNameToGroupInfo, testNumberToGroupName)
      && groupNameToInternalInfo.Keys == Names(problem)
    }

    ghost predicate Valid()
      reads this
    {
      Tables() && Bounded(problem, View())
    }

    constructor (problem: Problem, submitId: nat)
      ensures this.problem == problem && submission == FreshSubmission(submitId) && state == NotStarted
      ensures givenJobs == map[] && internalTestResults == [] && !crashed
      ensures groupNameToGroupInfo == map[] && groupNameToInternalInfo == map[] && testNumberToGroupName == map[]
      ensures firstNotCompletedTest == firstNotCompletedGroup == firstNotGivenTest == 1
    {
      this.problem := problem;
      submission := FreshSubmission(submitId);
      state := NotStarted;
      givenJobs := map[];
      groupNameToGroupInfo := map[];
      groupNameToInternalInfo := map[];
      testNumberToGroupName := map[];
      internalTestResults := [];
      firstNotCompletedTest, firstNotCompletedGroup, firstNotGivenTest := 1, 1, 1;
      crashed := false;
    }

    // ---------- prepareGenerator ----------

    /** The tests of group i, appended one by one. */
    method AddTests(i: nat)
      requires i < |problem.groups| && problem.groups[i].first <= problem.groups[i].last
      modifies `testNumberToGroupName, `internalTestResults
      ensures PrefixPartition(problem, i + 1)
              && old(NamesTable(problem, testNumberToGroupName, i))
              && old(internalTestResults == FreshSlots(LastOf(problem, i)))
              ==> NamesTable(problem, testNumberToGroupName, i + 1)
                  && internalTestResults == FreshSlots(LastOf(problem, i + 1))
    {
      hide NamesTable, PrefixPartition, FreshSlots, FreshSlot;
      var group := problem.groups[i];
      ghost var names, slots := testNumberToGroupName, internalTestResults;
      for t := group.first to group.last + 1
        invariant forall u: nat {:trigger u in testNumberToGroupName} ::
                    u in testNumberToGroupName <==> u in names || group.first <= u < t
        invariant forall u: nat {:trigger testNumberToGroupName[u]} :: u in testNumberToGroupName ==>
                    testNumberToGroupName[u] == if group.first <= u < t then group.name else names[u]
        invariant internalTestResults == slots + seq(t - group.first, j requires 0 <= j => FreshSlot(group.first + j))
      {
        testNumberToGroupName := testNumberToGroupName[t := group.name];
        internalTestResults := internalTestResults + [FreshSlot(t)];
      }
      if PrefixPartition(problem, i + 1) && NamesTable(problem, names, i) && slots == FreshSlots(LastOf(problem, i)) {
        OneMoreNamedGroup(problem, names, testNumberToGroupName, i);
        OneMoreFreshGroup(problem, i);
      }
    }

    static method CheckScores(group: Group) returns (ok: bool)
      ensures ok <==> HasScores(group)
    {
      match group.scoring
      case Complete => return group.groupScore != None;
      case Min => return group.groupScore != None;
      case EachTest => return group.testScore != None;
      case UnknownScoring => return false;
    }

    method RegisterGroup(i: nat)
      requires i < |problem.groups| && InfosTable(problem, groupNameToGroupInfo, i)
      requires groupNameToInternalInfo.Keys == NamesBefore(problem, i)
      requires Closed(groupNameToInternalInfo) == {} && Skipped(groupNameToInternalInfo) == {}
      modifies `groupNameToGroupInfo, `groupNameToInternalInfo
      ensures InfosTable(problem, groupNameToGroupInfo, i + 1)
      ensures groupNameToInternalInfo.Keys == NamesBefore(problem, i + 1)
      ensures Closed(groupNameToInternalInfo) == {} && Skipped(groupNameToInternalInfo) == {}
    {
      hide InfosTable, Closed, Skipped, NamesBefore;
      var group := problem.groups[i];
      OneMoreInfo(problem, groupNameToGroupInfo, i);
      OneMoreOpen(groupNameToInternalInfo, group.name);
      OneMoreName(problem, i);
      groupNameToGroupInfo := groupNameToGroupInfo[group.name := group];
      groupNameToInternalInfo := groupNameToInternalInfo[group.name := InternalGroupInfo(true, false)];
    }

    method BuildTables() returns (ok: bool)
      requires groupNameToGroupInfo == map[] && groupNameToInternalInfo == map[] && testNumberToGroupName == map[]
      requires internalTestResults == []
      modifies `groupNameToGroupInfo, `groupNameToInternalInfo, `testNumberToGroupName, `internalTestResults
      ensures !ok ==> !WellFormed(problem)
      ensures ok ==>
                && AllScored(problem, |problem.groups|)
                && InfosTable(problem, groupNameToGroupInfo, |problem.groups|)
                && groupNameToInternalInfo.Keys == Names(problem)
                && Closed(groupNameToInternalInfo) == {} && Skipped(groupNameToInternalInfo) == {}
                && (PrefixPartition(problem, |problem.groups|) ==>
                      && NamesTable(problem, testNumberToGroupName, |problem.groups|)
                      && internalTestResults == FreshSlots(LastOf(problem, |problem.groups|)))
    {
      hide InfosTable, NamesTable, Closed, Skipped, FreshSlots, LastOf, HasScores, Fits, AllScored, Partitions;
      EmptyTables(problem);
      for i := 0 to |problem.groups|
        invariant AllScored(problem, i)
        invariant InfosTable(problem, groupNameToGroupInfo, i)
        invariant groupNameToInternalInfo.Keys == NamesBefore(problem, i)
        invariant Closed(groupNameToInternalInfo) == {} && Skipped(groupNameToInternalInfo) == {}
        invariant PrefixPartition(problem, i) ==>
                    && NamesTable(problem, testNumberToGroupName, i)
                    && internalTestResults == FreshSlots(LastOf(problem, i))
      {
        var group := problem.groups[i];
        var scored := CheckScores(group);
        if !scored {
          return false;
        }
        OneMoreScored(problem, i);
        if group.first > group.last {
          EmptyGroupIsIllFormed(problem, i);
          return false;
        }
        AddTests(i);
        RegisterGroup(i);
      }
      return true;
    }

    method GroupsAreSorted() returns (sorted: bool)
      ensures !sorted ==> !Partitions(problem)
    {
      var i := 1;
      while i < |problem.groups|
        invariant 1 <= i
      {
        if problem.groups[i].first < problem.groups[i - 1].first {
          UnsortedIsNoPartition(problem, i);
          return false;
        }
        i := i + 1;
      }
      return true;
    }

    /** Each required group must have been met already and be scored as a whole. */
    method CheckRequired(i: nat, encounteredGroups: set<string>) returns (ok: bool)
      requires i < |problem.groups| && encounteredGroups == NamesBefore(problem, i)
      requires InfosTable(problem, groupNameToGroupInfo, |problem.groups|)
      ensures ok <==>
              forall r :: r in problem.groups[i].required ==> EarlierComplete(problem, groupNameToGroupInfo, i, r)
    {
      var required := problem.groups[i].required;
      for j := 0 to |required|
        invariant forall k :: 0 <= k < j ==> EarlierComplete(problem, groupNameToGroupInfo, i, required[k])
      {
        if required[j] !in encounteredGroups {
          assert !EarlierComplete(problem, groupNameToGroupInfo, i, required[j]);
          return false;
        }
        var e :| 0 <= e < i && problem.groups[e].name == required[j];
        if groupNameToGroupInfo[required[j]].scoring != Complete {
          assert !EarlierComplete(problem, groupNameToGroupInfo, i, required[j]);
          return false;
        }
      }
      return true;
    }

    method CheckIfGroupsDependenciesOK() returns (ok: bool)
      requires InfosTable(problem, groupNameToGroupInfo, |problem.groups|)
      requires AllScored(problem, |problem.groups|)
      ensures ok <==> WellFormed(problem)
    {
      hide WellFormed, Partitions, InfosTable, DependenciesMet, AllScored;
      WellFormedNeeds(problem);
      PartitionsFit(problem);
      NothingRequiredYet(problem, groupNameToGroupInfo);
      var sorted := GroupsAreSorted();
      if !sorted {
        return false;
      }
      var lastTest := 0;
      var encounteredGroups := {};
      for i := 0 to |problem.groups|
        invariant PrefixPartition(problem, i) && lastTest == LastOf(problem, i)
        invariant encounteredGroups == NamesBefore(problem, i)
        invariant forall a: nat, b: nat {:trigger NamesDiffer(problem, a, b)} ::
                  a < b < i ==> NamesDiffer(problem, a, b)
        invariant DependenciesMet(problem, groupNameToGroupInfo, i)
      {
        var group := problem.groups[i];
        if group.first != lastTest + 1 || group.first > group.last {
          assert !Fits(problem, i);
          return false;
        }
        lastTest := group.last;
        if group.name in encounteredGroups {
          var j :| 0 <= j < i && problem.groups[j].name == group.name;
          assert !NamesDiffer(problem, j, i);
          return false;
        }
        var met := CheckRequired(i, encounteredGroups);
        if !met {
          UnmetIsIllFormed(problem, groupNameToGroupInfo, i);
          return false;
        }
        OneMoreMet(problem, groupNameToGroupInfo, i);
        encounteredGroups := encounteredGroups + {group.name};
      }
      if lastTest != problem.tests {
        return false;
      }
      MetIsWellFormed(problem, groupNameToGroupInfo);
      return true;
    }

    /** Fills the tables and accepts exactly the well-formed problems. */
    method PrepareGenerator() returns (ok: bool)
      requires groupNameToGroupInfo == map[] && groupNameToInternalInfo == map[] && testNumberToGroupName == map[]
      requires View() == Init(problem, submission.id).(slots := [])
      modifies `groupNameToGroupInfo, `groupNameToInternalInfo, `testNumberToGroupName, `internalTestResults
      ensures ok <==> WellFormed(problem)
      ensures ok ==> Valid() && View() == Init(problem, submission.id)
    {
      var built := BuildTables();
      if !built {
        return false;
      }
      ok := CheckIfGroupsDependenciesOK();
      if ok {
        PartitionsFit(problem);
        TablesFollow(problem, groupNameToGroupInfo, testNumberToGroupName);
        InitIsBounded(problem, submission.id);
      }
    }

    // ---------- NextJob ----------

    lemma GroupTables(t: nat)
      requires Tables() && IsTest(problem, t)
      ensures t in testNumberToGroupName && testNumberToGroupName[t] == GroupOf(problem, t).name
      ensures testNumberToGroupName[t] in groupNameToGroupInfo
      ensures testNumberToGroupName[t] in groupNameToInternalInfo
      ensures groupNameToGroupInfo[testNumberToGroupName[t]] == GroupOf(problem, t)
    {
      assert GroupKnown(problem, groupNameToGroupInfo, GroupIndex(problem, t));
      assert TestKnown(problem, testNumberToGroupName, t);
    }

    method DoesGroupDependOnJob(groupName: string, job: Job) returns (depends: bool)
      requires Tables() && groupName in groupNameToGroupInfo && groupNameToGroupInfo[groupName].name == groupName
      ensures depends == DependsOnJob(problem, groupNameToGroupInfo[groupName], job)
    {
      assert TestKnown(problem, testNumberToGroupName, job.test);
      var groupInfo := groupNameToGroupInfo[groupName];
      var jobGroupName := if job.test in testNumberToGroupName then testNumberToGroupName[job.test] else "";
      if jobGroupName == groupName && groupInfo.scoring != EachTest {
        return true;
      }
      return jobGroupName in groupInfo.required;
    }

    /** The loop of NextJob over the given jobs. */
    method RequiredJobs(t: nat) returns (required: set<Id>)
      requires Tables() && IsTest(problem, t)
      ensures required == set j | j in givenJobs && DependsOnJob(problem, GroupOf(problem, t), givenJobs[j]) :: j
    {
      GroupTables(t);
      required := {};
      var rest := givenJobs.Keys;
      while rest != {}
        invariant rest <= givenJobs.Keys
        invariant required ==
                  set j | j in givenJobs && j !in rest && DependsOnJob(problem, GroupOf(problem, t), givenJobs[j]) :: j
      {
        var givenJobId :| givenJobId in rest;
        var depends := DoesGroupDependOnJob(testNumberToGroupName[t], givenJobs[givenJobId]);
        if depends {
          required := required + {givenJobId};
        }
        rest := rest - {givenJobId};
      }
    }

    /** The part of NextJob that hands out the test under the cursor. */
    method GiveTest(id: Id) returns (job: Job)
      requires Valid() && firstNotGivenTest <= problem.tests
      modifies `internalTestResults, `givenJobs, `firstNotGivenTest
      ensures View() == Give(problem, old(View()), id)
      ensures job == TestJobFor(problem, old(View()), id)
    {
      var t := firstNotGivenTest;
      ghost var start := View();
      var required := RequiredJobs(t);
      job := Job(id, submission.id, TestJob, t, required);
      assert job == TestJobFor(problem, start, id);
      internalTestResults := internalTestResults[t - 1 := internalTestResults[t - 1].(state := Running)];
      givenJobs := givenJobs[id := job];
      firstNotGivenTest := t + 1;
    }

    method SkipTest()
      requires 1 <= firstNotGivenTest <= |internalTestResults|
      modifies `internalTestResults, `firstNotGivenTest
      ensures View() == SkipOne(old(View()))
      ensures firstNotGivenTest == old(firstNotGivenTest) + 1 && |internalTestResults| == old(|internalTestResults|)
    {
      var t := firstNotGivenTest;
      internalTestResults := internalTestResults[t - 1 := internalTestResults[t - 1].(state := Finished)];
      firstNotGivenTest := t + 1;
    }

    /** The loop of NextJob that passes over the tests of closed groups. */
    method SkipClosedTests()
      requires Valid()
      modifies `internalTestResults, `firstNotGivenTest
      ensures View() == Prune(problem, old(View()))
    {
      hide WellFormed, HasCause, Partitions, Bounded, SkipOne;
      ghost var start := View();
      assert Sized(problem, start) by { BoundedIsSized(problem, start); }
      while firstNotGivenTest <= problem.tests
        invariant Tables() && Sized(problem, View())
        invariant Prune(problem, View()) == Prune(problem, start)
        decreases problem.tests + 1 - firstNotGivenTest
      {
        var t := firstNotGivenTest;
        GroupTables(t);
        if groupNameToInternalInfo[testNumberToGroupName[t]].shouldGiveNewJobs {
          break;
        }
        SkipTest();
      }
    }

    method NextJob(id: Id) returns (job: Option<Job>)
      requires Valid()
      modifies this
      ensures Valid()
      ensures (View(), job) == Ask(problem, old(View()), id)
    {
      hide WellFormed, HasCause, Partitions, Give, TestJobFor, Prune;
      if state == Compiled && firstNotGivenTest > problem.tests {
        NothingToPrune(problem, View());
        return None;
      }
      if state == Started {
        return None;
      }
      if state == NotStarted {
        var compile := Job(id, submission.id, CompileJob, 0, {});
        state := Started;
        givenJobs := givenJobs[id := compile];
        return Some(compile);
      }
      ghost var start := View();
      SkipClosedTests();
      BoundedIgnoresSlots(problem, start, View());
      if firstNotGivenTest > problem.tests {
        return None;
      }
      var test := GiveTest(id);
      assert (View(), Some(test)) == Ask(problem, old(View()), id);
      return Some(test);
    }

    // ---------- the flags of the groups ----------

    lemma RequiredIsKnown(i: nat, r: string)
      requires Tables() && i < |problem.groups| && r in problem.groups[i].required
      ensures r in groupNameToInternalInfo && problem.groups[i].name in groupNameToInternalInfo
    {
      assert RequiresEarlier(problem, i, r);
      var j :| 0 <= j < i && problem.groups[j].name == r && problem.groups[j].scoring == Complete;
    }

    /** Marks group i skipped if it requires a skipped group. */
    method SkipIfRequiresSkipped(i: nat)
      requires Tables() && i < |problem.groups|
      modifies `groupNameToInternalInfo
      ensures Tables() && Closed(groupNameToInternalInfo) == old(Closed(groupNameToInternalInfo))
      ensures var before := old(Skipped(groupNameToInternalInfo));
              Skipped(groupNameToInternalInfo) ==
              if RequiresOneOf(problem.groups[i], before) then before + {problem.groups[i].name} else before
    {
      var group := problem.groups[i];
      ghost var before := Skipped(groupNameToInternalInfo);
      for j := 0 to |group.required|
        invariant Tables() && Closed(groupNameToInternalInfo) == old(Closed(groupNameToInternalInfo))
        invariant Skipped(groupNameToInternalInfo) ==
                  if exists k :: 0 <= k < j && group.required[k] in before then before + {group.name} else before
      {
        RequiredIsKnown(i, group.required[j]);
        if groupNameToInternalInfo[group.required[j]].shouldMarkFinalTestsSkipped {
          SetSkipped(group.name);
        }
      }
      assert RequiresOneOf(group, before) <==> exists k :: 0 <= k < |group.required| && group.required[k] in before;
    }

    /** Marks a group skipped, then every group that requires a skipped one. */
    method MarkSkipped(groupName: string)
      requires Tables() && groupName in groupNameToInternalInfo
      modifies `groupNameToInternalInfo
      ensures groupNameToInternalInfo.Keys == old(groupNameToInternalInfo.Keys)
      ensures Closed(groupNameToInternalInfo) == old(Closed(groupNameToInternalInfo))
      ensures Skipped(groupNameToInternalInfo) ==
              Propagate(problem, 0, old(Skipped(groupNameToInternalInfo)) + {groupName})
    {
      ghost var seed := Skipped(groupNameToInternalInfo) + {groupName};
      SetSkipped(groupName);
      for i := 0 to |problem.groups|
        invariant Tables() && Closed(groupNameToInternalInfo) == old(Closed(groupNameToInternalInfo))
        invariant Propagate(problem, i, Skipped(groupNameToInternalInfo)) == Propagate(problem, 0, seed)
      {
        SkipIfRequiresSkipped(i);
      }
    }

    method SetSkipped(groupName: string)
      requires groupName in groupNameToInternalInfo
      modifies `groupNameToInternalInfo
      ensures groupNameToInternalInfo.Keys == old(groupNameToInternalInfo.Keys)
      ensures Closed(groupNameToInternalInfo) == old(Closed(groupNameToInternalInfo))
      ensures Skipped(groupNameToInternalInfo) == old(Skipped(groupNameToInternalInfo)) + {groupName}
    {
      groupNameToInternalInfo :=
        groupNameToInternalInfo[groupName := groupNameToInternalInfo[groupName].(shouldMarkFinalTestsSkipped := true)];
    }

    method SetClosed(groupName: string)
      requires groupName in groupNameToInternalInfo
      modifies `groupNameToInternalInfo
      ensures groupNameToInternalInfo.Keys == old(groupNameToInternalInfo.Keys)
      ensures Skipped(groupNameToInternalInfo) == old(Skipped(groupNameToInternalInfo))
      ensures Closed(groupNameToInternalInfo) == old(Closed(groupNameToInternalInfo)) + {groupName}
    {
      groupNameToInternalInfo :=
        groupNameToInternalInfo[groupName := groupNameToInternalInfo[groupName].(shouldGiveNewJobs := false)];
    }

    method StopGivingNewTestsIfNeeded(testGroupInfo: Group, testVerdict: Verdict)
      requires Tables() && testGroupInfo.name in groupNameToInternalInfo
      modifies `groupNameToInternalInfo
      ensures groupNameToInternalInfo.Keys == old(groupNameToInternalInfo.Keys)
      ensures Skipped(groupNameToInternalInfo) == old(Skipped(groupNameToInternalInfo))
      ensures Closed(groupNameToInternalInfo) ==
              if (testGroupInfo.scoring == Complete && testVerdict != OK)
                 || (testGroupInfo.scoring == Min && testVerdict !in {OK, PT})
              then Propagate(problem, 0, old(Closed(groupNameToInternalInfo)) + {testGroupInfo.name})
              else old(Closed(groupNameToInternalInfo))
    {
      hide WellFormed, TablesOK;
      if !Prevents(testGroupInfo, testVerdict) {
        return;
      }
      ghost var seed := Closed(groupNameToInternalInfo) + {testGroupInfo.name};
      SetClosed(testGroupInfo.name);
      for i := 0 to |problem.groups|
        invariant Tables() && Skipped(groupNameToInternalInfo) == old(Skipped(groupNameToInternalInfo))
        invariant Propagate(problem, i, Closed(groupNameToInternalInfo)) == Propagate(problem, 0, seed)
      {
        var group := problem.groups[i];
        ghost var before := Closed(groupNameToInternalInfo);
        var j := 0;
        while j < |group.required|
          invariant 0 <= j <= |group.required|
          invariant Tables() && Skipped(groupNameToInternalInfo) == old(Skipped(groupNameToInternalInfo))
          invariant Closed(groupNameToInternalInfo) == before
          invariant forall k :: 0 <= k < j ==> group.required[k] !in before
        {
          RequiredIsKnown(i, group.required[j]);
          if !groupNameToInternalInfo[group.required[j]].shouldGiveNewJobs {
            SetClosed(group.name);
            break;
          }
          j := j + 1;
        }
        assert RequiresOneOf(group, before) <==> j < |group.required|;
      }
    }

    // ---------- publication ----------

    method CalcGroupVerdict(groupInfo: Group) returns (v: Verdict)
      requires EndsWithin(groupInfo, submission.testResults)
      ensures v == if AllOK(submission.testResults, groupInfo.first - 1, groupInfo.last) then OK else PT
    {
      for i := groupInfo.first - 1 to groupInfo.last
        invariant AllOK(submission.testResults, groupInfo.first - 1, i)
      {
        if submission.testResults[i].verdict != OK {
          return PT;
        }
      }
      return OK;
    }

    /** The score of a finished group; None stands for the panic on nil points. */
    method ScoreGroup(groupInfo: Group, groupVerdict: Verdict) returns (score: Option<real>)
      requires EndsWithin(groupInfo, submission.testResults) && HasScores(groupInfo)
      requires groupVerdict == if AllOK(submission.testResults, groupInfo.first - 1, groupInfo.last) then OK else PT
      ensures score == GroupScore(groupInfo, submission.testResults)
    {
      ghost var results, lo := submission.testResults, groupInfo.first - 1;
      match groupInfo.scoring
      case Complete =>
        return Some(if groupVerdict == OK then groupInfo.groupScore.value else 0.0);
      case EachTest =>
        var sum := 0.0;
        for t := groupInfo.first to groupInfo.last + 1
          invariant SumPoints(results, lo, t - 1) == Some(sum)
        {
          var points := submission.testResults[t - 1].points;
          if points == None {
            NilSumStays(results, lo, t, groupInfo.last);
            return None;
          }
          sum := sum + points.value;
        }
        return Some(sum);
      case Min =>
        var least := groupInfo.groupScore.value;
        for t := groupInfo.first to groupInfo.last + 1
          invariant MinPoints(groupInfo.groupScore.value, results, lo, t - 1) == Some(least)
        {
          var points := submission.testResults[t - 1].points;
          if points == None {
            if submission.testResults[t - 1].verdict != SK {
              NilMinStays(groupInfo.groupScore.value, results, lo, t, groupInfo.last);
              return None;
            }
            least := 0.0;
          } else {
            least := Lower(least, points.value);
          }
        }
        return Some(least);
      case UnknownScoring =>
        return Some(0.0);
    }

    method CompleteGroupTesting(groupInfo: Group)
      requires EndsWithin(groupInfo, submission.testResults) && HasScores(groupInfo)
      requires firstNotCompletedTest == groupInfo.last
      modifies `submission, `firstNotCompletedGroup, `crashed
      ensures var s := old(View());
              var score := GroupScore(groupInfo, s.sub.testResults);
              View() ==
              if score.None? then s.(crashed := true)
              else s.(sub := s.sub.(groupResults := s.sub.groupResults + [GroupResultOf(groupInfo, s.sub.testResults)]),
                      firstNotCompletedGroup := s.firstNotCompletedGroup + 1)
    {
      var groupVerdict := CalcGroupVerdict(groupInfo);
      var score := ScoreGroup(groupInfo, groupVerdict);
      if score == None {
        crashed := true;
        return;
      }
      submission := submission.(groupResults :=
        submission.groupResults + [GroupResult(groupInfo.name, score.value, groupVerdict == OK)]);
      firstNotCompletedGroup := firstNotCompletedGroup + 1;
    }

    /** Appends the result under the cursor and, if it stops its group, marks what must be skipped. */
    method AppendResult()
      requires Valid() && firstNotCompletedTest <= problem.tests
      modifies `submission, `groupNameToInternalInfo
      ensures Tables()
      ensures var s := old(View());
              View() == s.(sub := s.sub.(testResults := s.sub.testResults + [ResultToPublish(problem, s)]),
                           skip := SkipAfter(problem, s))
    {
      var t := firstNotCompletedTest;
      GroupTables(t);
      var groupName := testNumberToGroupName[t];
      if groupNameToInternalInfo[groupName].shouldMarkFinalTestsSkipped {
        var skipped := Placeholder(internalTestResults[t - 1].result.testNumber, SK);
        submission := submission.(testResults := submission.testResults + [skipped]);
      } else {
        var testResult := internalTestResults[t - 1].result;
        if testResult.verdict == SK {
          testResult := testResult.(verdict := CF, error := SKIPPED_ERROR);
        }
        submission := submission.(testResults := submission.testResults + [testResult]);
        if Prevents(groupNameToGroupInfo[groupName], testResult.verdict) {
          MarkSkipped(groupName);
        }
      }
    }

    /** One round of the loop of updateSubmissionResult. */
    method PublishTest()
      requires Valid() && firstNotCompletedTest <= problem.tests
      modifies this
      ensures View() == PublishOne(problem, old(View()))
      ensures Tables()
    {
      hide WellFormed, HasCause, ResultToPublish, SkipAfter, GroupScore, GroupResultOf;
      var t := firstNotCompletedTest;
      GroupTables(t);
      CursorIsGroupIndex(problem, t, firstNotCompletedGroup);
      GroupEndsInside(problem, GroupIndex(problem, t));
      var groupInfo := groupNameToGroupInfo[testNumberToGroupName[t]];
      assert HasScores(groupInfo) by { GroupHasScores(problem, GroupIndex(problem, t)); }
      AppendResult();
      if t == groupInfo.last {
        CompleteGroupTesting(groupInfo);
        if crashed {
          return;
        }
      }
      firstNotCompletedTest := firstNotCompletedTest + 1;
    }

    method SetFinalScoreAndVerdict()
      requires Bounded(problem, View()) && firstNotCompletedTest == problem.tests + 1 && givenJobs == map[]
      modifies `submission
      ensures View() == Scored(old(View()))
    {
      hide WellFormed;
      assert |submission.groupResults| == |problem.groups| by { AllGroupsAreComplete(problem, View()); }
      assert |submission.testResults| == problem.tests;
      ghost var start := View();
      ghost var results := submission.testResults;
      var total := submission.score;
      var sum := 0.0;
      for i := 0 to |submission.groupResults|
        invariant unchanged(this) && sum == TotalPoints(submission.groupResults, i)
        invariant total == submission.score + sum
      {
        sum := sum + submission.groupResults[i].points;
        total := total + submission.groupResults[i].points;
      }
      var v := submission.verdict;
      if v == RU {
        var hasSkipped, hasVerdict := false, false;
        for i := 0 to |submission.testResults|
          invariant unchanged(this)
          invariant v == if hasVerdict then FinalVerdict(results, i) else RU
          invariant hasVerdict <==> FinalVerdict(results, i) != OK
          invariant hasSkipped ==> exists j :: 0 <= j < i && results[j].verdict == SK
        {
          FinalVerdictIsACause(results, i);
          var testVerdict := submission.testResults[i].verdict;
          if testVerdict == CF {
            v, hasVerdict := CF, true;
          } else if testVerdict == SK {
            hasSkipped := true;
          } else if testVerdict != OK {
            v, hasVerdict := PT, true;
          }
        }
        if !hasVerdict {
          FinalVerdictIsACause(results, |results|);
          assert !hasSkipped;
          v := OK;
        }
      }
      submission := submission.(score := total, verdict := v);
    }

    /** The loop of updateSubmissionResult; it stops early on a panic. */
    method PublishTests()
      requires Valid()
      modifies this
      ensures View() == Publish(problem, old(View()))
      ensures Tables()
    {
      hide WellFormed, HasCause, PublishOne, Partitions;
      ghost var start := View();
      while firstNotCompletedTest <= problem.tests && !crashed
        invariant Tables() && (!crashed ==> Bounded(problem, View()))
        invariant if crashed then View() == Publish(problem, start)
                  else Publish(problem, View()) == Publish(problem, start)
        decreases if crashed then 0 else problem.tests + 2 - firstNotCompletedTest
      {
        var t := firstNotCompletedTest;
        GroupTables(t);
        var skipped := groupNameToInternalInfo[testNumberToGroupName[t]].shouldMarkFinalTestsSkipped;
        if internalTestResults[t - 1].state == Running || (internalTestResults[t - 1].state == NotGiven && !skipped) {
          break;
        }
        PublishTest();
      }
    }

    method UpdateSubmissionResult() returns (outcome: Outcome)
      requires Valid()
      modifies this
      ensures (View(), outcome) == Update(problem, old(View()))
      ensures Tables()
    {
      hide WellFormed, HasCause, Publish;
      PublishTests();
      if crashed {
        return Panicked;
      }
      if firstNotCompletedTest > problem.tests && |givenJobs| == 0 {
        AllGroupsAreComplete(problem, View());
        SetFinalScoreAndVerdict();
        assert firstNotCompletedGroup > |problem.groups|;
        return Finalized(submission);
      }
      return Pending;
    }

    // ---------- JobCompleted ----------

    method CompileJobCompleted(result: JobResult)
      requires Tables()
      modifies `submission, `state, `groupNameToInternalInfo
      ensures Tables()
      ensures View() == CompileDone(problem, old(View()), result)
    {
      hide Rounding.BuildTestResult, WellFormed, Closed, Skipped;
      var reported := result;
      if result.verdict == CD {
        state := Compiled;
      } else if result.verdict == CE {
        submission := submission.(verdict := CE);
        SkipAllGroups();
      } else {
        if result.verdict != CF {
          reported := result.(verdict := CF, error := "unknown verdict for compile job: CF");
        }
        submission := submission.(verdict := CF);
        SkipAllGroups();
      }
      assert Rounding.BuildTestResult(0, reported) == Rounding.CompileReport(result);
      submission := submission.(compilation := Some(Rounding.BuildTestResult(0, reported)));
    }

    method SkipAllGroups()
      requires Tables()
      modifies `groupNameToInternalInfo
      ensures Tables()
      ensures Closed(groupNameToInternalInfo) == old(Closed(groupNameToInternalInfo))
      ensures Skipped(groupNameToInternalInfo) == old(Skipped(groupNameToInternalInfo)) + Names(problem)
    {
      for i := 0 to |problem.groups|
        invariant Tables() && Closed(groupNameToInternalInfo) == old(Closed(groupNameToInternalInfo))
        invariant Skipped(groupNameToInternalInfo) ==
                  old(Skipped(groupNameToInternalInfo)) + set j | 0 <= j < i :: problem.groups[j].name
      {
        SetSkipped(problem.groups[i].name);
      }
    }

    method PopulateTestJobResult(groupInfo: Group, result: JobResult) returns (populated: JobResult, failed: bool)
      ensures failed <==> (groupInfo.scoring == EachTest || groupInfo.scoring == Min) && result.points == None
                          && result.verdict == PT
      ensures !failed ==> populated == Populate(groupInfo, result)
      ensures failed ==> populated == result
    {
      populated := result;
      if groupInfo.scoring == EachTest || groupInfo.scoring == Min {
        if result.points == None {
          if result.verdict == OK {
            populated := result.(points :=
              if groupInfo.scoring == EachTest then groupInfo.testScore else groupInfo.groupScore);
          } else if result.verdict == PT {
            return result, true;
          } else {
            populated := result.(points := Some(0.0));
          }
        }
      }
      return populated, false;
    }

    method TestJobCompleted(job: Job, result: JobResult)
      requires Tables() && IsTest(problem, job.test) && |internalTestResults| == problem.tests
      modifies `internalTestResults, `groupNameToInternalInfo
      ensures Tables()
      ensures View() == TestDone(problem, old(View()), job.test, result)
    {
      var t := job.test;
      GroupTables(t);
      var groupInfo := groupNameToGroupInfo[testNumberToGroupName[t]];
      var populated, failed := PopulateTestJobResult(groupInfo, result);
      if failed {
        populated := populated.(verdict := CF);
        if populated.points != None {
          populated := populated.(points := Some(0.0));
        }
        if populated.error != "" {
          populated := populated.(error := populated.error + "; ");
        }
        populated := populated.(error := populated.error + NIL_POINTS_ERROR);
      }
      assert populated == Populate(groupInfo, result);
      hide Populate, Prevents, WellFormed;
      internalTestResults := internalTestResults[t - 1 := Slot(Rounding.BuildTestResult(t, populated), Finished)];
      StopGivingNewTestsIfNeeded(groupInfo, populated.verdict);
    }

    method JobCompleted(id: Id, result: JobResult) returns (outcome: Outcome)
      requires Valid()
      modifies this
      ensures (View(), outcome) == Answer(problem, old(View()), id, result)
      ensures !crashed ==> Valid()
    {
      hide WellFormed, HasCause, Update, CompileDone, TestDone;
      if id !in givenJobs {
        return UnknownJob;
      }
      ghost var start := View();
      var job := givenJobs[id];
      givenJobs := givenJobs - {id};
      match job.kind {
        case CompileJob => CompileJobCompleted(result);
        case TestJob => TestJobCompleted(job, result);
      }
      assert View() == Received(problem, start, id, result);
      outcome := UpdateSubmissionResult();
    }
  }

  lemma AllGroupsAreComplete(p: Problem, s: State)
    requires Bounded(p, s) && s.firstNotCompletedTest == p.tests + 1
    ensures s.firstNotCompletedGroup == |p.groups| + 1
  {
    if s.firstNotCompletedGroup <= |p.groups| {
      GroupEndsInside(p, s.firstNotCompletedGroup - 1);
    }
  }

  lemma GroupHasScores(p: Problem, i: nat)
    requires WellFormed(p) && i < |p.groups|
    ensures HasScores(p.groups[i])
  {
  }

  lemma {:induction false} NilSumStays(results: seq<TestResult>, lo: nat, t: nat, hi: nat)
    requires lo < t <= hi <= |results| && results[t - 1].points == None
    ensures SumPoints(results, lo, hi) == None
    decreases hi
  {
    if t < hi {
      NilSumStays(results, lo, t, hi - 1);
    }
  }

  lemma {:induction false} NilMinStays(bound: real, results: seq<TestResult>, lo: nat, t: nat, hi: nat)
    requires lo < t <= hi <= |results| && results[t - 1].points == None && results[t - 1].verdict != SK
    ensures MinPoints(bound, results, lo, hi) == None
    decreases hi
  {
    if t < hi {
      NilMinStays(bound, results, lo, t, hi - 1);
    }
  }

  /** The generator of an accepted problem, or null where the original returns an error. */
  method NewIOIGenerator(problem: Problem, submitId: nat) returns (g: IOIGenerator?)
    ensures g == null <==> !WellFormed(problem)
    ensures g != null ==> fresh(g) && g.problem == problem && g.Valid() && g.View() == Init(problem, submitId)
  {
    var generator := new IOIGenerator(problem, submitId);
    var ok := generator.PrepareGenerator();
    if ok {
      return generator;
    }
    return null;
  }
}
