/** Incremental synchronisation of the active submissions between the master and a client that polls it. */
module StatusSync {
  import opened Models
  import opened Lists

  // ---------- the master's half ----------

  /** Epochs are UUIDv7 strings in the original; they are compared only, and never decrease. The empty string is 0. */
  datatype Holder = Holder(submission: Submission, lastUpdatedEpoch: nat)

  /** `order` lists the active submissions, last updated first; `clock` is the last epoch drawn. */
  datatype Master = Master(active: map<nat, Holder>, order: seq<nat>, clock: nat)

  datatype Status = Status(epoch: nat, testing: set<nat>, updated: seq<Submission>)

  function Add(m: Master, sub: Submission, now: nat): Master {
    Master(m.active[sub.id := Holder(sub, now)], [sub.id] + m.order, now)
  }

  function Update(m: Master, sub: Submission, now: nat): Master {
    Master(m.active[sub.id := Holder(sub, now)], [sub.id] + Without(m.order, sub.id), now)
  }

  function Finish(m: Master, id: nat): Master {
    m.(active := m.active - {id}, order := Without(m.order, id))
  }

  predicate Listed(m: Master) {
    forall i :: 0 <= i < |m.order| ==> m.order[i] in m.active
  }

  /** The loop over order[k..] with its early break. */
  function UpdatedSince(m: Master, prevEpoch: nat, k: nat): (r: seq<Submission>)
    requires Listed(m) && k <= |m.order|
    decreases |m.order| - k
  {
    if k == |m.order| || m.active[m.order[k]].lastUpdatedEpoch < prevEpoch then []
    else [m.active[m.order[k]].submission] + UpdatedSince(m, prevEpoch, k + 1)
  }

  function GetStatus(m: Master, prevEpoch: nat, now: nat): (Master, Status)
    requires Listed(m)
  {
    (m.(clock := now), Status(now, m.active.Keys, UpdatedSince(m, prevEpoch, 0)))
  }

  // ---------- sorted, newest first ----------

  predicate Sorted(m: Master)
    requires Listed(m)
  {
    forall i, j {:trigger m.order[i], m.order[j]} :: 0 <= i <= j < |m.order| ==>
      m.active[m.order[j]].lastUpdatedEpoch <= m.active[m.order[i]].lastUpdatedEpoch
  }

  ghost predicate Valid(m: Master) {
    && Listed(m) && Distinct(m.order) && Elements(m.order) == m.active.Keys && Sorted(m)
    && (forall id :: id in m.active ==> m.active[id].lastUpdatedEpoch <= m.clock && m.active[id].submission.id == id)
  }

  /** Where the elements of Without(s, id) come from: the same order, earlier positions. */
  lemma {:induction false} WithoutKeepsOrder(s: seq<nat>, id: nat, i: nat, j: nat) returns (a: nat, b: nat)
    requires i <= j < |Without(s, id)|
    ensures a <= b < |s| && s[a] == Without(s, id)[i] && s[b] == Without(s, id)[j]
  {
    if s[0] == id {
      a, b := WithoutKeepsOrder(s[1..], id, i, j);
      a, b := a + 1, b + 1;
    } else if j == 0 {
      a, b := 0, 0;
    } else if i == 0 {
      var x, y := WithoutKeepsOrder(s[1..], id, j - 1, j - 1);
      a, b := 0, y + 1;
    } else {
      a, b := WithoutKeepsOrder(s[1..], id, i - 1, j - 1);
      a, b := a + 1, b + 1;
    }
  }

  lemma RemovalStaysSorted(m: Master, id: nat)
    requires Valid(m)
    ensures Valid(Finish(m, id))
  {
    var r := Finish(m, id);
    WithoutIsRemoval(m.order, id);
    assert forall k :: k in r.order <==> k in Elements(m.order) && k != id;
    forall i | 0 <= i < |r.order|
      ensures r.order[i] in r.active
    {
      assert r.order[i] in r.order;
    }
    forall i, j | 0 <= i <= j < |r.order|
      ensures r.active[r.order[j]].lastUpdatedEpoch <= r.active[r.order[i]].lastUpdatedEpoch
    {
      var a, b := WithoutKeepsOrder(m.order, id, i, j);
    }
  }

  /** A submission added or updated now goes to the front, and the list stays sorted. */
  lemma FrontStaysSorted(m: Master, sub: Submission, now: nat)
    requires Valid(m) && sub.id !in m.active && m.clock <= now
    ensures Valid(Add(m, sub, now))
  {
    var r := Add(m, sub, now);
    assert forall k :: k in m.order <==> k in Elements(m.order);
    PrependIsDistinct(sub.id, m.order);
    forall i | 0 <= i < |r.order|
      ensures r.order[i] in r.active && (i > 0 ==> r.order[i] != sub.id && r.order[i] == m.order[i - 1])
    {
      assert i > 0 ==> m.order[i - 1] in m.order;
    }
    assert Elements(r.order) == Elements(m.order) + {sub.id};
    hide Distinct;
    forall i, j | 0 <= i <= j < |r.order|
      ensures r.active[r.order[j]].lastUpdatedEpoch <= r.active[r.order[i]].lastUpdatedEpoch
    {
      if i > 0 {
        assert m.active[m.order[j - 1]].lastUpdatedEpoch <= m.active[m.order[i - 1]].lastUpdatedEpoch;
      }
    }
  }

  lemma UpdateKeepsValid(m: Master, sub: Submission, now: nat)
    requires Valid(m) && m.clock <= now
    ensures Valid(Update(m, sub, now))
  {
    RemovalStaysSorted(m, sub.id);
    FrontStaysSorted(Finish(m, sub.id), sub, now);
    assert (m.active - {sub.id})[sub.id := Holder(sub, now)] == m.active[sub.id := Holder(sub, now)];
  }

  lemma GetStatusKeepsValid(m: Master, prevEpoch: nat, now: nat)
    requires Valid(m) && m.clock <= now
    ensures Valid(GetStatus(m, prevEpoch, now).0)
  {
  }

  // ---------- the early break is exact ----------

  /** The submissions sent are exactly the active ones updated in the client's epoch or later. */
  lemma BreakIsExact(m: Master, prevEpoch: nat, sub: Submission)
    requires Valid(m)
    ensures sub in UpdatedSince(m, prevEpoch, 0) <==>
            exists id :: id in m.active && m.active[id].submission == sub && prevEpoch <= m.active[id].lastUpdatedEpoch
  {
    BreakIsExactFrom(m, prevEpoch, 0, sub);
    if id :| id in m.active && m.active[id].submission == sub && prevEpoch <= m.active[id].lastUpdatedEpoch {
      assert id in Elements(m.order);
      var i :| 0 <= i < |m.order| && m.order[i] == id;
    }
  }

  lemma {:induction false} BreakIsExactFrom(m: Master, prevEpoch: nat, k: nat, sub: Submission)
    requires Listed(m) && Sorted(m) && k <= |m.order|
    ensures sub in UpdatedSince(m, prevEpoch, k) <==>
            exists i :: k <= i < |m.order| && m.active[m.order[i]].submission == sub
                        && prevEpoch <= m.active[m.order[i]].lastUpdatedEpoch
    decreases |m.order| - k
  {
    if k < |m.order| {
      BreakIsExactFrom(m, prevEpoch, k + 1, sub);
    }
  }

  // ---------- the client's half ----------

  /** `epoch` is that of the last status taken over, 0 when there is none. */
  datatype Client = Client(submissions: map<nat, Submission>, epoch: nat, testing: set<nat>)

  function Overwrite(known: map<nat, Submission>, updates: seq<Submission>): map<nat, Submission>
    decreases |updates|
  {
    if updates == [] then known else Overwrite(known[updates[0].id := updates[0]], updates[1..])
  }

  function Apply(c: Client, status: Status): Client {
    Client(Overwrite(c.submissions, status.updated), status.epoch, status.testing)
  }

  /** Updates name each submission at most once, so the order of overwriting does not matter. */
  lemma {:induction false} OverwriteIsUnion(known: map<nat, Submission>, updates: seq<Submission>, id: nat)
    requires forall i, j ::
              0 <= i < |updates| && 0 <= j < |updates| && updates[i].id == updates[j].id ==> updates[i] == updates[j]
    ensures (forall sub :: sub in updates && sub.id == id ==>
               id in Overwrite(known, updates) && Overwrite(known, updates)[id] == sub)
    ensures (forall sub :: sub in updates ==> sub.id != id) ==>
              (id in Overwrite(known, updates) <==> id in known)
              && (id in known ==> Overwrite(known, updates)[id] == known[id])
    decreases |updates|
  {
    if updates != [] {
      var next, rest := known[updates[0].id := updates[0]], updates[1..];
      OverwriteIsUnion(next, rest, id);
      assert updates == [updates[0]] + rest;
      if updates[0].id == id {
        forall other | other in rest && other.id == id
          ensures other == updates[0]
        {
          var i :| 0 <= i < |rest| && rest[i] == other;
          assert updates[i + 1] == other;
        }
      }
    }
  }

  // ---------- polling ----------

  /** A poll in progress: the epoch the client sent, and the master's answer once it is computed. */
  datatype Poll = Idle | Asked(epoch: nat) | Replied(epoch: nat, status: Status)

  /** `reported` is what the generators said last about each submission they have not finished, since the master was
      started, and `reportedAt` the epoch they said it in. */
  datatype World = World(
    master: Master, client: Client, poll: Poll, reported: map<nat, Submission>, reportedAt: map<nat, nat>)

  datatype Step =
    | AddStep(sub: Submission, now: nat)
    | UpdateStep(sub: Submission, now: nat)
    | FinishStep(id: nat)
    | RestartStep(now: nat)
    | AskStep
    | AnswerStep(now: nat)
    | FailStep
    | TakeStep

  /** A submission is added once, and updated and finished while active; anything else panics in the original.
      The clock never runs backwards, not even while the master is restarted and forgets everything else. */
  predicate Enabled(w: World, s: Step) {
    match s
    case AddStep(sub, now) => sub.id !in w.master.active && w.master.clock <= now
    case UpdateStep(sub, now) => sub.id in w.master.active && w.master.clock <= now
    case FinishStep(id) => id in w.master.active
    case RestartStep(now) => w.master.clock <= now
    case AskStep => w.poll == Idle
    case AnswerStep(now) => w.poll.Asked? && w.master.clock <= now && Listed(w.master)
    case FailStep => w.poll != Idle
    case TakeStep => w.poll.Replied?
  }

  function Report(w: World, sub: Submission, now: nat): World {
    w.(reported := w.reported[sub.id := sub], reportedAt := w.reportedAt[sub.id := now])
  }

  function Next(w: World, s: Step): World
    requires Enabled(w, s)
  {
    match s
    case AddStep(sub, now) => Report(w.(master := Add(w.master, sub, now)), sub, now)
    case UpdateStep(sub, now) => Report(w.(master := Update(w.master, sub, now)), sub, now)
    case FinishStep(id) =>
      w.(master := Finish(w.master, id), reported := w.reported - {id}, reportedAt := w.reportedAt - {id})
    case RestartStep(now) => w.(master := Master(map[], [], now), reported := map[], reportedAt := map[])
    case AskStep => w.(poll := Poll.Asked(w.client.epoch))
    case AnswerStep(now) =>
      var (m, status) := GetStatus(w.master, w.poll.epoch, now);
      w.(master := m, poll := Poll.Replied(w.poll.epoch, status))
    case FailStep => w.(poll := Idle)
    case TakeStep => w.(client := Apply(w.client, w.poll.status), poll := Idle)
  }

  predicate Run(w: World, steps: seq<Step>, r: World)
    decreases |steps|
  {
    if steps == [] then w == r else Enabled(w, steps[0]) && Run(Next(w, steps[0]), steps[1..], r)
  }

  const Initial: World := World(Master(map[], [], 0), Client(map[], 0, {}), Idle, map[], map[])

  /** The client knows the active submission as the master does. */
  predicate Agrees(known: map<nat, Submission>, m: Master, id: nat)
    requires id in m.active
  {
    id in known && known[id] == m.active[id].submission
  }

  /** Up to an epoch, that is: whatever was updated before it. */
  predicate AgreesBefore(known: map<nat, Submission>, m: Master, epoch: nat) {
    && epoch <= m.clock
    && forall id {:trigger Agrees(known, m, id)} ::
         id in m.active && m.active[id].lastUpdatedEpoch < epoch ==> Agrees(known, m, id)
  }

  /** The master stores what it was told last, and when. */
  predicate StoresReports(m: Master, reported: map<nat, Submission>, reportedAt: map<nat, nat>) {
    && m.active.Keys == reported.Keys == reportedAt.Keys
    && forall id :: id in m.active ==> m.active[id] == Holder(reported[id], reportedAt[id])
  }

  ghost predicate Inv(w: World) {
    && Valid(w.master) && StoresReports(w.master, w.reported, w.reportedAt)
    && AgreesBefore(w.client.submissions, w.master, w.client.epoch)
    && match w.poll
       case Idle => true
       case Asked(epoch) => epoch == w.client.epoch
       case Replied(_, status) => AgreesBefore(Apply(w.client, status).submissions, w.master, status.epoch)
  }

  lemma AnswerIsTheSnapshot(m: Master, c: Client, now: nat, id: nat)
    requires Valid(m) && m.clock <= now && AgreesBefore(c.submissions, m, c.epoch) && id in m.active
    ensures Agrees(Apply(c, GetStatus(m, c.epoch, now).1).submissions, m, id)
  {
    var updates := UpdatedSince(m, c.epoch, 0);
    forall i, j | 0 <= i < |updates| && 0 <= j < |updates| && updates[i].id == updates[j].id
      ensures updates[i] == updates[j]
    {
      BreakIsExact(m, c.epoch, updates[i]);
      BreakIsExact(m, c.epoch, updates[j]);
    }
    OverwriteIsUnion(c.submissions, updates, id);
    var sub := m.active[id].submission;
    if c.epoch <= m.active[id].lastUpdatedEpoch {
      BreakIsExact(m, c.epoch, sub);
      assert sub in updates && sub.id == id;
    } else {
      assert Agrees(c.submissions, m, id);
      forall other | other in updates
        ensures other.id != id
      {
        BreakIsExact(m, c.epoch, other);
      }
    }
  }

  lemma MasterMoves(known: map<nat, Submission>, m: Master, r: Master, epoch: nat)
    requires AgreesBefore(known, m, epoch) && m.clock <= r.clock
    requires forall id ::
              id in r.active ==>
                || epoch <= r.active[id].lastUpdatedEpoch
                || (id in m.active && r.active[id] == m.active[id])
    ensures AgreesBefore(known, r, epoch)
  {
    forall id | id in r.active && r.active[id].lastUpdatedEpoch < epoch
      ensures Agrees(known, r, id)
    {
      assert Agrees(known, m, id);
    }
  }

  lemma StepKeepsInv(w: World, s: Step)
    requires Inv(w) && Enabled(w, s)
    ensures Inv(Next(w, s))
  {
    hide Valid, AgreesBefore, UpdatedSince, Overwrite, Without;
    var r := Next(w, s);
    match s {
      case AddStep(sub, now) => FrontStaysSorted(w.master, sub, now);
      case UpdateStep(sub, now) => UpdateKeepsValid(w.master, sub, now);
      case FinishStep(id) => RemovalStaysSorted(w.master, id);
      case AnswerStep(now) => GetStatusKeepsValid(w.master, w.poll.epoch, now);
      case _ =>
    }
    match s {
      case AddStep(_, _) => MovesKeepAgreement(w, r);
      case UpdateStep(_, _) => MovesKeepAgreement(w, r);
      case FinishStep(_) => MovesKeepAgreement(w, r);
      case RestartStep(now) =>
        NothingIsValid(now);
        MovesKeepAgreement(w, r);
      case AnswerStep(now) => AnsweringKeepsInv(w, now);
      case _ =>
    }
  }

  lemma NothingIsValid(now: nat)
    ensures Valid(Master(map[], [], now))
  {
  }

  lemma MovesKeepAgreement(w: World, r: World)
    requires Inv(w) && r == w.(master := r.master, reported := r.reported, reportedAt := r.reportedAt)
    requires w.master.clock <= r.master.clock
    requires StoresReports(r.master, r.reported, r.reportedAt)
    requires forall id :: id in r.master.active ==>
               w.master.clock <= r.master.active[id].lastUpdatedEpoch
               || (id in w.master.active && r.master.active[id] == w.master.active[id])
    requires Valid(r.master)
    ensures Inv(r)
  {
    hide Valid, Overwrite;
    MasterMoves(w.client.submissions, w.master, r.master, w.client.epoch);
    if w.poll.Replied? {
      MasterMoves(Apply(w.client, w.poll.status).submissions, w.master, r.master, w.poll.status.epoch);
    }
  }

  lemma AnsweringKeepsInv(w: World, now: nat)
    requires Inv(w) && Enabled(w, AnswerStep(now))
    ensures Inv(Next(w, AnswerStep(now)))
  {
    GetStatusKeepsValid(w.master, w.poll.epoch, now);
    hide Valid, Overwrite, UpdatedSince, Sorted, Distinct;
    var r := Next(w, AnswerStep(now));
    MasterMoves(w.client.submissions, w.master, r.master, w.client.epoch);
    forall id | id in r.master.active
      ensures Agrees(Apply(r.client, r.poll.status).submissions, r.master, id)
    {
      AnswerIsTheSnapshot(w.master, w.client, now, id);
    }
  }

  lemma {:induction false} RunKeepsInv(w: World, steps: seq<Step>, r: World)
    requires Inv(w) && Run(w, steps, r)
    ensures Inv(r)
    decreases |steps|
  {
    hide Inv, Enabled, Next;
    if steps != [] {
      StepKeepsInv(w, steps[0]);
      RunKeepsInv(Next(w, steps[0]), steps[1..], r);
    }
  }

  // ---------- what a poll achieves ----------

  /** After every successful poll the client has, for every submission that was active when the master answered, what
      its generator had reported last, whether or not the master was restarted since the last poll: increments amount
      to full snapshots. It also knows which ones were active. */
  lemma APollIsAFullSnapshot(steps: seq<Step>, w: World, now: nat, id: nat)
    requires Run(Initial, steps, w) && Enabled(w, AnswerStep(now)) && id in w.reported
    ensures var answered := Next(w, AnswerStep(now));
            && Enabled(answered, TakeStep)
            && var client := Next(answered, TakeStep).client;
            && client.epoch == now && client.testing == w.reported.Keys
            && id in client.submissions && id in w.reported && client.submissions[id] == w.reported[id]
  {
    RunKeepsInv(Initial, steps, w);
    hide Valid, Overwrite, UpdatedSince, Sorted, Distinct;
    AnswerIsTheSnapshot(w.master, w.client, now, id);
  }

  /** And they are increments: sent are exactly the submissions reported on in the epoch of the last answer or later. */
  lemma APollBringsOnlyNews(steps: seq<Step>, w: World, now: nat, sub: Submission)
    requires Run(Initial, steps, w) && Enabled(w, AnswerStep(now))
    ensures sub in Next(w, AnswerStep(now)).poll.status.updated <==>
            && sub.id in w.reported && w.reported[sub.id] == sub
            && sub.id in w.reportedAt && w.client.epoch <= w.reportedAt[sub.id]
  {
    RunKeepsInv(Initial, steps, w);
    BreakIsExact(w.master, w.client.epoch, sub);
  }

  /** The list the master walks is sorted by last update, newest first, in every run. */
  lemma OrderIsAlwaysSorted(steps: seq<Step>, w: World)
    requires Run(Initial, steps, w)
    ensures Valid(w.master)
  {
    RunKeepsInv(Initial, steps, w);
  }

  /** If nothing was reported since, the client has what was reported last. */
  lemma AfterAQuietPollTheClientAgrees(steps: seq<Step>, w: World, id: nat)
    requires Run(Initial, steps, w) && id in w.reportedAt && w.reportedAt[id] < w.client.epoch
    ensures id in w.client.submissions && id in w.reported && w.client.submissions[id] == w.reported[id]
  {
    RunKeepsInv(Initial, steps, w);
    assert Agrees(w.client.submissions, w.master, id);
  }
}
