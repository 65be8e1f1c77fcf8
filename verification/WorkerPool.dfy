/** The invoker's worker pools: a queue of values, workers that take them under a condition variable, and a stop. */
module WorkerPool {

  /** Ready workers hold the mutex next or wait for it; waiting ones sleep on the condition variable. */
  datatype Worker<V> = Ready | Waiting | Working(value: V) | Exited

  /** `accepted` and `taken` are the values ever added and ever dequeued, `finished` how many have been processed. */
  datatype Pool<V> = Pool(
    values: seq<V>, closed: bool, workers: seq<Worker<V>>, accepted: seq<V>, taken: seq<V>, finished: nat)

  datatype Step<V> =
    | AddStep(value: V, wakes: nat)
    | StopStep
    | RunStep(worker: nat)
    | FinishStep(worker: nat)

  function Fresh<V>(n: nat): Pool<V> {
    Pool([], false, seq(n, _ => Ready), [], [], 0)
  }

  predicate Sleeps<V>(p: Pool<V>, k: nat) {
    k < |p.workers| && p.workers[k].Waiting?
  }

  ghost predicate SomeoneSleeps<V>(p: Pool<V>) {
    exists k: nat :: Sleeps(p, k)
  }

  /** Signal wakes a sleeping worker, any one, if there is one. */
  ghost predicate Enabled<V>(p: Pool<V>, s: Step<V>) {
    match s
    case AddStep(_, k) => p.closed || Sleeps(p, k) || !SomeoneSleeps(p)
    case StopStep => true
    case RunStep(k) => k < |p.workers| && p.workers[k].Ready?
    case FinishStep(k) => k < |p.workers| && p.workers[k].Working?
  }

  // ---------- add, stop and the loop of runThread between two releases of the mutex ----------

  function Add<V>(p: Pool<V>, v: V, wakes: nat): Pool<V> {
    if p.closed then p
    else
      var added := p.(values := p.values + [v], accepted := p.accepted + [v]);
      if Sleeps(p, wakes) then added.(workers := p.workers[wakes := Ready]) else added
  }

  function Wake<V>(workers: seq<Worker<V>>): (r: seq<Worker<V>>)
    ensures |r| == |workers|
    ensures forall k :: 0 <= k < |r| ==> r[k] == if workers[k].Waiting? then Ready else workers[k]
  {
    seq(|workers|, k requires 0 <= k < |workers| => if workers[k].Waiting? then Ready else workers[k])
  }

  function Stop<V>(p: Pool<V>): Pool<V> {
    if p.closed then p else p.(closed := true, workers := Wake(p.workers))
  }

  /** A worker that has the mutex takes the first value, exits, or goes to sleep. */
  function RunWorker<V>(p: Pool<V>, k: nat): Pool<V>
    requires k < |p.workers|
  {
    if p.values != [] then
      p.(values := p.values[1..], taken := p.taken + [p.values[0]], workers := p.workers[k := Working(p.values[0])])
    else p.(workers := p.workers[k := if p.closed then Exited else Waiting])
  }

  function Next<V>(p: Pool<V>, s: Step<V>): Pool<V>
    requires Enabled(p, s)
  {
    match s
    case AddStep(v, k) => Add(p, v, k)
    case StopStep => Stop(p)
    case RunStep(k) => RunWorker(p, k)
    case FinishStep(k) => p.(workers := p.workers[k := Ready], finished := p.finished + 1)
  }

  // ---------- counting workers ----------

  function ReadyCount<V>(workers: seq<Worker<V>>): nat {
    if workers == [] then 0 else (if workers[0].Ready? then 1 else 0) + ReadyCount(workers[1..])
  }

  function WorkingCount<V>(workers: seq<Worker<V>>): nat {
    if workers == [] then 0 else (if workers[0].Working? then 1 else 0) + WorkingCount(workers[1..])
  }

  lemma {:induction false} CountsChange<V>(workers: seq<Worker<V>>, k: nat, w: Worker<V>)
    requires k < |workers|
    ensures ReadyCount(workers[k := w]) ==
            ReadyCount(workers) - (if workers[k].Ready? then 1 else 0) + (if w.Ready? then 1 else 0)
    ensures WorkingCount(workers[k := w]) ==
            WorkingCount(workers) - (if workers[k].Working? then 1 else 0) + (if w.Working? then 1 else 0)
  {
    if k == 0 {
      assert workers[k := w][1..] == workers[1..];
    } else {
      CountsChange(workers[1..], k - 1, w);
      assert workers[k := w][1..] == workers[1..][k - 1 := w];
    }
  }

  lemma {:induction false} WakingKeepsWorking<V>(workers: seq<Worker<V>>)
    ensures WorkingCount(Wake(workers)) == WorkingCount(workers)
  {
    if workers != [] {
      WakingKeepsWorking(workers[1..]);
      assert Wake(workers)[1..] == Wake(workers[1..]);
    }
  }

  lemma {:induction false} ReadyWorkerExists<V>(workers: seq<Worker<V>>) returns (k: nat)
    requires ReadyCount(workers) > 0
    ensures k < |workers| && workers[k].Ready?
  {
    if workers[0].Ready? {
      k := 0;
    } else {
      k := ReadyWorkerExists(workers[1..]);
      k := k + 1;
    }
  }

  lemma {:induction false} NobodyWorks<V>(workers: seq<Worker<V>>)
    requires forall k :: 0 <= k < |workers| ==> !workers[k].Working?
    ensures WorkingCount(workers) == 0
  {
    if workers != [] {
      NobodyWorks(workers[1..]);
    }
  }

  // ---------- the invariant ----------

  /** Values leave in the order they came in, each once; nobody sleeps unless as many workers as there are values are
      about to look for one; nobody exits before the pool is stopped and drained. */
  ghost predicate Inv<V>(p: Pool<V>) {
    && p.accepted == p.taken + p.values
    && |p.taken| == p.finished + WorkingCount(p.workers)
    && (SomeoneSleeps(p) ==> !p.closed && |p.values| <= ReadyCount(p.workers))
    && (forall k :: 0 <= k < |p.workers| && p.workers[k].Exited? ==> p.closed && p.values == [])
  }

  lemma FreshIsInv<V>(n: nat)
    ensures Inv(Fresh<V>(n))
  {
    NobodyWorks(Fresh<V>(n).workers);
  }

  lemma AddKeepsInv<V>(p: Pool<V>, v: V, wakes: nat)
    requires Inv(p) && Enabled(p, AddStep(v, wakes))
    ensures Inv(Add(p, v, wakes))
  {
    var r := Add(p, v, wakes);
    assert p.taken + p.values + [v] == p.taken + (p.values + [v]);
    if !p.closed && Sleeps(p, wakes) {
      CountsChange(p.workers, wakes, Ready);
    }
    if k: nat :| Sleeps(r, k) {
      assert p.closed || Sleeps(p, k);
    }
  }

  lemma RunKeepsInv<V>(p: Pool<V>, k: nat)
    requires Inv(p) && Enabled(p, RunStep(k))
    ensures Inv(RunWorker(p, k))
  {
    var r := RunWorker(p, k);
    CountsChange(p.workers, k, r.workers[k]);
    forall j: nat | Sleeps(r, j)
      ensures Sleeps(p, j) || (j == k && p.values == [] && !p.closed)
    {
    }
    if p.values != [] {
      assert p.taken + p.values == p.taken + [p.values[0]] + p.values[1..];
    }
  }

  lemma StepKeepsInv<V>(p: Pool<V>, s: Step<V>)
    requires Inv(p) && Enabled(p, s)
    ensures Inv(Next(p, s))
  {
    match s
    case AddStep(v, k) => AddKeepsInv(p, v, k);
    case StopStep =>
      WakingKeepsWorking(p.workers);
    case RunStep(k) => RunKeepsInv(p, k);
    case FinishStep(k) =>
      CountsChange(p.workers, k, Ready);
      if j: nat :| Sleeps(Next(p, s), j) {
        assert Sleeps(p, j);
      }
  }

  ghost predicate Run<V>(p: Pool<V>, steps: seq<Step<V>>, r: Pool<V>)
    decreases |steps|
  {
    if steps == [] then p == r else Enabled(p, steps[0]) && Run(Next(p, steps[0]), steps[1..], r)
  }

  lemma {:induction false} RunsKeepInv<V>(p: Pool<V>, steps: seq<Step<V>>, r: Pool<V>)
    requires Inv(p) && Run(p, steps, r)
    ensures Inv(r)
    decreases |steps|
  {
    hide Inv, Enabled, Next;
    if steps != [] {
      StepKeepsInv(p, steps[0]);
      RunsKeepInv(Next(p, steps[0]), steps[1..], r);
    }
  }

  // ---------- what every run guarantees ----------

  /** First in, first out, each value once: what has been dequeued and what is queued make up what was accepted. */
  lemma FifoExactlyOnce<V>(n: nat, steps: seq<Step<V>>, p: Pool<V>)
    requires Run(Fresh<V>(n), steps, p)
    ensures p.accepted == p.taken + p.values
  {
    FreshIsInv<V>(n);
    RunsKeepInv(Fresh<V>(n), steps, p);
  }

  /** No lost wake-up: while a worker sleeps beside queued values, another is on its way to each of them. */
  lemma NobodySleepsBesideWork<V>(n: nat, steps: seq<Step<V>>, p: Pool<V>, sleeper: nat)
    requires Run(Fresh<V>(n), steps, p) && Sleeps(p, sleeper) && p.values != []
    ensures !p.closed && |p.values| <= ReadyCount(p.workers)
    ensures exists k: nat :: Enabled(p, RunStep(k)) && RunWorker(p, k).taken == p.taken + [p.values[0]]
  {
    FreshIsInv<V>(n);
    RunsKeepInv(Fresh<V>(n), steps, p);
    var k := ReadyWorkerExists(p.workers);
    assert Enabled(p, RunStep(k)) && RunWorker(p, k).taken == p.taken + [p.values[0]];
  }

  /** A worker exits only after the pool was stopped and every accepted value was taken; when all have exited, every
      accepted value has been processed. */
  lemma ExitMeansDrained<V>(n: nat, steps: seq<Step<V>>, p: Pool<V>, k: nat)
    requires Run(Fresh<V>(n), steps, p) && k < |p.workers| && p.workers[k].Exited?
    ensures p.closed && p.taken == p.accepted
    ensures (forall j :: 0 <= j < |p.workers| ==> p.workers[j].Exited?) ==> p.finished == |p.accepted|
  {
    FreshIsInv<V>(n);
    RunsKeepInv(Fresh<V>(n), steps, p);
    assert p.taken + [] == p.taken;
    if forall j :: 0 <= j < |p.workers| ==> p.workers[j].Exited? {
      NobodyWorks(p.workers);
    }
  }

  // ---------- shutdown terminates ----------

  predicate AllExited<V>(p: Pool<V>) {
    forall k :: 0 <= k < |p.workers| ==> p.workers[k].Exited?
  }

  /** Steps the workers still have to make once the pool is closed. */
  function Remaining<V>(p: Pool<V>): nat {
    3 * |p.values| + 2 * WorkingCount(p.workers) + ReadyCount(p.workers)
  }

  /** A closed pool always has a step to make until all workers have exited, and each one brings the end closer;
      nothing is accepted any more. */
  lemma ShutdownTerminates<V>(n: nat, steps: seq<Step<V>>, p: Pool<V>)
    requires Run(Fresh<V>(n), steps, p) && p.closed
    ensures AllExited(p) || exists k: nat :: Enabled(p, RunStep(k)) || Enabled(p, FinishStep(k))
    ensures forall k: nat :: Enabled(p, RunStep(k)) ==> Remaining(RunWorker(p, k)) < Remaining(p)
    ensures forall k: nat :: Enabled(p, FinishStep(k)) ==> Remaining(Next(p, FinishStep(k))) < Remaining(p)
    ensures forall v, k: nat :: Add(p, v, k) == p
  {
    FreshIsInv<V>(n);
    RunsKeepInv(Fresh<V>(n), steps, p);
    if !AllExited(p) {
      var k :| 0 <= k < |p.workers| && !p.workers[k].Exited?;
      assert !Sleeps(p, k);
      assert Enabled(p, RunStep(k)) || Enabled(p, FinishStep(k));
    }
    forall k: nat | Enabled(p, RunStep(k))
      ensures Remaining(RunWorker(p, k)) < Remaining(p)
    {
      CountsChange(p.workers, k, RunWorker(p, k).workers[k]);
    }
    forall k: nat | Enabled(p, FinishStep(k))
      ensures Remaining(Next(p, FinishStep(k))) < Remaining(p)
    {
      CountsChange(p.workers, k, Ready);
    }
  }

  ghost predicate WorkOnly<V>(steps: seq<Step<V>>) {
    forall i :: 0 <= i < |steps| ==> steps[i].RunStep? || steps[i].FinishStep?
  }

  /** Running or finishing brings a pool closer to its end, closed or not. */
  lemma WorkShrinksThePool<V>(p: Pool<V>, s: Step<V>)
    requires Enabled(p, s) && (s.RunStep? || s.FinishStep?)
    ensures Remaining(Next(p, s)) < Remaining(p)
    ensures Next(p, s).closed == p.closed && |Next(p, s).workers| == |p.workers|
  {
    CountsChange(p.workers, s.worker, Next(p, s).workers[s.worker]);
  }

  /** However the scheduler chooses, the workers of a pool that gets nothing new make at most so many steps. */
  lemma {:induction false} WorkIsBounded<V>(p: Pool<V>, steps: seq<Step<V>>, r: Pool<V>)
    requires Run(p, steps, r) && WorkOnly(steps)
    ensures |steps| + Remaining(r) <= Remaining(p)
    decreases |steps|
  {
    hide Enabled, Next, Remaining;
    if steps != [] {
      assert steps[0].RunStep? || steps[0].FinishStep?;
      WorkShrinksThePool(p, steps[0]);
      WorkIsBounded(Next(p, steps[0]), steps[1..], r);
    }
  }

  // ---------- two pools ----------

  /** A process a sandbox worker has handed to the runner pool, the `serial`th of all. */
  datatype Process = Process(owner: nat, serial: nat)

  /** Sandbox workers hand processes to the runner pool while they work, and wait for each; `waiting` says for which.
      The runner pool is stopped once every sandbox worker has exited. `started` counts the processes, and `rejected`
      records one that the runner pool refused. */
  datatype Pools<J> = Pools(
    sandbox: Pool<J>, runner: Pool<Process>, waiting: map<nat, Process>, started: nat, rejected: bool)

  datatype Move<J> =
    | SandboxMove(jobStep: Step<J>)
    | ProcessMove(worker: nat, wakes: nat)
    | RunnerMove(processStep: Step<Process>)
    | DoneMove(thread: nat)
    | StopRunnerMove

  /** The process has not told its owner yet that it is done. */
  predicate Awaited<J>(w: Pools<J>, f: Process) {
    f.owner in w.waiting && w.waiting[f.owner] == f
  }

  ghost predicate CanMove<J>(w: Pools<J>, m: Move<J>) {
    match m
    case SandboxMove(s) => Enabled(w.sandbox, s) && (s.FinishStep? ==> s.worker !in w.waiting)
    case ProcessMove(k, wakes) =>
      && k < |w.sandbox.workers| && w.sandbox.workers[k].Working? && k !in w.waiting
      && Enabled(w.runner, AddStep(Process(k, w.started), wakes))
    case RunnerMove(s) =>
      && Enabled(w.runner, s)
      && (s.RunStep? || (s.FinishStep? && !Awaited(w, w.runner.workers[s.worker].value)))
    case DoneMove(j) =>
      j < |w.runner.workers| && w.runner.workers[j].Working? && Awaited(w, w.runner.workers[j].value)
    case StopRunnerMove => AllExited(w.sandbox) && !w.runner.closed
  }

  function MoveTo<J>(w: Pools<J>, m: Move<J>): Pools<J>
    requires CanMove(w, m)
  {
    match m
    case SandboxMove(s) => w.(sandbox := Next(w.sandbox, s))
    case ProcessMove(k, wakes) =>
      if w.runner.closed then w.(rejected := true)
      else
        var f := Process(k, w.started);
        w.(runner := Add(w.runner, f, wakes), waiting := w.waiting[k := f], started := w.started + 1)
    case RunnerMove(s) => w.(runner := Next(w.runner, s))
    case DoneMove(j) => w.(waiting := w.waiting - {w.runner.workers[j].value.owner})
    case StopRunnerMove => w.(runner := Stop(w.runner))
  }

  ghost predicate Moves<J>(w: Pools<J>, moves: seq<Move<J>>, r: Pools<J>)
    decreases |moves|
  {
    if moves == [] then w == r else CanMove(w, moves[0]) && Moves(MoveTo(w, moves[0]), moves[1..], r)
  }

  function Start<J>(sandboxes: nat, threads: nat): Pools<J> {
    Pools(Fresh<J>(sandboxes), Fresh<Process>(threads), map[], 0, false)
  }

  /** Exited workers stay so. */
  lemma ExitIsFinal<V>(p: Pool<V>, s: Step<V>)
    requires Enabled(p, s) && AllExited(p)
    ensures AllExited(Next(p, s))
  {
  }

  predicate Runs(p: Pool<Process>, j: nat, f: Process) {
    j < |p.workers| && p.workers[j] == Working(f)
  }

  /** The process is queued or runs. */
  ghost predicate InRunner(p: Pool<Process>, f: Process) {
    f in p.values || exists j: nat :: Runs(p, j, f)
  }

  /** A waiting worker is at work, and its process is on the way. */
  ghost predicate WaitsOK<J>(w: Pools<J>, k: nat)
    requires k in w.waiting
  {
    && k < |w.sandbox.workers| && w.sandbox.workers[k].Working?
    && w.waiting[k].owner == k && InRunner(w.runner, w.waiting[k])
  }

  ghost predicate OrderlyShutdown<J>(w: Pools<J>) {
    && !w.rejected
    && (w.runner.closed ==> AllExited(w.sandbox))
    && Inv(w.sandbox) && Inv(w.runner)
    && (forall k {:trigger WaitsOK(w, k)} :: k in w.waiting ==> WaitsOK(w, k))
  }

  /** A process leaves the runner pool only when it ends. */
  lemma RunnerKeepsProcess(p: Pool<Process>, s: Step<Process>, f: Process)
    requires Enabled(p, s) && InRunner(p, f)
    requires s.FinishStep? ==> p.workers[s.worker].value != f
    ensures InRunner(Next(p, s), f)
  {
    var r := Next(p, s);
    if f in p.values {
      if s.RunStep? && f !in r.values {
        assert f == p.values[0];
        assert Runs(r, s.worker, f);
      }
    } else {
      var j: nat :| Runs(p, j, f);
      assert Runs(r, j, f);
    }
  }

  lemma WaitsCarryOver<J>(w: Pools<J>, m: Move<J>, k: nat)
    requires OrderlyShutdown(w) && CanMove(w, m) && !m.ProcessMove?
    requires k in MoveTo(w, m).waiting && k in w.waiting && MoveTo(w, m).waiting[k] == w.waiting[k]
    ensures WaitsOK(MoveTo(w, m), k)
  {
    assert WaitsOK(w, k);
    hide Inv;
    match m
    case SandboxMove(s) =>
    case RunnerMove(s) => RunnerKeepsProcess(w.runner, s, w.waiting[k]);
    case DoneMove(j) =>
    case StopRunnerMove =>
  }

  lemma ProcessKeepsOrder<J>(w: Pools<J>, k: nat, wakes: nat)
    requires OrderlyShutdown(w) && CanMove(w, ProcessMove(k, wakes))
    ensures OrderlyShutdown(MoveTo(w, ProcessMove(k, wakes)))
  {
    var f := Process(k, w.started);
    var r := MoveTo(w, ProcessMove(k, wakes));
    StepKeepsInv(w.runner, AddStep(f, wakes));
    hide Inv;
    assert !w.runner.closed;
    forall l | l in r.waiting
      ensures WaitsOK(r, l)
    {
      if l == k {
        assert f in r.runner.values;
      } else {
        assert WaitsOK(w, l);
        RunnerKeepsProcess(w.runner, AddStep(f, wakes), w.waiting[l]);
      }
    }
  }

  lemma MoveKeepsOrder<J>(w: Pools<J>, m: Move<J>)
    requires OrderlyShutdown(w) && CanMove(w, m)
    ensures OrderlyShutdown(MoveTo(w, m))
  {
    match m {
      case SandboxMove(s) =>
        StepKeepsInv(w.sandbox, s);
        if w.runner.closed {
          ExitIsFinal(w.sandbox, s);
        }
      case ProcessMove(k, wakes) => ProcessKeepsOrder(w, k, wakes);
      case RunnerMove(s) => StepKeepsInv(w.runner, s);
      case DoneMove(j) =>
      case StopRunnerMove => StepKeepsInv(w.runner, StopStep);
    }
    if !m.ProcessMove? {
      var r := MoveTo(w, m);
      hide Inv, Enabled, Next, Stop;
      forall k | k in r.waiting
        ensures WaitsOK(r, k)
      {
        WaitsCarryOver(w, m, k);
      }
    }
  }

  lemma {:induction false} MovesKeepOrder<J>(w: Pools<J>, moves: seq<Move<J>>, r: Pools<J>)
    requires OrderlyShutdown(w) && Moves(w, moves, r)
    ensures OrderlyShutdown(r)
    ensures |r.runner.workers| == |w.runner.workers|
    decreases |moves|
  {
    if moves != [] {
      MoveKeepsOrder(w, moves[0]);
      hide OrderlyShutdown;
      MovesKeepOrder(MoveTo(w, moves[0]), moves[1..], r);
    }
  }

  lemma RunIsOrderly<J>(sandboxes: nat, threads: nat, moves: seq<Move<J>>, w: Pools<J>)
    requires Moves(Start<J>(sandboxes, threads), moves, w)
    ensures OrderlyShutdown(w) && |w.runner.workers| == threads
  {
    FreshIsInv<J>(sandboxes);
    FreshIsInv<Process>(threads);
    MovesKeepOrder(Start<J>(sandboxes, threads), moves, w);
  }

  /** No process is ever rejected: while a sandbox worker is alive the runner pool is open, and a process somebody waits
      for is queued or runs. */
  lemma NoProcessIsRejected<J>(sandboxes: nat, threads: nat, moves: seq<Move<J>>, w: Pools<J>)
    requires Moves(Start<J>(sandboxes, threads), moves, w)
    ensures !w.rejected
    ensures (exists k :: 0 <= k < |w.sandbox.workers| && !w.sandbox.workers[k].Exited?) ==> !w.runner.closed
    ensures forall k :: k in w.waiting ==> InRunner(w.runner, w.waiting[k])
  {
    RunIsOrderly(sandboxes, threads, moves, w);
    forall k | k in w.waiting
      ensures InRunner(w.runner, w.waiting[k])
    {
      assert WaitsOK(w, k);
    }
  }

  // ---------- both pools come to an end ----------

  /** A move the invoker makes by itself: no new job, no new process. */
  predicate Settles<J>(m: Move<J>) {
    match m
    case SandboxMove(s) => s.RunStep? || s.FinishStep?
    case ProcessMove(_, _) => false
    case _ => true
  }

  ghost predicate CanSettle<J(!new)>(w: Pools<J>) {
    exists m :: Settles(m) && CanMove(w, m)
  }

  /** A runner thread that has a process can tell its owner, or is done with it. */
  lemma WorkingThreadMoves<J(!new)>(w: Pools<J>, j: nat)
    requires j < |w.runner.workers| && w.runner.workers[j].Working?
    ensures CanSettle(w)
  {
    assert CanMove(w, if Awaited(w, w.runner.workers[j].value) then DoneMove(j) else RunnerMove(FinishStep(j)));
  }

  /** A queued process is taken by somebody, or some thread is busy with another. */
  lemma QueuedProcessMoves<J(!new)>(w: Pools<J>)
    requires Inv(w.runner) && w.runner.values != [] && !w.runner.closed && |w.runner.workers| > 0
    ensures CanSettle(w)
  {
    if w.runner.workers[0].Working? {
      WorkingThreadMoves(w, 0);
    } else {
      if w.runner.workers[0].Waiting? {
        assert Sleeps(w.runner, 0);
      }
      var j := 0;
      if !w.runner.workers[0].Ready? {
        j := ReadyWorkerExists(w.runner.workers);
      }
      assert CanMove(w, RunnerMove(RunStep(j)));
    }
  }

  lemma SandboxWorkerMoves<J(!new)>(w: Pools<J>, k: nat)
    requires OrderlyShutdown(w) && w.sandbox.closed && |w.runner.workers| > 0
    requires k < |w.sandbox.workers| && !w.sandbox.workers[k].Exited?
    ensures CanSettle(w)
  {
    assert !Sleeps(w.sandbox, k);
    if w.sandbox.workers[k].Ready? {
      assert CanMove(w, SandboxMove(RunStep(k)));
    } else if k !in w.waiting {
      assert CanMove(w, SandboxMove(FinishStep(k)));
    } else {
      assert WaitsOK(w, k);
      hide Inv;
      if w.waiting[k] in w.runner.values {
        QueuedProcessMoves(w);
      } else {
        var j: nat :| Runs(w.runner, j, w.waiting[k]);
        WorkingThreadMoves(w, j);
      }
    }
  }

  lemma RunnerThreadMoves<J(!new)>(w: Pools<J>, j: nat)
    requires OrderlyShutdown(w) && w.runner.closed && j < |w.runner.workers| && !w.runner.workers[j].Exited?
    ensures CanSettle(w)
  {
    assert !Sleeps(w.runner, j);
    if w.runner.workers[j].Working? {
      WorkingThreadMoves(w, j);
    } else {
      assert CanMove(w, RunnerMove(RunStep(j)));
    }
  }

  /** What is left to do in both pools. */
  function Rest<J>(w: Pools<J>): nat {
    Remaining(w.sandbox) + Remaining(w.runner) + |w.waiting| + (if w.runner.closed then 0 else |w.runner.workers| + 1)
  }

  lemma {:induction false} WakingAddsAtMostAll<V>(workers: seq<Worker<V>>)
    ensures ReadyCount(Wake(workers)) <= ReadyCount(workers) + |workers|
  {
    if workers != [] {
      WakingAddsAtMostAll(workers[1..]);
      assert Wake(workers)[1..] == Wake(workers[1..]);
    }
  }

  lemma SettlingShrinks<J>(w: Pools<J>, m: Move<J>)
    requires CanMove(w, m) && Settles(m)
    ensures Rest(MoveTo(w, m)) < Rest(w)
  {
    match m
    case SandboxMove(s) => WorkShrinksThePool(w.sandbox, s);
    case RunnerMove(s) => WorkShrinksThePool(w.runner, s);
    case DoneMove(j) =>
      var k := w.runner.workers[j].value.owner;
      assert w.waiting.Keys == (w.waiting - {k}).Keys + {k};
      assert |w.waiting.Keys| == |(w.waiting - {k}).Keys| + 1;
    case StopRunnerMove =>
      WakingAddsAtMostAll(w.runner.workers);
      WakingKeepsWorking(w.runner.workers);
  }

  /** There is no deadlock: after the sandbox pool was stopped, and with a thread to run processes, some worker can
      always move until all workers of both pools have exited, although sandbox workers wait for their processes;
      without new processes every such move brings the end closer. */
  lemma BothPoolsComeToAnEnd<J(!new)>(sandboxes: nat, threads: nat, moves: seq<Move<J>>, w: Pools<J>)
    requires Moves(Start<J>(sandboxes, threads), moves, w) && w.sandbox.closed && threads > 0
    ensures CanSettle(w) || (AllExited(w.sandbox) && AllExited(w.runner))
    ensures forall m :: Settles(m) && CanMove(w, m) ==> Rest(MoveTo(w, m)) < Rest(w)
  {
    RunIsOrderly(sandboxes, threads, moves, w);
    if !AllExited(w.sandbox) {
      var k :| 0 <= k < |w.sandbox.workers| && !w.sandbox.workers[k].Exited?;
      SandboxWorkerMoves(w, k);
    } else if !w.runner.closed {
      var stop: Move<J> := StopRunnerMove;
      assert CanMove(w, stop) && Settles(stop);
    } else if !AllExited(w.runner) {
      var j :| 0 <= j < |w.runner.workers| && !w.runner.workers[j].Exited?;
      RunnerThreadMoves(w, j);
    }
    forall m | Settles(m) && CanMove(w, m)
      ensures Rest(MoveTo(w, m)) < Rest(w)
    {
      SettlingShrinks(w, m);
    }
  }

  ghost predicate OnlySettles<J>(moves: seq<Move<J>>) {
    forall i :: 0 <= i < |moves| ==> Settles(moves[i])
  }

  /** However the scheduler chooses, both pools make at most so many moves without a new job or process. */
  lemma {:induction false} SettlingIsBounded<J>(w: Pools<J>, moves: seq<Move<J>>, r: Pools<J>)
    requires Moves(w, moves, r) && OnlySettles(moves)
    ensures |moves| + Rest(r) <= Rest(w)
    decreases |moves|
  {
    hide CanMove, MoveTo, Rest, Settles;
    if moves != [] {
      SettlingShrinks(w, moves[0]);
      SettlingIsBounded(MoveTo(w, moves[0]), moves[1..], r);
    }
  }

  /** Without a runner thread there is one: a worker that waits for its process can never be finished. */
  lemma NoThreadsNoEnd<J>(w: Pools<J>, k: nat, m: Move<J>)
    requires OrderlyShutdown(w) && |w.runner.workers| == 0 && k in w.waiting && CanMove(w, m)
    ensures k in MoveTo(w, m).waiting && !AllExited(MoveTo(w, m).sandbox)
  {
    MoveKeepsOrder(w, m);
    assert WaitsOK(w, k) && k in MoveTo(w, m).waiting;
    assert WaitsOK(MoveTo(w, m), k);
  }
}
