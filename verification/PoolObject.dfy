/** One worker pool as an object: its sections between acquiring and releasing the mutex. */
module PoolObject {
  import opened WorkerPool

  /** What a worker does when it gives the mutex up. */
  datatype Turn<V> = Process(value: V) | Sleep | Leave

  class ThreadsExecutor<V> {
    var values: seq<V>
    var closed: bool
    const isActive: array<bool>
    /** The workers' states and the values that have passed through. */
    ghost var View: Pool<V>

    ghost predicate Valid() reads this, isActive {
      && View.values == values && View.closed == closed
      && isActive.Length == |View.workers|
      && (forall k :: 0 <= k < isActive.Length ==> (isActive[k] <==> View.workers[k].Working?))
      && Inv(View)
    }

    constructor (threadsCount: nat)
      ensures Valid() && View == Fresh<V>(threadsCount) && fresh(isActive)
    {
      values := [];
      closed := false;
      isActive := new bool[threadsCount](_ => false);
      View := Fresh<V>(threadsCount);
      FreshIsInv<V>(threadsCount);
    }

    /** `wakes` is the worker the signal reaches. */
    method AddValue(v: V, ghost wakes: nat) returns (ok: bool)
      requires Valid() && Enabled(View, AddStep(v, wakes))
      modifies this
      ensures Valid() && View == Add(old(View), v, wakes) && ok == !old(closed)
    {
      AddKeepsInv(View, v, wakes);
      hide Inv;
      if closed {
        return false;
      }
      values := values + [v];
      View := Add(View, v, wakes);
      return true;
    }

    method StopAll()
      requires Valid()
      modifies this
      ensures Valid() && View == Stop(old(View)) && closed
    {
      StepKeepsInv(View, StopStep);
      hide Inv;
      if closed {
        return;
      }
      closed := true;
      View := Stop(View);
    }

    /** One turn of the receiver loop: from getting the mutex to processing, sleeping or leaving. */
    method TakeTurn(k: nat) returns (turn: Turn<V>)
      requires Valid() && Enabled(View, RunStep(k))
      modifies this, isActive
      ensures Valid() && View == RunWorker(old(View), k)
      ensures match turn
              case Process(v) => View.workers[k] == Working(v)
              case Sleep => View.workers[k] == Waiting
              case Leave => View.workers[k] == Exited
    {
      RunKeepsInv(View, k);
      hide Inv;
      ghost var next := RunWorker(View, k);
      if |values| == 0 {
        View := next;
        return if closed then Leave else Sleep;
      }
      var value := values[0];
      values := values[1..];
      isActive[k] := true;
      View := next;
      return Turn.Process(value);
    }

    method FinishProcessing(k: nat)
      requires Valid() && Enabled(View, FinishStep(k))
      modifies this, isActive
      ensures Valid() && View == Next(old(View), FinishStep(k))
    {
      StepKeepsInv(View, FinishStep(k));
      hide Inv;
      View := Next(View, FinishStep(k));
      isActive[k] := false;
    }
  }
}
