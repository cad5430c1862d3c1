/** task_pool of task.h: n tasks recycled through an mpmc queue built for n + 1
    elements. Tasks are the numbers below `capacity`. */
module TaskPool {
  import opened ChunkQueue
  import opened Mpmc

  /** The tasks in a pool are different ones of its own. */
  ghost predicate Tasks(xs: seq<nat>, n: nat)
  {
    Distinct(xs) && forall i | 0 <= i < |xs| :: xs[i] < n
  }

  /** While a task is out, the queue has room for it. */
  lemma RoomForOne(xs: seq<nat>, x: nat, n: nat, capacity: nat, size: nat)
    requires Tasks(xs, n) && x < n && x !in xs
    requires capacity == 3 && size == if (n + 1) / 2 > 0 then (n + 1) / 2 else 1
    ensures |xs| < (capacity - 1) * size && Tasks(xs + [x], n)
  {
    PoolSize(n, capacity, size);
    Pigeonhole(xs + [x], n);
  }

  class TaskPool {
    const capacity: nat
    const free: Mpmc<nat>
    var stopped: bool

    ghost predicate Valid()
      reads this, free
    {
      && free.Valid() && Tasks(free.Contents(), capacity) && capacity > 0
      && free.capacity == 3 && free.size == if (capacity + 1) / 2 > 0 then (capacity + 1) / 2 else 1
    }

    /** Fills the pool; with memory no push is refused, so it never throws. */
    constructor (requested: nat, c: nat, data: seq<nat>, allocate: set<nat> -> Allocation<nat>)
      requires |data| == ((if requested > 0 then requested else 1) + 1) / 2
      requires forall used :: allocate(used).Memory? && allocate(used).c !in used && |allocate(used).data| == |data|
      ensures Valid() && !stopped && fresh(free)
      ensures capacity == if requested > 0 then requested else 1
      ensures |free.Contents()| == capacity && forall i | 0 <= i < capacity :: free.Contents()[i] == i
    {
      capacity := if requested > 0 then requested else 1;
      free := new Mpmc(|data|, 2, c, data);
      stopped := false;
      new;
      for index := 0 to capacity
        invariant fresh(free) && Valid() && !stopped
        invariant |free.Contents()| == index && forall i | 0 <= i < index :: free.Contents()[i] == i
      {
        RoomForOne(free.Contents(), index, capacity, free.capacity, free.size);
        var ok := free.Push(index, allocate(free.heap.Keys));
        assert ok;
      }
    }

    /** Gives out the task that has been free longest; fails only on an empty pool. */
    method Acquire() returns (task: Popped<nat>)
      requires Valid()
      modifies free
      ensures Valid() && (task.Nothing? <==> old(free.Contents()) == [])
      ensures task.Value? ==> old(free.Contents()) == [task.t] + free.Contents()
                              && task.t < capacity && task.t !in free.Contents()
      ensures task.Nothing? ==> free.Contents() == []
    {
      task := free.Pop();
    }

    /** With memory, a task that is out is always taken back. */
    method Release(task: nat, a: Allocation<nat>) returns (ok: bool)
      requires Valid() && task < capacity && task !in free.Contents() && free.Fits(a)
      modifies free
      ensures Valid() && (a.Memory? ==> ok)
      ensures free.Contents() == if ok then old(free.Contents()) + [task] else old(free.Contents())
    {
      RoomForOne(free.Contents(), task, capacity, free.capacity, free.size);
      ok := free.Push(task, a);
    }

    /** The callback of a dispatched task: recycled unless it was stopped. Without
        memory it may be dropped; the answer of release is not looked at. */
    method Handle(task: nat, wasStopped: bool, a: Allocation<nat>)
      requires Valid() && task < capacity && task !in free.Contents() && free.Fits(a)
      modifies free
      ensures Valid()
      ensures wasStopped ==> free.Contents() == old(free.Contents())
      ensures !wasStopped && a.Memory? ==> free.Contents() == old(free.Contents()) + [task]
      ensures free.Contents() == old(free.Contents()) || free.Contents() == old(free.Contents()) + [task]
    {
      if !wasStopped {
        var _ := Release(task, a);
      }
    }

    /** True for the call that stops the pool's tasks. */
    method Stop() returns (first: bool)
      modifies this`stopped
      ensures stopped && (first <==> !old(stopped))
    {
      first := !stopped;
      stopped := true;
    }
  }
}
