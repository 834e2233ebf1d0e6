/** Counting semaphores with one wait queue for all of them.  The class follows semaphore.c;
    `Kernel` and the functions on it are its specification.  Each call is atomic: cli to sti,
    with the switch inside `acquire` following the last access. */
module Semaphores {
  import opened Basics

  const SEMAPHORE_MAXCOUNT: nat := 256
  const PRIORITY_TYPES: nat := 5
  const STATE_READY: nat := 1
  const STATE_WAITING: nat := 3

  datatype Sem = Sem(maxCount: int, count: int, isAlloced: bool)

  const FREE_SEM := Sem(0, 0, false)

  /** `useCount` and `tasks` are the slab manager's UseCount of semaphores and of tasks; processes
      are named by PID. */
  datatype Kernel = Kernel(pool: seq<Sem>, useCount: int, waitQueue: seq<nat>, ready: seq<seq<nat>>,
                           pflag: seq<nat>, priority: seq<nat>, tasks: nat)

  predicate WellFormed(k: Kernel) {
    && |k.pool| == SEMAPHORE_MAXCOUNT && |k.ready| == PRIORITY_TYPES
    && |k.pflag| == |k.priority| == TASKPOOL_MAXCOUNT && k.tasks <= TASKPOOL_MAXCOUNT
    && (forall j :: 0 <= j < |k.waitQueue| ==> k.waitQueue[j] < TASKPOOL_MAXCOUNT)
    && (forall p :: 0 <= p < |k.priority| ==> k.priority[p] < PRIORITY_TYPES)
  }

  function Counted(k: Kernel, lock: nat, c: int): Kernel
    requires lock < |k.pool|
  {
    k.(pool := k.pool[lock := k.pool[lock].(count := c)])
  }

  /** Add_Task_in_Tail queues nothing while every slot of the task pool is in use. */
  predicate PoolFull(tasks: nat) {
    tasks == TASKPOOL_MAXCOUNT
  }

  function Enlisted(queue: seq<nat>, p: nat, tasks: nat): seq<nat> {
    if PoolFull(tasks) then queue else queue + [p]
  }

  /** `acquire` by process `p`: the new state, and whether the permit was granted. */
  function Acquired(k: Kernel, p: nat, lock: nat): (Kernel, bool)
    requires WellFormed(k) && p < TASKPOOL_MAXCOUNT && lock < SEMAPHORE_MAXCOUNT
  {
    var k1 := Counted(k, lock, k.pool[lock].count - 1);
    if k1.pool[lock].count < 0
    then (k1.(waitQueue := Enlisted(k.waitQueue, p, k.tasks), pflag := k.pflag[p := STATE_WAITING]), false)
    else (k1, true)
  }

  /** The process at the head of the wait queue leaves it. */
  function Dequeued(k: Kernel): Kernel
    requires k.waitQueue != []
  {
    k.(waitQueue := k.waitQueue[1..])
  }

  /** A process is marked ready and goes to a ready queue. */
  function MadeReady(k: Kernel, p: nat, q: nat): Kernel
    requires WellFormed(k) && p < TASKPOOL_MAXCOUNT && q < PRIORITY_TYPES
  {
    k.(ready := k.ready[q := Enlisted(k.ready[q], p, k.tasks)], pflag := k.pflag[p := STATE_READY])
  }

  /** Whether `release` gets past its guard and then finds somebody owed a permit. */
  predicate Wakes(k: Kernel, lock: nat)
    requires lock < |k.pool|
  {
    k.pool[lock].count < k.pool[lock].maxCount && k.pool[lock].count < 0 && k.waitQueue != []
  }

  /** `release`, with its test for an empty queue read as a comparison. */
  function Released(k: Kernel, lock: nat): Kernel
    requires WellFormed(k) && lock < SEMAPHORE_MAXCOUNT
  {
    if k.pool[lock].count >= k.pool[lock].maxCount then k
    else
      var k1 := Counted(k, lock, k.pool[lock].count + 1);
      if Wakes(k, lock) then MadeReady(Dequeued(k1), k.waitQueue[0], k.priority[k.waitQueue[0]]) else k1
  }

  /** `release` as line 86 is written: the test assigns NULL to the process just dequeued, which
      is therefore never made ready.  (What the list code does with NULL is not modelled.) */
  function ReleasedAsWritten(k: Kernel, lock: nat): Kernel
    requires WellFormed(k) && lock < SEMAPHORE_MAXCOUNT
  {
    if k.pool[lock].count >= k.pool[lock].maxCount then k
    else
      var k1 := Counted(k, lock, k.pool[lock].count + 1);
      if Wakes(k, lock) then Dequeued(k1) else k1
  }

  /** A sequence without the first occurrence of `p`. */
  function Without(s: seq<nat>, p: nat): seq<nat> {
    if s == [] then []
    else if s[0] == p then s[1..]
    else [s[0]] + Without(s[1..], p)
  }

  /** The first slot from `i` on that is not allocated, if any. */
  function FirstFree(pool: seq<Sem>, i: nat): (r: Option<nat>)
    ensures r.Some? ==> i <= r.value < |pool| && !pool[r.value].isAlloced
    ensures forall j :: i <= j < (if r.Some? then r.value else |pool|) ==> pool[j].isAlloced
    decreases |pool| - i
  {
    if i >= |pool| then None
    else if !pool[i].isAlloced then Some(i)
    else FirstFree(pool, i + 1)
  }

  function Allocated(k: Kernel, count: int): (Kernel, Option<nat>) {
    var slot := FirstFree(k.pool, 0);
    if count <= 0 || slot.None? then (k, None)
    else (k.(pool := k.pool[slot.value := Sem(count, count, true)], useCount := k.useCount - 1), slot)
  }

  function Freed(k: Kernel, lock: nat): Kernel
    requires lock < |k.pool|
  {
    k.(pool := k.pool[lock := FREE_SEM], useCount := k.useCount + 1)
  }

  /** The attempt in full: granted exactly if the count was positive, and what a caller that blocks
      changes besides the count. */
  lemma AcquireChanges(k: Kernel, p: nat, lock: nat)
    requires WellFormed(k) && p < TASKPOOL_MAXCOUNT && lock < SEMAPHORE_MAXCOUNT
    ensures var (k', granted) := Acquired(k, p, lock);
      && (granted <==> k.pool[lock].count > 0)
      && k' == k.(pool := k'.pool, waitQueue := k'.waitQueue, pflag := k'.pflag)
      && k'.pool == k.pool[lock := k.pool[lock].(count := k.pool[lock].count - 1)]
      && k'.waitQueue == k.waitQueue + (if granted || k.tasks == 2048 then [] else [p])
      && k'.pflag == if granted then k.pflag else k.pflag[p := 3]
  {
  }

  /** A release that owes somebody a permit takes the head of the wait queue, marks it ready and puts
      it at the tail of the ready queue of its own priority; no other ready queue changes. */
  lemma WokenGoesToItsQueue(k: Kernel, lock: nat)
    requires WellFormed(k) && lock < SEMAPHORE_MAXCOUNT
    requires k.pool[lock].count < k.pool[lock].maxCount && k.pool[lock].count < 0 && k.waitQueue != []
    ensures var k', p := Released(k, lock), k.waitQueue[0];
      && k' == k.(pool := k'.pool, waitQueue := k.waitQueue[1..], ready := k'.ready, pflag := k.pflag[p := 1])
      && k'.pool == k.pool[lock := k.pool[lock].(count := k.pool[lock].count + 1)]
      && |k'.ready| == |k.ready|
      && (forall q :: 0 <= q < |k.ready| ==>
        k'.ready[q] == k.ready[q] + if q == k.priority[p] && k.tasks < 2048 then [p] else [])
  {
  }

  /** Every other release changes the count at most, and not even that at MaxCount. */
  lemma OtherReleases(k: Kernel, lock: nat)
    requires WellFormed(k) && lock < SEMAPHORE_MAXCOUNT
    requires k.pool[lock].count >= 0 || k.waitQueue == [] || k.pool[lock].count >= k.pool[lock].maxCount
    ensures Released(k, lock) ==
      if k.pool[lock].count >= k.pool[lock].maxCount then k
      else k.(pool := k.pool[lock := k.pool[lock].(count := k.pool[lock].count + 1)])
  {
  }

  /** A process withdrawn leaves its first place in the queue; all others keep their order. */
  lemma {:induction false} WithdrawnFromPlace(s: seq<nat>, p: nat, i: nat)
    requires i <= |s| && p !in s[..i] && (i < |s| ==> s[i] == p)
    ensures Without(s, p) == s[..i] + if i < |s| then s[i + 1..] else []
  {
    if i > 0 {
      assert s[..i][0] == s[0];
      assert s[..i] == [s[0]] + s[1..][..i - 1];
      WithdrawnFromPlace(s[1..], p, i - 1);
    }
  }

  class SemaphoreTable {
    const pool: array<Sem>
    const ready: array<seq<nat>>
    const pflag: array<nat>
    const priority: seq<nat>
    var useCount: int
    var tasks: nat
    var waitQueue: seq<nat>

    constructor (priority: seq<nat>, tasks: nat)
      requires tasks <= TASKPOOL_MAXCOUNT
      requires |priority| == TASKPOOL_MAXCOUNT && forall p :: 0 <= p < |priority| ==> priority[p] < PRIORITY_TYPES
      ensures WellFormed(State()) && waitQueue == []
      ensures fresh(pool) && fresh(ready) && fresh(pflag)
    {
      this.pool := new Sem[SEMAPHORE_MAXCOUNT];
      this.ready := new seq<nat>[PRIORITY_TYPES](_ => []);
      this.pflag := new nat[TASKPOOL_MAXCOUNT];
      this.priority, this.tasks, useCount, waitQueue := priority, tasks, 0, [];
    }

    function State(): Kernel
      reads this, pool, ready, pflag
    {
      Kernel(pool[..], useCount, waitQueue, ready[..], pflag[..], priority, tasks)
    }

    /** The scheduler's list function; its callers here ignore whether it succeeded. */
    method AddTaskInTail(p: nat, queue: seq<nat>) returns (queue': seq<nat>, added: bool)
      ensures queue' == Enlisted(queue, p, tasks) && (added <==> !PoolFull(tasks))
    {
      if tasks == TASKPOOL_MAXCOUNT {
        return queue, false;
      }
      return queue + [p], true;
    }

    method InitSemaphore()
      requires WellFormed(State())
      modifies this`useCount, pool
      ensures WellFormed(State())
      ensures State() == old(State()).(pool := pool[..], useCount := 0)
      ensures forall i :: 0 <= i < SEMAPHORE_MAXCOUNT ==> pool[i] == Sem(0, 0, false)
    {
      useCount := 0;
      for i := 0 to SEMAPHORE_MAXCOUNT
        invariant forall j :: 0 <= j < i ==> pool[j] == FREE_SEM
        invariant State() == old(State()).(pool := pool[..], useCount := 0)
      {
        pool[i] := FREE_SEM;
      }
    }

    /** The guard at line 26 compares two array addresses, which never are equal; so the pool is
        full only if the scan finds no free slot. */
    method AllocSemaphore(count: int) returns (handle: Option<nat>)
      requires WellFormed(State())
      modifies this`useCount, pool
      ensures (State(), handle) == Allocated(old(State()), count)
    {
      if count <= 0 {
        return None;
      }
      for i := 0 to SEMAPHORE_MAXCOUNT
        invariant State() == old(State())
        invariant FirstFree(pool[..], 0) == FirstFree(pool[..], i)
      {
        if !pool[i].isAlloced {
          pool[i] := Sem(count, count, true);
          useCount := useCount - 1;
          return Some(i);
        }
      }
      return None;
    }

    method FreeSemaphore(lock: nat)
      requires WellFormed(State()) && lock < SEMAPHORE_MAXCOUNT
      modifies this`useCount, pool
      ensures State() == Freed(old(State()), lock)
    {
      pool[lock] := FREE_SEM;
      useCount := useCount + 1;
    }

    method Acquire(current: nat, lock: nat) returns (granted: bool)
      requires WellFormed(State()) && current < TASKPOOL_MAXCOUNT && lock < SEMAPHORE_MAXCOUNT
      modifies this`waitQueue, pool, pflag
      ensures (State(), granted) == Acquired(old(State()), current, lock)
    {
      pool[lock] := pool[lock].(count := pool[lock].count - 1);
      if pool[lock].count < 0 {
        var added;
        waitQueue, added := AddTaskInTail(current, waitQueue);
        pflag[current] := STATE_WAITING;
        return false;
      }
      return true;
    }

    method Release(lock: nat)
      requires WellFormed(State()) && lock < SEMAPHORE_MAXCOUNT
      modifies this`waitQueue, pool, pflag, ready
      ensures State() == Released(old(State()), lock)
    {
      if pool[lock].count >= pool[lock].maxCount {
        return;
      }
      pool[lock] := pool[lock].(count := pool[lock].count + 1);
      if pool[lock].count <= 0 {
        if waitQueue == [] {
          return;
        }
        var process := waitQueue[0];
        waitQueue := waitQueue[1..];
        var q := priority[process];
        var queue, added := AddTaskInTail(process, ready[q]);
        ready[q] := queue;
        pflag[process] := STATE_READY;
      }
    }

    method RemoveFromWaitQueue(process: nat)
      modifies this`waitQueue
      ensures State() == old(State()).(waitQueue := Without(old(waitQueue), process))
    {
      var i := 0;
      while i < |waitQueue|
        invariant i <= |waitQueue| && waitQueue == old(waitQueue) && process !in waitQueue[..i]
      {
        if waitQueue[i] == process {
          WithdrawnFromPlace(waitQueue, process, i);
          waitQueue := waitQueue[..i] + waitQueue[i + 1..];
          return;
        }
        i := i + 1;
      }
      WithdrawnFromPlace(waitQueue, process, i);
    }
  }
}
