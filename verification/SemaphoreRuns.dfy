/** Runs of many processes over the semaphore pool: where every permit is, who waits, and which
    handles are live. */
module SemaphoreRuns {
  import opened Basics
  import opened Semaphores

  /** Atomic steps.  `Dispatch` and `Preempt` stand for the scheduler: a process leaves a ready
      queue to run, or goes to one; `Schedule` lets it set priorities and the number of tasks. */
  datatype Event =
    | Acquire(p: nat, lock: nat)
    | Release(p: nat, lock: nat)
    | Withdraw(p: nat)
    | Alloc(count: int)
    | Free(lock: nat)
    | Dispatch(queue: nat, index: nat)
    | Preempt(p: nat, queue: nat)
    | Schedule(tasks: nat, priority: seq<nat>)

  /** History beside the kernel state: for every semaphore its unreleased grants and the number
      of attempts it refused since it was allocated; the handles given out and not yet freed; how
      often a process waiting was not put in the wait queue, or was taken out without a permit;
      and how many were waiting for a semaphore when it was freed. */
  datatype World = World(k: Kernel, holders: seq<multiset<nat>>, refused: seq<nat>, live: set<nat>,
                         missed: nat, orphaned: nat)

  function InReadyQueues(ready: seq<seq<nat>>): multiset<nat> {
    if ready == [] then multiset{} else multiset(ready[0]) + InReadyQueues(ready[1..])
  }

  /** Every membership of a process in a queue. */
  function Queued(k: Kernel): multiset<nat> {
    multiset(k.waitQueue) + InReadyQueues(k.ready)
  }

  predicate Running(k: Kernel, p: nat) {
    p < TASKPOOL_MAXCOUNT && p !in Queued(k)
  }

  predicate Shaped(w: World) {
    WellFormed(w.k) && |w.holders| == |w.refused| == SEMAPHORE_MAXCOUNT
  }

  /** Processes run when they act, use live handles, and release what they hold. */
  predicate Allowed(w: World, e: Event)
    requires Shaped(w)
  {
    match e
    case Acquire(p, lock) => Running(w.k, p) && lock in w.live && lock < SEMAPHORE_MAXCOUNT
    case Release(p, lock) => Running(w.k, p) && lock in w.live && lock < SEMAPHORE_MAXCOUNT && p in w.holders[lock]
    case Withdraw(p) => true
    case Alloc(_) => true
    case Free(lock) => lock in w.live && lock < SEMAPHORE_MAXCOUNT
    case Dispatch(q, j) => q < PRIORITY_TYPES && j < |w.k.ready[q]|
    case Preempt(p, q) => Running(w.k, p) && q < PRIORITY_TYPES
    case Schedule(tasks, priority) => WellFormed(w.k.(tasks := tasks, priority := priority))
  }

  function AfterAcquire(w: World, p: nat, lock: nat): World
    requires Shaped(w) && p < TASKPOOL_MAXCOUNT && lock < SEMAPHORE_MAXCOUNT
  {
    var (k, granted) := Acquired(w.k, p, lock);
    if granted then w.(k := k, holders := w.holders[lock := w.holders[lock] + multiset{p}])
    else w.(k := k, refused := w.refused[lock := w.refused[lock] + 1],
            missed := w.missed + if PoolFull(w.k.tasks) then 1 else 0)
  }

  function AfterRelease(w: World, p: nat, lock: nat): World
    requires Shaped(w) && lock < SEMAPHORE_MAXCOUNT
  {
    w.(k := Released(w.k, lock), holders := w.holders[lock := w.holders[lock] - multiset{p}])
  }

  function AfterAlloc(w: World, count: int): World
    requires Shaped(w)
  {
    var (k, slot) := Allocated(w.k, count);
    if slot.None? then w
    else World(k, w.holders[slot.value := multiset{}], w.refused[slot.value := 0], w.live + {slot.value},
               w.missed, w.orphaned)
  }

  function AfterFree(w: World, lock: nat): World
    requires Shaped(w) && lock < SEMAPHORE_MAXCOUNT
  {
    w.(k := Freed(w.k, lock), live := w.live - {lock}, orphaned := w.orphaned + Max0(-w.k.pool[lock].count))
  }

  function AfterWithdraw(w: World, p: nat): World {
    w.(k := w.k.(waitQueue := Without(w.k.waitQueue, p)), missed := w.missed + if p in w.k.waitQueue then 1 else 0)
  }

  function Step(w: World, e: Event): World
    requires Shaped(w) && Allowed(w, e)
  {
    match e
    case Acquire(p, lock) => AfterAcquire(w, p, lock)
    case Release(p, lock) => AfterRelease(w, p, lock)
    case Withdraw(p) => AfterWithdraw(w, p)
    case Alloc(count) => AfterAlloc(w, count)
    case Free(lock) => AfterFree(w, lock)
    case Dispatch(q, j) =>
      w.(k := w.k.(ready := w.k.ready[q := w.k.ready[q][..j] + w.k.ready[q][j + 1..]]))
    case Preempt(p, q) => w.(k := MadeReady(w.k, p, q))
    case Schedule(tasks, priority) => w.(k := w.k.(tasks := tasks, priority := priority))
  }

  function Max0(c: int): nat {
    if c > 0 then c else 0
  }

  /** The permits owed: the sum of max(0, -Count) over all semaphores. */
  function Owed(pool: seq<Sem>): nat {
    if pool == [] then 0 else Max0(-pool[0].count) + Owed(pool[1..])
  }

  lemma {:induction false} OwedUpdate(pool: seq<Sem>, i: nat, s: Sem)
    requires i < |pool|
    ensures Owed(pool[i := s]) == Owed(pool) - Max0(-pool[i].count) + Max0(-s.count)
  {
    if i > 0 {
      assert pool[i := s][1..] == pool[1..][i - 1 := s];
      OwedUpdate(pool[1..], i - 1, s);
    } else {
      assert pool[i := s][1..] == pool[1..];
    }
  }

  lemma {:induction false} OwedAtLeast(pool: seq<Sem>, i: nat)
    requires i < |pool|
    ensures Owed(pool) >= Max0(-pool[i].count)
  {
    if i > 0 {
      OwedAtLeast(pool[1..], i - 1);
    }
  }

  /** Count, unreleased grants and refused attempts add up to MaxCount. */
  ghost predicate Ledger(w: World)
    requires Shaped(w)
  {
    forall i :: 0 <= i < SEMAPHORE_MAXCOUNT && i in w.live ==>
      && w.k.pool[i].count + |w.holders[i]| + w.refused[i] == w.k.pool[i].maxCount
      && |w.holders[i]| <= w.k.pool[i].maxCount
  }

  ghost predicate Handles(w: World)
    requires Shaped(w)
  {
    && (forall i :: i in w.live ==> i < SEMAPHORE_MAXCOUNT)
    && (forall i :: 0 <= i < SEMAPHORE_MAXCOUNT ==> (i in w.live <==> w.k.pool[i].isAlloced))
    && (forall i :: 0 <= i < SEMAPHORE_MAXCOUNT && i !in w.live ==> w.k.pool[i] == FREE_SEM)
    && w.k.useCount == -|w.live|
  }

  ghost predicate Accounted(w: World) {
    |w.k.waitQueue| <= Owed(w.k.pool) + w.orphaned && Owed(w.k.pool) <= |w.k.waitQueue| + w.missed
  }

  /** Each process is at most once in at most one queue. */
  ghost predicate Once(k: Kernel) {
    forall p :: Queued(k)[p] <= 1
  }

  ghost predicate Books(w: World) {
    Shaped(w) && Ledger(w) && Handles(w) && Accounted(w)
  }

  /** The flag of a queued process names its queue. */
  ghost predicate Flagged(k: Kernel)
    requires WellFormed(k)
  {
    && (forall j :: 0 <= j < |k.waitQueue| ==> k.pflag[k.waitQueue[j]] == STATE_WAITING)
    && (forall q, j :: 0 <= q < PRIORITY_TYPES && 0 <= j < |k.ready[q]| ==>
      k.ready[q][j] < TASKPOOL_MAXCOUNT && k.pflag[k.ready[q][j]] == STATE_READY)
  }

  ghost predicate Inv(w: World) {
    Books(w) && Once(w.k) && Flagged(w.k)
  }

  /** The pool as Init_Semaphore leaves it, before any process has blocked. */
  ghost predicate Initial(w: World) {
    && Shaped(w) && w.live == {} && w.k.useCount == 0 && w.k.waitQueue == [] && w.missed == w.orphaned == 0
    && (forall i :: 0 <= i < SEMAPHORE_MAXCOUNT ==> w.k.pool[i] == FREE_SEM)
    && Once(w.k) && Flagged(w.k)
  }

  ghost predicate Reaches(w: World, es: seq<Event>, w': World)
    decreases |es|
  {
    if es == [] then w == w'
    else Shaped(w) && Allowed(w, es[0]) && Reaches(Step(w, es[0]), es[1..], w')
  }

  lemma {:induction false} WithoutIsLess(s: seq<nat>, p: nat)
    ensures |Without(s, p)| == |s| - if p in s then 1 else 0
    ensures multiset(Without(s, p)) == multiset(s) - multiset{p}
    ensures forall j :: 0 <= j < |Without(s, p)| ==> Without(s, p)[j] in s
  {
    if s != [] {
      assert s == [s[0]] + s[1..];
      WithoutIsLess(s[1..], p);
    }
  }

  lemma {:induction false} ReadyUpdate(ready: seq<seq<nat>>, q: nat, r: seq<nat>, x: nat)
    requires q < |ready|
    ensures InReadyQueues(ready[q := r])[x] + multiset(ready[q])[x] == InReadyQueues(ready)[x] + multiset(r)[x]
  {
    if q > 0 {
      assert ready[q := r][1..] == ready[1..][q - 1 := r];
      ReadyUpdate(ready[1..], q - 1, r, x);
    } else {
      assert ready[q := r][1..] == ready[1..];
    }
  }

  lemma QueuesAfterPreempt(k: Kernel, p: nat, q: nat)
    requires WellFormed(k) && p < TASKPOOL_MAXCOUNT && q < PRIORITY_TYPES
    ensures Queued(MadeReady(k, p, q)) == if PoolFull(k.tasks) then Queued(k) else Queued(k) + multiset{p}
  {
    forall x ensures Queued(MadeReady(k, p, q))[x] == Queued(k)[x] + if x == p && !PoolFull(k.tasks) then 1 else 0 {
      ReadyUpdate(k.ready, q, Enlisted(k.ready[q], p, k.tasks), x);
    }
  }

  lemma QueuesAfterAcquire(k: Kernel, p: nat, lock: nat)
    requires WellFormed(k) && p < TASKPOOL_MAXCOUNT && lock < SEMAPHORE_MAXCOUNT
    ensures Queued(Acquired(k, p, lock).0) <= Queued(k) + multiset{p}
  {
  }

  lemma QueuesAfterRelease(k: Kernel, lock: nat)
    requires WellFormed(k) && lock < SEMAPHORE_MAXCOUNT
    ensures Queued(Released(k, lock)) ==
      if Wakes(k, lock) && PoolFull(k.tasks) then Queued(k) - multiset{k.waitQueue[0]} else Queued(k)
  {
    if Wakes(k, lock) {
      var p, k1 := k.waitQueue[0], Counted(k, lock, k.pool[lock].count + 1);
      assert k.waitQueue == [p] + k.waitQueue[1..];
      QueuesAfterPreempt(Dequeued(k1), p, k.priority[p]);
    }
  }

  lemma QueuesAfterDispatch(k: Kernel, q: nat, j: nat)
    requires WellFormed(k) && q < PRIORITY_TYPES && j < |k.ready[q]|
    ensures Queued(k.(ready := k.ready[q := k.ready[q][..j] + k.ready[q][j + 1..]])) <= Queued(k)
  {
    var r := k.ready[q];
    assert r == r[..j] + [r[j]] + r[j + 1..];
    var k' := k.(ready := k.ready[q := r[..j] + r[j + 1..]]);
    forall x ensures Queued(k')[x] <= Queued(k)[x] {
      ReadyUpdate(k.ready, q, r[..j] + r[j + 1..], x);
    }
  }

  lemma QueuesAfterWithdraw(k: Kernel, p: nat)
    ensures Queued(k.(waitQueue := Without(k.waitQueue, p))) <= Queued(k)
  {
    WithoutIsLess(k.waitQueue, p);
  }

  /** A larger multiset without repetitions has no smaller one with repetitions. */
  lemma StillOnce(k: Kernel, k': Kernel, p: nat)
    requires Once(k) && Queued(k)[p] == 0 && Queued(k') <= Queued(k) + multiset{p}
    ensures Once(k')
  {
    forall q ensures Queued(k')[q] <= 1 {
      assert Queued(k')[q] <= (Queued(k) + multiset{p})[q];
    }
  }

  lemma AcquireOwes(k: Kernel, p: nat, lock: nat)
    requires WellFormed(k) && p < TASKPOOL_MAXCOUNT && lock < SEMAPHORE_MAXCOUNT
    ensures var (k', granted) := Acquired(k, p, lock);
      && WellFormed(k') && Owed(k'.pool) - Owed(k.pool) == (if granted then 0 else 1)
      && |k'.waitQueue| - |k.waitQueue| == if granted || PoolFull(k.tasks) then 0 else 1
  {
    var s := k.pool[lock];
    OwedUpdate(k.pool, lock, s.(count := s.count - 1));
  }

  lemma ReleaseOwes(k: Kernel, lock: nat)
    requires WellFormed(k) && lock < SEMAPHORE_MAXCOUNT
    ensures var k' := Released(k, lock);
      && WellFormed(k') && (k.pool[lock].count < 0 ==> Owed(k.pool) > 0)
      && Owed(k.pool) - Owed(k'.pool) ==
        (if k.pool[lock].count < k.pool[lock].maxCount && k.pool[lock].count < 0 then 1 else 0)
      && |k.waitQueue| - |k'.waitQueue| == if Wakes(k, lock) then 1 else 0
  {
    var s := k.pool[lock];
    OwedUpdate(k.pool, lock, s.(count := s.count + 1));
    OwedAtLeast(k.pool, lock);
  }

  lemma AcquireKeepsBooks(w: World, p: nat, lock: nat)
    requires Books(w) && p < TASKPOOL_MAXCOUNT && lock < SEMAPHORE_MAXCOUNT && lock in w.live
    ensures Books(AfterAcquire(w, p, lock))
  {
    AcquireOwes(w.k, p, lock);
  }

  lemma ReleaseKeepsBooks(w: World, p: nat, lock: nat)
    requires Books(w) && lock < SEMAPHORE_MAXCOUNT && lock in w.live && p in w.holders[lock]
    ensures Books(AfterRelease(w, p, lock))
  {
    ReleaseOwes(w.k, lock);
  }

  lemma AllocKeepsHandles(w: World, count: int)
    requires Shaped(w) && Handles(w)
    ensures Shaped(AfterAlloc(w, count)) && Handles(AfterAlloc(w, count))
  {
  }

  lemma AllocKeepsLedger(w: World, count: int)
    requires Shaped(w) && Ledger(w)
    ensures Shaped(AfterAlloc(w, count)) && Ledger(AfterAlloc(w, count))
  {
  }

  lemma AllocOwes(w: World, count: int)
    requires Shaped(w) && Handles(w)
    ensures var w' := AfterAlloc(w, count); Owed(w'.k.pool) == Owed(w.k.pool) && w'.k.waitQueue == w.k.waitQueue
  {
    var slot := FirstFree(w.k.pool, 0);
    if count > 0 && slot.Some? {
      OwedUpdate(w.k.pool, slot.value, Sem(count, count, true));
    }
  }

  lemma AllocKeepsBooks(w: World, count: int)
    requires Books(w)
    ensures Books(AfterAlloc(w, count))
  {
    AllocKeepsHandles(w, count);
    AllocKeepsLedger(w, count);
    AllocOwes(w, count);
  }

  lemma FreeKeepsBooks(w: World, lock: nat)
    requires Books(w) && lock in w.live
    ensures Books(AfterFree(w, lock))
  {
    OwedUpdate(w.k.pool, lock, FREE_SEM);
  }

  lemma WithdrawKeepsBooks(w: World, p: nat)
    requires Books(w)
    ensures Books(AfterWithdraw(w, p))
  {
    WithoutIsLess(w.k.waitQueue, p);
  }

  lemma StepKeepsBooks(w: World, e: Event)
    requires Books(w) && Allowed(w, e)
    ensures Books(Step(w, e))
  {
    match e {
      case Acquire(p, lock) => AcquireKeepsBooks(w, p, lock);
      case Release(p, lock) => ReleaseKeepsBooks(w, p, lock);
      case Withdraw(p) => WithdrawKeepsBooks(w, p);
      case Alloc(count) => AllocKeepsBooks(w, count);
      case Free(lock) => FreeKeepsBooks(w, lock);
      case Dispatch(_, _) =>
      case Preempt(_, _) =>
      case Schedule(_, _) =>
    }
  }

  lemma FewerOnce(k: Kernel, k': Kernel)
    requires Once(k) && Queued(k') <= Queued(k)
    ensures Once(k')
  {
    forall q ensures Queued(k')[q] <= 1 {
      assert Queued(k')[q] <= Queued(k)[q];
    }
  }

  lemma AcquireKeepsOnce(k: Kernel, p: nat, lock: nat)
    requires WellFormed(k) && Once(k) && Running(k, p) && lock < SEMAPHORE_MAXCOUNT
    ensures Once(Acquired(k, p, lock).0)
  {
    QueuesAfterAcquire(k, p, lock);
    StillOnce(k, Acquired(k, p, lock).0, p);
  }

  lemma ReleaseKeepsOnce(k: Kernel, lock: nat)
    requires WellFormed(k) && Once(k) && lock < SEMAPHORE_MAXCOUNT
    ensures Once(Released(k, lock))
  {
    QueuesAfterRelease(k, lock);
    FewerOnce(k, Released(k, lock));
  }

  lemma PreemptKeepsOnce(k: Kernel, p: nat, q: nat)
    requires WellFormed(k) && Once(k) && Running(k, p) && q < PRIORITY_TYPES
    ensures Once(MadeReady(k, p, q))
  {
    QueuesAfterPreempt(k, p, q);
    StillOnce(k, MadeReady(k, p, q), p);
  }

  /** Only processes that run join a queue, and only one queue. */
  lemma StepKeepsOnce(w: World, e: Event)
    requires Shaped(w) && Once(w.k) && Allowed(w, e)
    ensures Once(Step(w, e).k)
  {
    match e {
      case Acquire(p, lock) => AcquireKeepsOnce(w.k, p, lock);
      case Release(_, lock) => ReleaseKeepsOnce(w.k, lock);
      case Withdraw(p) => QueuesAfterWithdraw(w.k, p); FewerOnce(w.k, Step(w, e).k);
      case Dispatch(q, j) => QueuesAfterDispatch(w.k, q, j); FewerOnce(w.k, Step(w, e).k);
      case Preempt(p, q) => PreemptKeepsOnce(w.k, p, q);
      case Alloc(_) => FewerOnce(w.k, Step(w, e).k);
      case Free(_) => FewerOnce(w.k, Step(w, e).k);
      case Schedule(_, _) => FewerOnce(w.k, Step(w, e).k);
    }
  }

  lemma {:induction false} InReadyQueue(ready: seq<seq<nat>>, q: nat, j: nat)
    requires q < |ready| && j < |ready[q]|
    ensures InReadyQueues(ready)[ready[q][j]] > 0
  {
    if q > 0 {
      InReadyQueue(ready[1..], q - 1, j);
    }
  }

  lemma AcquireFlags(k: Kernel, p: nat, lock: nat)
    requires WellFormed(k) && Flagged(k) && Running(k, p) && lock < SEMAPHORE_MAXCOUNT
    ensures WellFormed(Acquired(k, p, lock).0) && Flagged(Acquired(k, p, lock).0)
  {
    forall q, j | 0 <= q < PRIORITY_TYPES && 0 <= j < |k.ready[q]| ensures k.ready[q][j] != p {
      InReadyQueue(k.ready, q, j);
    }
    assert forall j :: 0 <= j < |k.waitQueue| ==> k.waitQueue[j] in multiset(k.waitQueue);
  }

  lemma MadeReadyFlags(k: Kernel, p: nat, q': nat)
    requires WellFormed(k) && Flagged(k) && Running(k, p) && q' < PRIORITY_TYPES
    ensures WellFormed(MadeReady(k, p, q')) && Flagged(MadeReady(k, p, q'))
  {
    forall q, j | 0 <= q < PRIORITY_TYPES && 0 <= j < |k.ready[q]| ensures k.ready[q][j] != p {
      InReadyQueue(k.ready, q, j);
    }
    assert forall j :: 0 <= j < |k.waitQueue| ==> k.waitQueue[j] in multiset(k.waitQueue);
  }

  lemma ReleaseFlags(k: Kernel, lock: nat)
    requires WellFormed(k) && Flagged(k) && Once(k) && lock < SEMAPHORE_MAXCOUNT
    ensures WellFormed(Released(k, lock)) && Flagged(Released(k, lock))
  {
    if Wakes(k, lock) {
      var k1 := Dequeued(Counted(k, lock, k.pool[lock].count + 1));
      assert k.waitQueue == [k.waitQueue[0]] + k.waitQueue[1..];
      assert Queued(k)[k.waitQueue[0]] <= 1;
      MadeReadyFlags(k1, k.waitQueue[0], k.priority[k.waitQueue[0]]);
    }
  }

  lemma DispatchFlags(k: Kernel, q: nat, j: nat)
    requires WellFormed(k) && Flagged(k) && q < PRIORITY_TYPES && j < |k.ready[q]|
    ensures Flagged(k.(ready := k.ready[q := k.ready[q][..j] + k.ready[q][j + 1..]]))
  {
  }

  lemma WithdrawFlags(k: Kernel, p: nat)
    requires WellFormed(k) && Flagged(k)
    ensures var k' := k.(waitQueue := Without(k.waitQueue, p)); WellFormed(k') && Flagged(k')
  {
    WithoutIsLess(k.waitQueue, p);
    assert forall j :: 0 <= j < |k.waitQueue| ==> k.pflag[k.waitQueue[j]] == STATE_WAITING;
  }

  lemma StepFlags(w: World, e: Event)
    requires Inv(w) && Allowed(w, e)
    ensures WellFormed(Step(w, e).k) && Flagged(Step(w, e).k)
  {
    match e {
      case Acquire(p, lock) => AcquireFlags(w.k, p, lock);
      case Release(_, lock) => ReleaseFlags(w.k, lock);
      case Preempt(p, q) => MadeReadyFlags(w.k, p, q);
      case Withdraw(p) => WithdrawFlags(w.k, p);
      case Dispatch(q, j) => DispatchFlags(w.k, q, j);
      case Schedule(_, _) =>
      case Alloc(_) =>
      case Free(_) =>
    }
  }

  lemma StepKeepsInv(w: World, e: Event)
    requires Inv(w) && Allowed(w, e)
    ensures Inv(Step(w, e))
  {
    StepKeepsBooks(w, e);
    StepKeepsOnce(w, e);
    StepFlags(w, e);
  }

  lemma {:induction false} RunKeepsInv(w: World, es: seq<Event>, w': World)
    requires Inv(w) && Reaches(w, es, w')
    ensures Inv(w')
    decreases |es|
  {
    if es != [] {
      StepKeepsInv(w, es[0]);
      RunKeepsInv(Step(w, es[0]), es[1..], w');
    }
  }

  lemma {:induction false} NothingOwed(pool: seq<Sem>)
    requires forall i :: 0 <= i < |pool| ==> pool[i].count == 0
    ensures Owed(pool) == 0
  {
    if pool != [] {
      NothingOwed(pool[1..]);
    }
  }

  lemma RunFromStart(start: World, es: seq<Event>, w: World)
    requires Initial(start) && Reaches(start, es, w)
    ensures Inv(w)
  {
    NothingOwed(start.k.pool);
    RunKeepsInv(start, es, w);
  }

  /** The permit ledger balances in every run, retries of refused callers included. */
  lemma PermitLedger(start: World, es: seq<Event>, w: World, lock: nat)
    requires Initial(start) && Reaches(start, es, w) && lock in w.live
    ensures Shaped(w) && lock < SEMAPHORE_MAXCOUNT
    ensures w.k.pool[lock].count + |w.holders[lock]| + w.refused[lock] == w.k.pool[lock].maxCount
    ensures |w.holders[lock]| <= w.k.pool[lock].maxCount
  {
    RunFromStart(start, es, w);
  }

  /** The shared queue holds one process for every permit owed by any semaphore, but for those
      who were not put in it or were taken out, and those whose semaphore has been freed. */
  lemma QueueMatchesPermitsOwed(start: World, es: seq<Event>, w: World)
    requires Initial(start) && Reaches(start, es, w)
    ensures |w.k.waitQueue| <= Owed(w.k.pool) + w.orphaned
    ensures Owed(w.k.pool) <= |w.k.waitQueue| + w.missed
    ensures w.missed == w.orphaned == 0 ==> |w.k.waitQueue| == Owed(w.k.pool)
  {
    RunFromStart(start, es, w);
  }

  /** What leaves the queue accounted for: no acquire blocks while the task pool is full, nobody is
      withdrawn who waits, and no semaphore is freed that is waited for. */
  predicate Accountable(w: World, e: Event)
    requires Shaped(w) && Allowed(w, e)
  {
    match e
    case Acquire(_, lock) => w.k.pool[lock].count > 0 || !PoolFull(w.k.tasks)
    case Withdraw(p) => p !in w.k.waitQueue
    case Free(lock) => w.k.pool[lock].count >= 0
    case _ => true
  }

  lemma StaysAccountedIff(start: World, es: seq<Event>, w: World, e: Event)
    requires Initial(start) && Reaches(start, es, w) && Shaped(w) && Allowed(w, e)
    requires |w.k.waitQueue| == Owed(w.k.pool)
    ensures |Step(w, e).k.waitQueue| == Owed(Step(w, e).k.pool) <==> Accountable(w, e)
  {
    RunFromStart(start, es, w);
    match e {
      case Acquire(p, lock) => AcquireOwes(w.k, p, lock);
      case Release(_, lock) => ReleaseOwes(w.k, lock);
      case Withdraw(p) => WithoutIsLess(w.k.waitQueue, p);
      case Alloc(count) => AllocOwes(w, count);
      case Free(lock) => OwedUpdate(w.k.pool, lock, FREE_SEM);
      case Dispatch(_, _) =>
      case Preempt(_, _) =>
      case Schedule(_, _) =>
    }
  }

  /** A caller that blocks is in the wait queue exactly if the task pool is not full; otherwise he
      is marked as waiting and no release will find him. */
  lemma BlockedIsQueuedIff(w: World, e: Event)
    requires Shaped(w) && e.Acquire? && Allowed(w, e) && !Acquired(w.k, e.p, e.lock).1
    ensures var k := Acquired(w.k, e.p, e.lock).0;
      k.pflag[e.p] == 3 && (e.p in Queued(k) <==> w.k.tasks < 2048)
  {
    var k := Acquired(w.k, e.p, e.lock).0;
    if !PoolFull(w.k.tasks) {
      assert k.waitQueue[|w.k.waitQueue|] == e.p;
      assert e.p in multiset(k.waitQueue);
    }
  }

  /** Likewise a process woken is in a ready queue exactly if the pool is not full. */
  lemma WokenIsReadyIff(k: Kernel, lock: nat)
    requires WellFormed(k) && Once(k) && lock < SEMAPHORE_MAXCOUNT && Wakes(k, lock)
    ensures Released(k, lock).pflag[k.waitQueue[0]] == 1
    ensures k.waitQueue[0] in Queued(Released(k, lock)) <==> k.tasks < 2048
  {
    QueuesAfterRelease(k, lock);
    assert k.waitQueue[0] in multiset(k.waitQueue);
    assert Queued(k)[k.waitQueue[0]] <= 1;
  }

  /** `release` never finds the queue empty after raising a negative count, and a holder always
      passes its guard: whoever else acts between the guard and cli cannot change that. */
  lemma ReleaseFindsItsWaiter(start: World, es: seq<Event>, w: World, e: Event)
    requires Initial(start) && Reaches(start, es, w) && Shaped(w)
    requires e.Release? && Allowed(w, e)
    ensures w.k.pool[e.lock].count < w.k.pool[e.lock].maxCount
    ensures w.missed == 0 && w.k.pool[e.lock].count < 0 ==> Wakes(w.k, e.lock)
  {
    RunFromStart(start, es, w);
    OwedAtLeast(w.k.pool, e.lock);
  }

  /** An attempt is granted exactly if grants and refusals so far leave a permit. */
  lemma GrantedIffPermitLeft(start: World, es: seq<Event>, w: World, e: Event)
    requires Initial(start) && Reaches(start, es, w) && Shaped(w)
    requires e.Acquire? && Allowed(w, e)
    ensures Acquired(w.k, e.p, e.lock).1 <==> |w.holders[e.lock]| + w.refused[e.lock] < w.k.pool[e.lock].maxCount
  {
    RunFromStart(start, es, w);
  }

  lemma StepRefuses(w: World, e: Event, lock: nat)
    requires Books(w) && Allowed(w, e) && lock in w.live && e != Free(lock)
    ensures var w' := Step(w, e);
      && lock in w'.live && lock < |w'.refused| == |w'.k.pool|
      && w'.refused[lock] >= w.refused[lock] && w'.k.pool[lock].maxCount == w.k.pool[lock].maxCount
  {
  }

  lemma {:induction false} RefusedGrows(w: World, es: seq<Event>, w': World, lock: nat)
    requires Inv(w) && lock in w.live && Reaches(w, es, w') && Free(lock) !in es
    ensures Inv(w') && lock in w'.live && lock < SEMAPHORE_MAXCOUNT
    ensures w'.refused[lock] >= w.refused[lock] && w'.k.pool[lock].maxCount == w.k.pool[lock].maxCount
    decreases |es|
  {
    if es != [] {
      StepKeepsInv(w, es[0]);
      StepRefuses(w, es[0], lock);
      RefusedGrows(Step(w, es[0]), es[1..], w', lock);
    }
  }

  /** A refused attempt costs its permit for good: once MaxCount attempts have been refused, no
      attempt on that semaphore is granted any more, whatever happens, until it is freed. */
  lemma RefusalIsForGood(start: World, es: seq<Event>, w: World, more: seq<Event>, w': World, e: Event)
    requires Initial(start) && Reaches(start, es, w) && Shaped(w)
    requires e.Acquire? && e.lock in w.live && e.lock < SEMAPHORE_MAXCOUNT
    requires w.refused[e.lock] >= w.k.pool[e.lock].maxCount
    requires Reaches(w, more, w') && Free(e.lock) !in more && Shaped(w') && Allowed(w', e)
    ensures !Acquired(w'.k, e.p, e.lock).1
  {
    RunFromStart(start, es, w);
    RefusedGrows(w, more, w', e.lock);
  }

  lemma InOneQueueAtMost(start: World, es: seq<Event>, w: World, p: nat)
    requires Initial(start) && Reaches(start, es, w)
    ensures Shaped(w) && Queued(w.k)[p] <= 1
  {
    RunFromStart(start, es, w);
  }

  /** Distinct numbers below `n` are at most `n` many. */
  lemma {:induction false} Pigeonhole(s: seq<nat>, n: nat)
    requires forall j :: 0 <= j < |s| ==> s[j] < n
    requires forall p :: multiset(s)[p] <= 1
    ensures |s| <= n
    decreases n
  {
    if n > 0 {
      var t := Without(s, n - 1);
      WithoutIsLess(s, n - 1);
      assert |multiset(t)| == |t| && |multiset(s)| == |s|;
      forall j | 0 <= j < |t| ensures t[j] < n - 1 {
        assert t[j] in multiset(t) && t[j] in multiset(s);
      }
      Pigeonhole(t, n - 1);
    }
  }

  lemma WaitQueueFits(k: Kernel)
    requires WellFormed(k) && Once(k)
    ensures |k.waitQueue| <= TASKPOOL_MAXCOUNT
  {
    forall p ensures multiset(k.waitQueue)[p] <= 1 {
      assert Queued(k)[p] <= 1;
    }
    Pigeonhole(k.waitQueue, TASKPOOL_MAXCOUNT);
  }

  /** Counts stay in the range of a C int, unless very many waiters go missing: at most one process
      for every slot of the task pool waits, and each missing one lowers a count once more. */
  lemma CountsFit(start: World, es: seq<Event>, w: World, lock: nat)
    requires Initial(start) && Reaches(start, es, w) && lock in w.live
    ensures Shaped(w) && lock < SEMAPHORE_MAXCOUNT
    ensures 0 <= w.k.pool[lock].count + TASKPOOL_MAXCOUNT + w.missed && w.k.pool[lock].count <= w.k.pool[lock].maxCount
  {
    RunFromStart(start, es, w);
    OwedAtLeast(w.k.pool, lock);
    WaitQueueFits(w.k);
  }

  /** Allocation takes the lowest slot that no live handle names, and fails exactly if the count
      is not positive or every slot is live; UseCount is minus the number of live handles. */
  lemma AllocTakesLowestFree(start: World, es: seq<Event>, w: World, count: int)
    requires Initial(start) && Reaches(start, es, w)
    ensures Shaped(w) && w.k.useCount == -|w.live|
    ensures var (k, slot) := Allocated(w.k, count);
      && (slot.None? <==> count <= 0 || forall i :: 0 <= i < 256 ==> i in w.live)
      && (slot.None? ==> k == w.k)
      && (slot.Some? ==>
        && slot.value < 256 && slot.value !in w.live && (forall i :: 0 <= i < slot.value ==> i in w.live)
        && k == w.k.(pool := w.k.pool[slot.value := Sem(count, count, true)], useCount := w.k.useCount - 1))
  {
    RunFromStart(start, es, w);
  }

  /** As written, `release` does what is meant exactly if it has nobody to wake; otherwise the
      process taken from the queue is in no queue and still marked as waiting. */
  lemma AsWrittenIffNobodyToWake(start: World, es: seq<Event>, w: World, lock: nat)
    requires Initial(start) && Reaches(start, es, w) && lock < SEMAPHORE_MAXCOUNT && Shaped(w)
    ensures ReleasedAsWritten(w.k, lock) == Released(w.k, lock) <==> !Wakes(w.k, lock)
    ensures Wakes(w.k, lock) ==>
      var k := ReleasedAsWritten(w.k, lock);
      w.k.waitQueue[0] !in Queued(k) && k.pflag == w.k.pflag
  {
    RunFromStart(start, es, w);
    if Wakes(w.k, lock) {
      var p := w.k.waitQueue[0];
      assert w.k.waitQueue == [p] + w.k.waitQueue[1..];
      assert Queued(w.k)[p] <= 1;
      assert Released(w.k, lock).pflag[p] != w.k.pflag[p];
    }
  }

  /** Freeing a semaphore keeps the queue accounted for exactly if no process waits for it. */
  lemma FreeKeepsQueueAccountedIff(start: World, es: seq<Event>, w: World, lock: nat)
    requires Initial(start) && Reaches(start, es, w) && lock in w.live && |w.k.waitQueue| == Owed(w.k.pool)
    ensures Shaped(w) && lock < SEMAPHORE_MAXCOUNT
    ensures Freed(w.k, lock) == w.k.(pool := w.k.pool[lock := Sem(0, 0, false)], useCount := w.k.useCount + 1)
    ensures |w.k.waitQueue| == Owed(Freed(w.k, lock).pool) <==> w.k.pool[lock].count >= 0
  {
    RunFromStart(start, es, w);
    OwedUpdate(w.k.pool, lock, FREE_SEM);
  }

  /** In every run a process in the wait queue is marked as waiting, one in a ready queue as ready. */
  lemma QueuesMatchFlags(start: World, es: seq<Event>, w: World)
    requires Initial(start) && Reaches(start, es, w)
    ensures WellFormed(w.k)
    ensures forall j :: 0 <= j < |w.k.waitQueue| ==> w.k.pflag[w.k.waitQueue[j]] == STATE_WAITING
    ensures forall q, j :: 0 <= q < PRIORITY_TYPES && 0 <= j < |w.k.ready[q]| ==>
      w.k.ready[q][j] < TASKPOOL_MAXCOUNT && w.k.pflag[w.k.ready[q][j]] == STATE_READY
  {
    RunFromStart(start, es, w);
  }

  lemma AllocFirst(start: World, count: int)
    requires Initial(start) && count > 0
    ensures var w := AfterAlloc(start, count);
      && Shaped(w) && w.live == {0} && w.holders[0] == multiset{} && w.refused[0] == 0
      && w.k == start.k.(pool := start.k.pool[0 := Sem(count, count, true)], useCount := -1)
  {
    assert FirstFree(start.k.pool, 0) == Some(0);
  }

  lemma AllocKeepsInv(start: World, count: int)
    requires Initial(start)
    ensures Inv(AfterAlloc(start, count))
  {
    RunFromStart(start, [], start);
    StepKeepsInv(start, Alloc(count));
  }

  /** Contention is real: from any start in which two processes run, one takes the only permit of
      a semaphore and the other is refused.  The holder's release then has somebody to wake. */
  lemma Contention(start: World, p: nat, q: nat) returns (w: World)
    requires Initial(start) && Running(start.k, p) && Running(start.k, q)
    ensures Reaches(start, [Alloc(1), Acquire(p, 0), Acquire(q, 0)], w) && Shaped(w) && 0 in w.live
    ensures w.refused[0] == w.k.pool[0].maxCount == 1 && p in w.holders[0]
    ensures !PoolFull(start.k.tasks) ==> Wakes(w.k, 0)
  {
    AllocFirst(start, 1);
    var w1 := Step(start, Alloc(1));
    var w2 := Step(w1, Acquire(p, 0));
    w := Step(w2, Acquire(q, 0));
    assert Reaches(w2, [Acquire(q, 0)], w) by { assert [Acquire(q, 0)][1..] == []; }
    assert Reaches(w1, [Acquire(p, 0), Acquire(q, 0)], w) by {
      assert [Acquire(p, 0), Acquire(q, 0)][1..] == [Acquire(q, 0)];
    }
    assert [Alloc(1), Acquire(p, 0), Acquire(q, 0)][1..] == [Acquire(p, 0), Acquire(q, 0)];
  }

  /** A kernel with no process in any queue: every start of a run in which all of them run. */
  function PowerOn(): World {
    World(Kernel(seq(SEMAPHORE_MAXCOUNT, _ => FREE_SEM), 0, [], seq(PRIORITY_TYPES, _ => []),
                 seq(TASKPOOL_MAXCOUNT, _ => 0), seq(TASKPOOL_MAXCOUNT, _ => 0), 1),
          seq(SEMAPHORE_MAXCOUNT, _ => multiset{}), seq(SEMAPHORE_MAXCOUNT, _ => 0), {}, 0, 0)
  }

  lemma {:induction false} NobodyReady(ready: seq<seq<nat>>)
    requires forall q :: 0 <= q < |ready| ==> ready[q] == []
    ensures InReadyQueues(ready) == multiset{}
  {
    if ready != [] {
      NobodyReady(ready[1..]);
    }
  }

  lemma PowerOnIsInitial()
    ensures Initial(PowerOn()) && forall p :: 0 <= p < TASKPOOL_MAXCOUNT ==> Running(PowerOn().k, p)
  {
    NobodyReady(PowerOn().k.ready);
    assert Queued(PowerOn().k) == multiset{};
  }
}
