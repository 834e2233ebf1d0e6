/** One semaphore under the hand-over reading: a process woken by `release` owns the permit it
    waited for and does not call `acquire` again.  Here, unlike with the callers' retry loop, the
    queue makes progress in order, and a permit is lost only if a caller blocks while the task
    pool is full. */
module HandOver {
  import opened Basics
  import opened Semaphores
  import opened SemaphoreRuns

  /** `owners` are the processes granted a permit or woken with one; `blocked` and `woken` list
      who was put in the wait queue and who was woken, in order; `missed` counts the callers that
      blocked while the task pool was full. */
  datatype World = World(k: Kernel, owners: multiset<nat>, blocked: seq<nat>, woken: seq<nat>, missed: nat)

  datatype Event =
    | Take(p: nat)
    | Give(p: nat)
    | Dispatch(queue: nat, index: nat)
    | Preempt(p: nat, queue: nat)
    | Schedule(tasks: nat, priority: seq<nat>)

  predicate Allowed(w: World, e: Event)
    requires WellFormed(w.k)
  {
    match e
    case Take(p) => Running(w.k, p)
    case Give(p) => Running(w.k, p) && p in w.owners
    case Dispatch(q, j) => q < PRIORITY_TYPES && j < |w.k.ready[q]|
    case Preempt(p, q) => Running(w.k, p) && q < PRIORITY_TYPES
    case Schedule(tasks, priority) => WellFormed(w.k.(tasks := tasks, priority := priority))
  }

  function AfterTake(w: World, p: nat, lock: nat): World
    requires WellFormed(w.k) && p < TASKPOOL_MAXCOUNT && lock < SEMAPHORE_MAXCOUNT
  {
    var (k, granted) := Acquired(w.k, p, lock);
    if granted then w.(k := k, owners := w.owners + multiset{p})
    else if PoolFull(w.k.tasks) then w.(k := k, missed := w.missed + 1)
    else w.(k := k, blocked := w.blocked + [p])
  }

  function AfterGive(w: World, p: nat, lock: nat): World
    requires WellFormed(w.k) && lock < SEMAPHORE_MAXCOUNT
  {
    var left := w.(k := Released(w.k, lock), owners := w.owners - multiset{p});
    if Wakes(w.k, lock)
    then left.(owners := left.owners + multiset{w.k.waitQueue[0]}, woken := w.woken + [w.k.waitQueue[0]])
    else left
  }

  function Step(w: World, e: Event, lock: nat): World
    requires WellFormed(w.k) && lock < SEMAPHORE_MAXCOUNT && Allowed(w, e)
  {
    match e
    case Take(p) => AfterTake(w, p, lock)
    case Give(p) => AfterGive(w, p, lock)
    case Dispatch(q, j) =>
      w.(k := w.k.(ready := w.k.ready[q := w.k.ready[q][..j] + w.k.ready[q][j + 1..]]))
    case Preempt(p, q) => w.(k := MadeReady(w.k, p, q))
    case Schedule(tasks, priority) => w.(k := w.k.(tasks := tasks, priority := priority))
  }

  ghost predicate Books(w: World, lock: nat)
    requires lock < SEMAPHORE_MAXCOUNT
  {
    && WellFormed(w.k)
    && w.k.pool[lock].count == w.k.pool[lock].maxCount - |w.owners| - |w.k.waitQueue| - w.missed
    && |w.owners| <= w.k.pool[lock].maxCount
    && (w.k.waitQueue != [] ==> |w.owners| + w.missed >= w.k.pool[lock].maxCount)
    && w.blocked == w.woken + w.k.waitQueue
  }

  ghost predicate Inv(w: World, lock: nat)
    requires lock < SEMAPHORE_MAXCOUNT
  {
    Books(w, lock) && Once(w.k)
  }

  ghost predicate Initial(w: World, lock: nat)
    requires lock < SEMAPHORE_MAXCOUNT
  {
    && WellFormed(w.k) && w.k.pool[lock].count == w.k.pool[lock].maxCount >= 0
    && w.k.waitQueue == w.blocked == w.woken == [] && w.owners == multiset{} && w.missed == 0 && Once(w.k)
  }

  ghost predicate Reaches(w: World, es: seq<Event>, w': World, lock: nat)
    requires lock < SEMAPHORE_MAXCOUNT
    decreases |es|
  {
    if es == [] then w == w'
    else WellFormed(w.k) && Allowed(w, es[0]) && Reaches(Step(w, es[0], lock), es[1..], w', lock)
  }

  lemma TakeKeepsBooks(w: World, p: nat, lock: nat)
    requires lock < SEMAPHORE_MAXCOUNT && Books(w, lock) && p < TASKPOOL_MAXCOUNT
    ensures Books(AfterTake(w, p, lock), lock)
  {
  }

  lemma GiveKeepsBooks(w: World, p: nat, lock: nat)
    requires lock < SEMAPHORE_MAXCOUNT && Books(w, lock) && p in w.owners
    ensures Books(AfterGive(w, p, lock), lock)
  {
    if Wakes(w.k, lock) {
      assert w.k.waitQueue == [w.k.waitQueue[0]] + w.k.waitQueue[1..];
    }
  }

  lemma StepKeepsOnce(w: World, e: Event, lock: nat)
    requires lock < SEMAPHORE_MAXCOUNT && WellFormed(w.k) && Once(w.k) && Allowed(w, e)
    ensures Once(Step(w, e, lock).k)
  {
    match e {
      case Take(p) => AcquireKeepsOnce(w.k, p, lock);
      case Give(p) => ReleaseKeepsOnce(w.k, lock);
      case Dispatch(q, j) => QueuesAfterDispatch(w.k, q, j); FewerOnce(w.k, Step(w, e, lock).k);
      case Preempt(p, q) => PreemptKeepsOnce(w.k, p, q);
      case Schedule(_, _) => FewerOnce(w.k, Step(w, e, lock).k);
    }
  }

  lemma {:induction false} RunKeepsInv(w: World, es: seq<Event>, w': World, lock: nat)
    requires lock < SEMAPHORE_MAXCOUNT && Inv(w, lock) && Reaches(w, es, w', lock)
    ensures Inv(w', lock)
    decreases |es|
  {
    if es != [] {
      match es[0] {
        case Take(p) => TakeKeepsBooks(w, p, lock);
        case Give(p) => GiveKeepsBooks(w, p, lock);
        case Dispatch(_, _) =>
        case Preempt(_, _) =>
        case Schedule(_, _) =>
      }
      assert Books(Step(w, es[0], lock), lock);
      StepKeepsOnce(w, es[0], lock);
      RunKeepsInv(Step(w, es[0], lock), es[1..], w', lock);
    }
  }

  /** In every run: at most MaxCount owners, every process in at most one queue, and wake-ups in
      the order of blocking; and nobody waits while a permit is free, unless callers went missing. */
  lemma PermitsAreHandedOver(start: World, es: seq<Event>, w: World, lock: nat, p: nat)
    requires lock < SEMAPHORE_MAXCOUNT && Initial(start, lock) && Reaches(start, es, w, lock)
    ensures WellFormed(w.k)
    ensures |w.owners| <= w.k.pool[lock].maxCount
    ensures w.k.waitQueue != [] ==> |w.owners| + w.missed >= w.k.pool[lock].maxCount
    ensures w.missed == 0 && w.k.waitQueue != [] ==> |w.owners| == w.k.pool[lock].maxCount
    ensures Queued(w.k)[p] <= 1
    ensures w.blocked == w.woken + w.k.waitQueue
  {
    RunKeepsInv(start, es, w, lock);
  }

  /** Progress: a release while somebody waits always wakes the one blocked longest and makes
      him an owner, at the tail of the ready queue of his priority unless the task pool is full.
      A permit given back while nobody waits can be taken at once exactly if owners and missing
      callers are no more than MaxCount. */
  lemma ReleaseMakesProgress(start: World, es: seq<Event>, w: World, lock: nat, p: nat, q: nat)
    requires lock < SEMAPHORE_MAXCOUNT && Initial(start, lock) && Reaches(start, es, w, lock)
    requires WellFormed(w.k) && Running(w.k, p) && p in w.owners && q < TASKPOOL_MAXCOUNT
    ensures var w' := AfterGive(w, p, lock);
      && WellFormed(w'.k)
      && (w.k.waitQueue != [] ==>
        && w'.woken == w.woken + [w.k.waitQueue[0]] && w.k.waitQueue[0] in w'.owners
        && (w.k.waitQueue[0] in Queued(w'.k) <==> w.k.tasks < 2048)
        && (var h := w.k.waitQueue[0];
          && |w'.k.ready| == |w.k.ready|
          && forall r :: 0 <= r < |w.k.ready| ==>
            w'.k.ready[r] == w.k.ready[r] + if r == w.k.priority[h] && w.k.tasks < 2048 then [h] else []))
      && (w.k.waitQueue == [] ==>
        (Acquired(w'.k, q, lock).1 <==> |w.owners| + w.missed <= w.k.pool[lock].maxCount))
  {
    RunKeepsInv(start, es, w, lock);
    GiveKeepsBooks(w, p, lock);
    if w.k.waitQueue != [] {
      WokenIsReadyIff(w.k, lock);
      WokenGoesToItsQueue(w.k, lock);
    }
  }
}
