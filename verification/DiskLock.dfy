/** Many processes driving one disk: the steps of ReadSector and WriteSector that touch the lock
    or a port, interleaved in any way with each other and with the use of other semaphores. */
module DiskLock {
  import opened Basics
  import opened Semaphores
  import opened DiskSteps
  import Runs = SemaphoreRuns

  /** A port access, and in which grant of the lock it happened. */
  datatype Access = Access(p: nat, session: nat)

  datatype World = World(s: Runs.World, pc: seq<Pc>, session: nat, log: seq<Access>)

  /** `Lock` is one attempt of `while(!acquire(Disk_Mutex))`; `Other` is anything else done with
      the semaphores. */
  datatype Event = Lock(p: nat, n: nat) | Proceed(p: nat, status: bv8) | Other(e: Runs.Event)

  predicate Spares(e: Runs.Event, d: nat) {
    match e
    case Acquire(_, lock) => lock != d
    case Release(_, lock) => lock != d
    case Free(lock) => lock != d
    case _ => true
  }

  ghost predicate Allowed(w: World, e: Event, d: nat)
    requires Runs.Shaped(w.s) && |w.pc| == TASKPOOL_MAXCOUNT && d < SEMAPHORE_MAXCOUNT
  {
    match e
    case Lock(p, n) => Runs.Allowed(w.s, Runs.Acquire(p, d)) && w.pc[p] == Outside
    case Proceed(p, _) => Runs.Running(w.s.k, p) && w.pc[p] != Outside && (w.pc[p] == Finish ==> Runs.Allowed(w.s, Runs.Release(p, d)))
    case Other(e) => Runs.Allowed(w.s, e) && Spares(e, d)
  }

  function AfterLock(w: World, p: nat, n: nat, d: nat): World
    requires Runs.Shaped(w.s) && |w.pc| == TASKPOOL_MAXCOUNT && d < SEMAPHORE_MAXCOUNT && p < TASKPOOL_MAXCOUNT
  {
    var s := Runs.AfterAcquire(w.s, p, d);
    if Acquired(w.s.k, p, d).1 then World(s, w.pc[p := PollBusy(n)], w.session + 1, w.log)
    else w.(s := s)
  }

  function AfterProceed(w: World, p: nat, status: bv8, d: nat): World
    requires Runs.Shaped(w.s) && |w.pc| == TASKPOOL_MAXCOUNT && d < SEMAPHORE_MAXCOUNT && p < TASKPOOL_MAXCOUNT
  {
    World(if w.pc[p] == Finish then Runs.AfterRelease(w.s, p, d) else w.s,
          w.pc[p := Next(w.pc[p], status)], w.session,
          if TouchesPort(w.pc[p]) then w.log + [Access(p, w.session)] else w.log)
  }

  ghost function Step(w: World, e: Event, d: nat): World
    requires Runs.Shaped(w.s) && |w.pc| == TASKPOOL_MAXCOUNT && d < SEMAPHORE_MAXCOUNT && Allowed(w, e, d)
  {
    match e
    case Lock(p, n) => AfterLock(w, p, n, d)
    case Proceed(p, status) => AfterProceed(w, p, status, d)
    case Other(e) => w.(s := Runs.Step(w.s, e))
  }

  /** The accesses of a session are consecutive and by one process. */
  ghost predicate Orderly(log: seq<Access>, session: nat) {
    && (forall i :: 0 <= i < |log| ==> log[i].session <= session)
    && (forall i, j :: 0 <= i < j < |log| ==> log[i].session <= log[j].session)
    && (forall i, j :: 0 <= i < j < |log| && log[i].session == log[j].session ==> log[i].p == log[j].p)
  }

  /** Exactly the processes inside hold the lock, once each. */
  ghost predicate InsideHolds(w: World, d: nat)
    requires Runs.Shaped(w.s) && |w.pc| == TASKPOOL_MAXCOUNT && d < SEMAPHORE_MAXCOUNT
  {
    forall p :: 0 <= p < TASKPOOL_MAXCOUNT ==> w.s.holders[d][p] == if w.pc[p] == Outside then 0 else 1
  }

  /** The lock with its single permit, and who holds it. */
  ghost predicate LockHeld(w: World, d: nat) {
    && Runs.Inv(w.s) && |w.pc| == TASKPOOL_MAXCOUNT && d < SEMAPHORE_MAXCOUNT
    && d in w.s.live && w.s.k.pool[d].maxCount == 1
    && InsideHolds(w, d)
  }

  /** The log is orderly, and a session in which somebody is inside is his alone. */
  ghost predicate LogKept(pc: seq<Pc>, log: seq<Access>, session: nat) {
    && Orderly(log, session)
    && forall p, i :: 0 <= p < |pc| && pc[p] != Outside && 0 <= i < |log| && log[i].session == session ==> log[i].p == p
  }

  ghost predicate Inv(w: World, d: nat) {
    LockHeld(w, d) && LogKept(w.pc, w.log, w.session)
  }

  ghost predicate Reaches(w: World, es: seq<Event>, w': World, d: nat)
    decreases |es|
  {
    if es == [] then w == w'
    else
      && Runs.Shaped(w.s) && |w.pc| == TASKPOOL_MAXCOUNT && d < SEMAPHORE_MAXCOUNT && Allowed(w, es[0], d)
      && Reaches(Step(w, es[0], d), es[1..], w', d)
  }

  /** After InitDisk: the lock is allocated with one permit and nobody is inside. */
  ghost predicate Initial(w: World, d: nat) {
    && Runs.Inv(w.s) && |w.pc| == TASKPOOL_MAXCOUNT && d < SEMAPHORE_MAXCOUNT
    && d in w.s.live && w.s.k.pool[d].maxCount == 1 && w.s.holders[d] == multiset{}
    && (forall p :: 0 <= p < |w.pc| ==> w.pc[p] == Outside) && w.log == []
  }

  lemma TwoMembers(h: multiset<nat>, p: nat, q: nat)
    requires p in h && q in h && p != q
    ensures |h| >= 2
  {
    assert h == (h - multiset{p} - multiset{q}) + multiset{p} + multiset{q};
  }

  lemma OneInside(w: World, p: nat, q: nat, d: nat)
    requires LockHeld(w, d)
    requires p < TASKPOOL_MAXCOUNT && q < TASKPOOL_MAXCOUNT && w.pc[p] != Outside && w.pc[q] != Outside
    ensures p == q
  {
    if p != q {
      TwoMembers(w.s.holders[d], p, q);
    }
  }

  lemma SemaphoresKeepInv(s: Runs.World, e: Runs.Event)
    requires Runs.Inv(s) && Runs.Allowed(s, e)
    ensures Runs.Inv(Runs.Step(s, e))
  {
    Runs.StepKeepsInv(s, e);
  }

  lemma LockKeepsLock(w: World, p: nat, n: nat, d: nat)
    requires LockHeld(w, d) && Allowed(w, Lock(p, n), d)
    ensures LockHeld(AfterLock(w, p, n, d), d)
  {
    SemaphoresKeepInv(w.s, Runs.Acquire(p, d));
  }

  lemma FinishKeepsLock(w: World, p: nat, status: bv8, d: nat)
    requires LockHeld(w, d) && Runs.Allowed(w.s, Runs.Release(p, d)) && w.pc[p] == Finish
    ensures LockHeld(AfterProceed(w, p, status, d), d)
  {
    SemaphoresKeepInv(w.s, Runs.Release(p, d));
  }

  lemma InsideKeepsLock(w: World, p: nat, status: bv8, d: nat)
    requires LockHeld(w, d) && p < TASKPOOL_MAXCOUNT && w.pc[p] != Outside && w.pc[p] != Finish
    ensures LockHeld(AfterProceed(w, p, status, d), d)
  {
    assert Next(w.pc[p], status) != Outside;
  }

  lemma ProceedKeepsLock(w: World, p: nat, status: bv8, d: nat)
    requires LockHeld(w, d) && Allowed(w, Proceed(p, status), d)
    ensures LockHeld(AfterProceed(w, p, status, d), d)
  {
    if w.pc[p] == Finish {
      FinishKeepsLock(w, p, status, d);
    } else {
      InsideKeepsLock(w, p, status, d);
    }
  }

  lemma OtherSpares(s: Runs.World, e: Runs.Event, d: nat)
    requires Runs.Shaped(s) && Runs.Handles(s) && Runs.Allowed(s, e) && Spares(e, d) && d < SEMAPHORE_MAXCOUNT && d in s.live
    ensures var s' := Runs.Step(s, e);
      && |s'.holders| == |s'.k.pool| == SEMAPHORE_MAXCOUNT
      && d in s'.live && s'.holders[d] == s.holders[d] && s'.k.pool[d].maxCount == s.k.pool[d].maxCount
  {
  }

  lemma OtherKeepsLock(w: World, e: Runs.Event, d: nat)
    requires LockHeld(w, d) && Allowed(w, Other(e), d)
    ensures LockHeld(Step(w, Other(e), d), d)
  {
    SemaphoresKeepInv(w.s, e);
    OtherSpares(w.s, e, d);
  }

  /** One more access by the only process inside. */
  lemma AccessKept(pc: seq<Pc>, pc': seq<Pc>, log: seq<Access>, session: nat, p: nat)
    requires LogKept(pc, log, session) && p < |pc| == |pc'| && pc[p] != Outside
    requires forall q :: 0 <= q < |pc| && (pc[q] != Outside || pc'[q] != Outside) ==> q == p
    ensures LogKept(pc', log, session) && LogKept(pc', log + [Access(p, session)], session)
  {
  }

  lemma ProceedKeepsLog(w: World, p: nat, status: bv8, d: nat)
    requires Inv(w, d) && Allowed(w, Proceed(p, status), d)
    ensures var w' := AfterProceed(w, p, status, d); LogKept(w'.pc, w'.log, w'.session)
  {
    forall q | 0 <= q < |w.pc| && w.pc[q] != Outside ensures q == p {
      OneInside(w, p, q, d);
    }
    AccessKept(w.pc, AfterProceed(w, p, status, d).pc, w.log, w.session, p);
  }

  lemma {:induction false} RunKeepsInv(w: World, es: seq<Event>, w': World, d: nat)
    requires Inv(w, d) && Reaches(w, es, w', d)
    ensures LockHeld(w', d) && LogKept(w'.pc, w'.log, w'.session)
    decreases |es|
  {
    if es != [] {
      match es[0] {
        case Lock(p, n) => LockKeepsLock(w, p, n, d);
        case Proceed(p, status) => ProceedKeepsLock(w, p, status, d); ProceedKeepsLog(w, p, status, d);
        case Other(e) => OtherKeepsLock(w, e, d);
      }
      RunKeepsInv(Step(w, es[0], d), es[1..], w', d);
    }
  }

  lemma RunFromStart(start: World, es: seq<Event>, w: World, d: nat)
    requires Initial(start, d) && Reaches(start, es, w, d)
    ensures LockHeld(w, d) && Orderly(w.log, w.session)
  {
    RunKeepsInv(start, es, w, d);
  }

  lemma OrderlyBetween(log: seq<Access>, session: nat, i: nat, j: nat, k: nat)
    requires Orderly(log, session) && i <= j <= k < |log| && log[i].session == log[k].session
    ensures log[j] == log[i] == log[k]
  {
  }

  /** No two disk commands interleave: in any run, whatever other processes do, all port accesses
      between two of one session belong to that session and its process. */
  lemma CommandsDoNotInterleave(start: World, es: seq<Event>, w: World, d: nat, i: nat, j: nat, k: nat)
    requires Initial(start, d) && Reaches(start, es, w, d)
    requires i <= j <= k < |w.log| && w.log[i].session == w.log[k].session
    ensures w.log[j] == w.log[i] == w.log[k]
  {
    RunFromStart(start, es, w, d);
    OrderlyBetween(w.log, w.session, i, j, k);
  }

  /** At most one process is between its grant and its release, and it has exactly one permit to
      give back; a process outside has none, whichever way it left. */
  lemma OnePermitPerCall(start: World, es: seq<Event>, w: World, d: nat, p: nat, q: nat)
    requires Initial(start, d) && Reaches(start, es, w, d) && p < TASKPOOL_MAXCOUNT && q < TASKPOOL_MAXCOUNT
    ensures Runs.Shaped(w.s) && |w.pc| == TASKPOOL_MAXCOUNT && d < SEMAPHORE_MAXCOUNT
    ensures w.pc[p] != Outside && w.pc[q] != Outside ==> p == q
    ensures w.s.holders[d][p] == if w.pc[p] == Outside then 0 else 1
  {
    RunFromStart(start, es, w, d);
    if w.pc[p] != Outside && w.pc[q] != Outside {
      OneInside(w, p, q, d);
    }
  }

  /** A process that is to release may do so, and its release is not ignored. */
  lemma ReleaseIsEffective(start: World, es: seq<Event>, w: World, d: nat, p: nat)
    requires Initial(start, d) && Reaches(start, es, w, d) && p < TASKPOOL_MAXCOUNT
    ensures Runs.Shaped(w.s) && |w.pc| == TASKPOOL_MAXCOUNT && d < SEMAPHORE_MAXCOUNT
    ensures w.pc[p] == Finish && Runs.Running(w.s.k, p) ==> Runs.Allowed(w.s, Runs.Release(p, d))
    ensures w.pc[p] == Finish ==> Released(w.s.k, d).pool[d].count == w.s.k.pool[d].count + 1
  {
    RunFromStart(start, es, w, d);
  }

  /** The retry loop around the lock does not make progress: after one refused attempt no later
      one ever gets in. */
  lemma ContentionShutsTheDisk(start: World, es: seq<Event>, w: World, d: nat, p: nat)
    requires Initial(start, d) && Reaches(start, es, w, d) && p < TASKPOOL_MAXCOUNT
    ensures Runs.Shaped(w.s) && d < SEMAPHORE_MAXCOUNT
    ensures w.s.refused[d] > 0 ==> !Acquired(w.s.k, p, d).1
  {
    RunFromStart(start, es, w, d);
  }

  /** And one contended attempt is enough for that: two processes that run and both want the disk
      shut it for good. */
  lemma ContentionHappens(start: World, d: nat, p: nat, q: nat, n: nat) returns (w: World)
    requires Initial(start, d) && start.s.refused[d] == 0 && p != q
    requires Runs.Running(start.s.k, p) && Runs.Running(start.s.k, q)
    ensures Reaches(start, [Lock(p, n), Lock(q, n)], w, d)
    ensures Runs.Shaped(w.s) && w.s.refused[d] == 1 && |w.pc| == TASKPOOL_MAXCOUNT && w.pc[p] == PollBusy(n)
  {
    var w1 := Step(start, Lock(p, n), d);
    w := Step(w1, Lock(q, n), d);
    assert Reaches(w1, [Lock(q, n)], w, d) by { assert [Lock(q, n)][1..] == []; }
    assert [Lock(p, n), Lock(q, n)][1..] == [Lock(q, n)];
  }

  /** The machine as InitDisk leaves it, once the semaphores are initialised. */
  function AfterInitDisk(s: Runs.World): World
    requires Runs.Shaped(s)
  {
    World(Runs.AfterAlloc(s, 1), seq(TASKPOOL_MAXCOUNT, _ => Outside), 0, [])
  }

  lemma InitDiskIsInitial(s: Runs.World)
    requires Runs.Initial(s)
    ensures Initial(AfterInitDisk(s), 0) && AfterInitDisk(s).s.refused[0] == 0
    ensures AfterInitDisk(s).s.k.waitQueue == s.k.waitQueue && AfterInitDisk(s).s.k.ready == s.k.ready
  {
    Runs.AllocFirst(s, 1);
    Runs.AllocKeepsInv(s, 1);
  }
}
