/** Lazy FPU switching: the device-not-available handler postpones saving and loading the
    FPU until a process uses it.  Runs mix FPU instructions with both kinds of switch, process
    creation and process end.  An instruction finds the image its process last left exactly if
    the process is the recorded owner of the FPU; the scheduler breaks that in two ways only. */
module LazyFpu {
  import opened Basics

  /** The x87 environment: control, status and tag words, last opcode and pointers. */
  datatype X87Env = X87Env(fcw: nat, fsw: nat, ftw: nat, fop: nat, fip: nat, fdp: nat)

  const INIT_ENV := X87Env(0x37F, 0, 0xFFFF, 0, 0, 0)

  /** What fxsave stores and fxrstor loads: the environment and the register contents. */
  datatype FpuImage = FpuImage(env: X87Env, regs: seq<nat>)

  /** `finit` resets the environment; register contents stay as they are. */
  function Finit(f: FpuImage): FpuImage {
    f.(env := INIT_ENV)
  }

  /** LastUsed_PID is unsigned, so its "nobody" value -1 is the largest 64-bit number. */
  const NO_PID: nat := 0xFFFF_FFFF_FFFF_FFFF

  datatype Pcb = Pcb(useFpu: bool, fpuContext: FpuImage)

  datatype Machine = Machine(current: nat, lastUsed: nat, ts: bool, live: FpuImage, pool: seq<Pcb>)

  predicate WellFormed(m: Machine) {
    && |m.pool| == TASKPOOL_MAXCOUNT
    && m.current < |m.pool|
    && (m.lastUsed == NO_PID || m.lastUsed < |m.pool|)
  }

  /** The effect of the #NM handler on the machine. */
  function NmHandler(m: Machine): Machine
    requires WellFormed(m)
  {
    if m.current == m.lastUsed then m.(ts := false)
    else
      var saved := if m.lastUsed == NO_PID then m.pool
                   else m.pool[m.lastUsed := m.pool[m.lastUsed].(fpuContext := m.live)];
      var me := saved[m.current];
      var live := if me.useFpu then me.fpuContext else Finit(m.live);
      Machine(m.current, m.current, false, live, saved[m.current := me.(useFpu := true)])
  }

  /** GiveOut_Processor, as far as the FPU goes: TS tells whether the next process is the owner. */
  function Yielded(m: Machine, to: nat): Machine {
    m.(current := to, ts := to != m.lastUsed)
  }

  /** Preempted_ByTimeOut changes the process and leaves TS alone. */
  function Preempted(m: Machine, to: nat): Machine {
    m.(current := to)
  }

  class FpuUnit {
    var current: nat
    var lastUsedPid: nat
    var ts: bool
    var live: FpuImage
    const pool: array<Pcb>

    constructor (current: nat, pool: array<Pcb>, live: FpuImage)
      requires current < pool.Length == TASKPOOL_MAXCOUNT
      ensures State() == Machine(current, NO_PID, true, live, pool[..]) && this.pool == pool
    {
      this.current, this.lastUsedPid, this.ts, this.live := current, NO_PID, true, live;
      this.pool := pool;
    }

    function State(): Machine
      reads this, pool
    {
      Machine(current, lastUsedPid, ts, live, pool[..])
    }

    method IsrFpuContextSwitching()
      requires WellFormed(State())
      modifies this, pool
      ensures State() == NmHandler(old(State()))
    {
      ts := false;
      if current == lastUsedPid {
        return;
      } else if lastUsedPid != NO_PID {
        pool[lastUsedPid] := pool[lastUsedPid].(fpuContext := live);
      }
      if !pool[current].useFpu {
        live := Finit(live);
        pool[current] := pool[current].(useFpu := true);
      } else {
        live := pool[current].fpuContext;
      }
      lastUsedPid := current;
    }

    method GiveOutProcessor(to: nat)
      modifies this`current, this`ts
      ensures State() == Yielded(old(State()), to)
    {
      current := to;
      if to != lastUsedPid {
        ts := true;
      } else {
        ts := false;
      }
    }

    method PreemptedByTimeOut(to: nat)
      modifies this`current
      ensures State() == Preempted(old(State()), to)
    {
      current := to;
    }
  }

  /** One step of the machine and its environment.  An instruction carries the image it leaves
      behind; it traps instead of executing while TS is set.  `End` stands for Terminate_Process
      and Free_PCB: neither touches LastUsed_PID. */
  datatype Event =
    | Yield(to: nat)
    | Timer(to: nat)
    | Instruction(after: FpuImage)
    | Create(pid: nat)
    | End(pid: nat)

  /** `left` records the image each process left with its latest executed FPU instruction:
      the state of the simple machine in which every process owns an FPU. */
  datatype World = World(m: Machine, alive: set<nat>, left: map<nat, FpuImage>)

  /** Switches go to processes alive; a PCB is given to a new process after it has been freed,
      which the process running it cannot do itself. */
  predicate Allowed(w: World, e: Event) {
    match e
    case Yield(to) => to in w.alive
    case Timer(to) => to in w.alive
    case Instruction(_) => w.m.current in w.alive
    case Create(pid) => pid < |w.m.pool| && pid !in w.alive && pid != w.m.current
    case End(pid) => pid in w.alive && pid < |w.m.pool|
  }

  predicate Executes(w: World, e: Event) {
    e.Instruction? && !w.m.ts
  }

  function Step(w: World, e: Event): World
    requires WellFormed(w.m) && Allowed(w, e)
  {
    match e
    case Yield(to) => w.(m := Yielded(w.m, to))
    case Timer(to) => w.(m := Preempted(w.m, to))
    case Instruction(after) =>
      if w.m.ts then w.(m := NmHandler(w.m))
      else w.(m := w.m.(live := after), left := w.left[w.m.current := after])
    case Create(pid) => w.(alive := w.alive + {pid})
    case End(pid) =>
      World(w.m.(pool := w.m.pool[pid := w.m.pool[pid].(useFpu := false)]), w.alive - {pid}, w.left - {pid})
  }

  /** `f` is the image process `pid` must find: the one it left, or a fresh environment. */
  predicate IsOwn(w: World, pid: nat, f: FpuImage) {
    if pid in w.left then f == w.left[pid] else f.env == INIT_ENV
  }

  /** Where the image of `pid` is kept at the moment. */
  function Virtual(m: Machine, pid: nat): FpuImage
    requires pid < |m.pool|
  {
    if pid == m.lastUsed then m.live else m.pool[pid].fpuContext
  }

  /** A process in its own right owns the FPU: LastUsed_PID names it, and it has used the FPU
      itself (a new process given an old PID has not). */
  predicate Owns(m: Machine, pid: nat) {
    pid == m.lastUsed && pid < |m.pool| && m.pool[pid].useFpu
  }

  ghost predicate Inv(w: World) {
    && WellFormed(w.m)
    && (forall p :: p in w.alive ==> p < |w.m.pool|)
    && (forall p :: 0 <= p < |w.m.pool| && p !in w.alive ==> !w.m.pool[p].useFpu)
    && (forall p :: p in w.left ==> p in w.alive && w.m.pool[p].useFpu)
    && (forall p :: p in w.alive && w.m.pool[p].useFpu ==> IsOwn(w, p, Virtual(w.m, p)))
  }

  /** The allowed events `es` lead from `w` to `w'`. */
  ghost predicate Reaches(w: World, es: seq<Event>, w': World)
    decreases |es|
  {
    if es == [] then w == w'
    else WellFormed(w.m) && Allowed(w, es[0]) && Reaches(Step(w, es[0]), es[1..], w')
  }

  /** Every instruction of the run that executes is the owner's. */
  ghost predicate OwnersExecute(w: World, es: seq<Event>)
    decreases |es|
  {
    es == []
    || (WellFormed(w.m) && Allowed(w, es[0])
        && (Executes(w, es[0]) ==> Owns(w.m, w.m.current))
        && OwnersExecute(Step(w, es[0]), es[1..]))
  }

  /** A machine just booted: nobody has used the FPU, and TS is set. */
  ghost predicate Booted(w: World) {
    && WellFormed(w.m) && w.m.lastUsed == NO_PID && w.m.ts && w.left == map[]
    && (forall p :: p in w.alive ==> p < |w.m.pool|)
    && (forall p :: 0 <= p < |w.m.pool| ==> !w.m.pool[p].useFpu)
  }

  /** Every step keeps the images where they are expected, but for an instruction that executes
      in a process not owning the FPU. */
  lemma StepKeepsInv(w: World, e: Event)
    requires Inv(w) && Allowed(w, e) && (Executes(w, e) ==> Owns(w.m, w.m.current))
    ensures Inv(Step(w, e))
  {
    var w' := Step(w, e);
    forall p | p in w'.alive && w'.m.pool[p].useFpu
      ensures IsOwn(w', p, Virtual(w'.m, p))
    {
      if p in w.alive && w.m.pool[p].useFpu {
        assert IsOwn(w, p, Virtual(w.m, p));
      }
    }
  }

  lemma {:induction false} RunKeepsInv(w: World, es: seq<Event>, w': World)
    requires Inv(w) && Reaches(w, es, w') && OwnersExecute(w, es)
    ensures Inv(w')
    decreases |es|
  {
    if es != [] {
      StepKeepsInv(w, es[0]);
      RunKeepsInv(Step(w, es[0]), es[1..], w');
    }
  }

  /** Lazy switching refines one FPU per process: in any run from boot, with any switches, ends
      and reused PIDs, as long as owners execute, the live FPU is the image the executing process
      last left, or on first use a fresh environment; and every other user's image is intact. */
  lemma InstructionSeesOwnState(boot: World, es: seq<Event>, w: World, e: Event)
    requires Booted(boot) && Reaches(boot, es, w) && OwnersExecute(boot, es)
    requires Allowed(w, e) && Executes(w, e) && Owns(w.m, w.m.current)
    ensures IsOwn(w, w.m.current, w.m.live)
    ensures forall p :: p in w.left ==> p < |w.m.pool| && Virtual(w.m, p) == w.left[p]
  {
    RunKeepsInv(boot, es, w);
    assert IsOwn(w, w.m.current, Virtual(w.m, w.m.current));
    forall p | p in w.left ensures p < |w.m.pool| && Virtual(w.m, p) == w.left[p] {
      assert IsOwn(w, p, Virtual(w.m, p));
    }
  }

  /** Either switch makes the process switched to the current one, and moves no image. */
  lemma SwitchRunsTarget(w: World, e: Event)
    requires WellFormed(w.m) && Allowed(w, e) && (e.Yield? || e.Timer?)
    ensures var w' := Step(w, e);
      && w'.m.current == e.to && (w'.m.ts <==> if e.Yield? then e.to != w.m.lastUsed else w.m.ts)
      && w' == w.(m := w.m.(current := e.to, ts := w'.m.ts))
  {
  }

  /** On first use the handler gives the initial x87 environment and leaves the register contents of
      the process before; it marks the process as a user and takes it for the owner. */
  lemma FirstUseInitialises(m: Machine)
    requires WellFormed(m) && m.current != m.lastUsed && !m.pool[m.current].useFpu
    ensures var m' := NmHandler(m);
      && m'.live == FpuImage(X87Env(0x37F, 0, 0xFFFF, 0, 0, 0), m.live.regs)
      && m'.lastUsed == m'.current == m.current && !m'.ts && m'.pool[m.current].useFpu
      && forall p :: 0 <= p < |m.pool| && p != m.current && p != m.lastUsed ==> m'.pool[p] == m.pool[p]
  {
  }

  /** The same world, the image in the FPU being `f`, left there by the owner if there is one. */
  function OwnerLeft(w: World, f: FpuImage): World {
    w.(m := w.m.(live := f), left := if Owns(w.m, w.m.lastUsed) then w.left[w.m.lastUsed := f] else w.left)
  }

  /** The condition is exact: the next instruction finds its own image, whatever the owner left,
      if and only if the process owns the FPU. */
  lemma SeesOwnStateIff(boot: World, es: seq<Event>, w: World, e: Event)
    requires Booted(boot) && Reaches(boot, es, w) && OwnersExecute(boot, es)
    requires Allowed(w, e) && Executes(w, e)
    ensures (forall f: FpuImage {:trigger OwnerLeft(w, f)} :: IsOwn(OwnerLeft(w, f), w.m.current, OwnerLeft(w, f).m.live))
      <==> Owns(w.m, w.m.current)
  {
    RunKeepsInv(boot, es, w);
    if !Owns(w.m, w.m.current) {
      var fcw := if w.m.current in w.left then w.left[w.m.current].env.fcw + 1 else INIT_ENV.fcw + 1;
      var f := FpuImage(INIT_ENV.(fcw := fcw), []);
      assert !IsOwn(OwnerLeft(w, f), w.m.current, OwnerLeft(w, f).m.live);
    }
  }

  /** A trapped instruction always executes when retried, and the trap loses nobody's image; what
      it then finds is its own unless a reused PID makes the handler take it for the owner. */
  lemma TrapThenRetryExecutes(boot: World, es: seq<Event>, w: World, e: Event)
    requires Booted(boot) && Reaches(boot, es, w) && OwnersExecute(boot, es)
    requires Allowed(w, e) && e.Instruction? && !Executes(w, e)
    ensures WellFormed(w.m)
    ensures var w' := Step(w, e);
      && Executes(w', e) && Allowed(w', e) && w'.left == w.left && Inv(w')
      && (Owns(w'.m, w.m.current) <==> w.m.current != w.m.lastUsed || Owns(w.m, w.m.current))
      && (Owns(w'.m, w.m.current) ==> IsOwn(w', w.m.current, w'.m.live))
  {
    RunKeepsInv(boot, es, w);
    StepKeepsInv(w, e);
    var w' := Step(w, e);
    if Owns(w'.m, w.m.current) {
      assert IsOwn(w', w.m.current, Virtual(w'.m, w.m.current));
    }
  }

  /** Whoever can execute without a trap owns the FPU, and no process is taken for the owner that
      is not. */
  ghost predicate Steady(w: World) {
    && WellFormed(w.m)
    && (!w.m.ts && w.m.current in w.alive ==> w.m.current == w.m.lastUsed)
    && (w.m.lastUsed in w.alive ==> Owns(w.m, w.m.lastUsed))
  }

  /** What a timer switch and a process creation must look at to be harmless. */
  predicate Harmless(m: Machine, e: Event) {
    match e
    case Timer(to) => m.ts || to == m.lastUsed
    case Create(pid) => pid != m.lastUsed
    case _ => true
  }

  /** Exactly the harmless steps keep the machine steady. */
  lemma StaysSteadyIff(w: World, e: Event)
    requires Inv(w) && Steady(w) && Allowed(w, e)
    ensures Steady(Step(w, e)) <==> Harmless(w.m, e)
  {
  }

  ghost predicate HarmlessRun(w: World, es: seq<Event>)
    decreases |es|
  {
    es == []
    || (WellFormed(w.m) && Allowed(w, es[0]) && Harmless(w.m, es[0]) && HarmlessRun(Step(w, es[0]), es[1..]))
  }

  lemma {:induction false} HarmlessFrom(w: World, es: seq<Event>)
    requires Inv(w) && Steady(w) && HarmlessRun(w, es)
    ensures OwnersExecute(w, es)
    decreases |es|
  {
    if es != [] {
      StaysSteadyIff(w, es[0]);
      StepKeepsInv(w, es[0]);
      HarmlessFrom(Step(w, es[0]), es[1..]);
    }
  }

  /** So owners execute, and every instruction sees its own state, in every run whose timer
      switches find TS set or go to the owner, and in which no PID is reused while LastUsed_PID
      names it. */
  lemma HarmlessRunsAreRight(boot: World, es: seq<Event>)
    requires Booted(boot) && HarmlessRun(boot, es)
    ensures OwnersExecute(boot, es)
  {
    HarmlessFrom(boot, es);
  }

  lemma {:induction false} ReachesOne(w: World, es: seq<Event>, w': World, e: Event)
    requires Reaches(w, es, w') && WellFormed(w'.m) && Allowed(w', e)
    ensures Reaches(w, es + [e], Step(w', e))
    decreases |es|
  {
    if es == [] {
      assert Reaches(Step(w, e), [], Step(w', e));
    } else {
      assert (es + [e])[1..] == es[1..] + [e];
      ReachesOne(Step(w, es[0]), es[1..], w', e);
    }
  }

  /** The running process traps, uses the FPU and leaves `x`. */
  lemma FirstUse(boot: World, x: FpuImage) returns (w: World)
    requires Booted(boot) && boot.m.current in boot.alive
    ensures Reaches(boot, [Instruction(x), Instruction(x)], w) && WellFormed(w.m)
    ensures w.alive == boot.alive && w.left == map[boot.m.current := x]
    ensures w.m.current == w.m.lastUsed == boot.m.current && !w.m.ts && w.m.live == x
  {
    assert Reaches(boot, [], boot);
    var trapped := Step(boot, Instruction(x));
    ReachesOne(boot, [], boot, Instruction(x));
    w := Step(trapped, Instruction(x));
    ReachesOne(boot, [] + [Instruction(x)], trapped, Instruction(x));
    assert [] + [Instruction(x)] + [Instruction(x)] == [Instruction(x), Instruction(x)];
  }

  /** A timer switch away from the owner leaves TS clear, so the next process executes on the
      owner's image. */
  lemma TimerMixesImages(boot: World, b: nat, x: FpuImage) returns (w: World)
    requires Booted(boot) && boot.m.current in boot.alive && b in boot.alive && b != boot.m.current
    requires x.env != INIT_ENV
    ensures Reaches(boot, [Instruction(x), Instruction(x), Timer(b)], w)
    ensures w.m.current == b && Executes(w, Instruction(x)) && !IsOwn(w, b, w.m.live)
  {
    var used := FirstUse(boot, x);
    w := Step(used, Timer(b));
    ReachesOne(boot, [Instruction(x), Instruction(x)], used, Timer(b));
  }

  /** A new process with the PID of the dead owner is given the FPU without a trap, and executes
      on the dead process's image. */
  lemma ReusedPidFindsOldImage(boot: World, b: nat, x: FpuImage) returns (w: World)
    requires Booted(boot) && boot.m.current in boot.alive && b in boot.alive && b != boot.m.current
    requires x.env != INIT_ENV
    ensures var a := boot.m.current;
      && Reaches(boot, [Instruction(x), Instruction(x), End(a), Yield(b), Create(a), Yield(a)], w)
      && w.m.current == a && Executes(w, Instruction(x)) && !IsOwn(w, a, w.m.live)
  {
    var a, two := boot.m.current, [Instruction(x), Instruction(x)];
    var used := FirstUse(boot, x);
    ReachesOne(boot, two, used, End(a));
    var ended := Step(used, End(a));
    ReachesOne(boot, two + [End(a)], ended, Yield(b));
    var other := Step(ended, Yield(b));
    ReachesOne(boot, two + [End(a)] + [Yield(b)], other, Create(a));
    var created := Step(other, Create(a));
    ReachesOne(boot, two + [End(a)] + [Yield(b)] + [Create(a)], created, Yield(a));
    w := Step(created, Yield(a));
    assert two + [End(a)] + [Yield(b)] + [Create(a)] + [Yield(a)]
      == [Instruction(x), Instruction(x), End(a), Yield(b), Create(a), Yield(a)];
  }
}
