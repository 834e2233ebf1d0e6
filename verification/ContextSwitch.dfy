/** The assembly routine SwitchContext as a register and memory machine.  `Cpu.SwitchContext`
    follows the instructions one by one; `Switched` is its specification, and runs of switches
    among any number of processes are proved to give every process its registers back. */
module ContextSwitch {
  import opened Basics

  type Seg = s: int | 0 <= s < 0x1_0000

  datatype Regs = Regs(
    rax: Word, rbx: Word, rcx: Word, rdx: Word, rsi: Word, rdi: Word, rbp: Word, rsp: Word,
    r8: Word, r9: Word, r10: Word, r11: Word, r12: Word, r13: Word, r14: Word, r15: Word,
    rip: Word, rflags: Word, cs: Seg, ss: Seg, ds: Seg, es: Seg, fs: Seg, gs: Seg)

  /** Memory by address of its (aligned) quadwords; what was never written reads as 0. */
  type Memory = map<int, Word>

  function At(mem: Memory, a: int): Word {
    if a in mem then mem[a] else 0
  }

  datatype Machine = Machine(r: Regs, mem: Memory)

  const CONTEXT_BYTES: int := 192

  predicate Zf(flags: Word) {
    flags / 64 % 2 == 1
  }

  /** The flags no arithmetic instruction writes: TF, IF, DF and bit 12 upwards. */
  function Control(flags: int): int {
    flags / 4096 * 4096 + flags / 256 % 8 * 256
  }

  lemma ControlOfParts(h: int, k: int, t: int, l: int)
    requires 0 <= h && 0 <= k < 8 && 0 <= l < 256 && (t == 0 || t == 8)
    ensures Control(h * 4096 + k * 256 + t * 256 + l) == h * 4096 + k * 256
  {
    var w, q := h * 4096 + k * 256 + t * 256 + l, 16 * h + k + t;
    DivisionIs(w, h, k * 256 + t * 256 + l, 4096);
    DivisionIs(w, q, l, 256);
    DivisionIs(q, 2 * h + t / 8, k, 8);
  }

  /** Bit 6 of a number put together from its parts. */
  lemma BitSix(w: int, h: int, z: int, l: int)
    requires w == h * 128 + z * 64 + l && 0 <= z < 2 && 0 <= l < 64
    ensures w / 64 % 2 == z
  {
    DivisionIs(w, 2 * h + z, l, 64);
    DivisionIs(2 * h + z, h, z, 2);
  }

  lemma FlagsOfParts(h: int, k: int, t: int, s: int, z: int, l: int)
    requires 0 <= h && 0 <= k < 8 && (t == 0 || t == 8) && 0 <= s < 2 && 0 <= z < 2 && 0 <= l < 64
    ensures var f := h * 4096 + k * 256 + t * 256 + (s * 128 + z * 64 + l);
      0 <= f < h * 4096 + 4096 && Control(f) == h * 4096 + k * 256 && f / 64 % 2 == z
  {
    var f := h * 4096 + k * 256 + t * 256 + (s * 128 + z * 64 + l);
    ControlOfParts(h, k, t, s * 128 + z * 64 + l);
    BitSix(f, h * 32 + k * 2 + t * 2 + s, z, l);
  }

  type SixBits = l: int | 0 <= l < 64

  /** The flags an arithmetic instruction leaves: the zero flag, bit 6, tells whether the result is
      zero; the other condition bits (0..7 and 11) are arbitrary, the control flags stay. */
  method ArithmeticFlags(flags: Word, zero: bool) returns (f: Word)
    ensures Control(f) == Control(flags)
    ensures f / 64 % 2 == 1 <==> zero
  {
    var low: SixBits, sign: bool, overflow: bool := *, *, *;
    f := Assembled(flags / 4096, flags / 256 % 8, if overflow then 8 else 0, if sign then 1 else 0, if zero then 1 else 0, low);
  }

  method Assembled(h: int, k: int, t: int, s: int, z: int, l: int) returns (f: Word)
    requires 0 <= h < 0x10_0000_0000_0000 && 0 <= k < 8 && (t == 0 || t == 8) && 0 <= s < 2 && 0 <= z < 2 && 0 <= l < 64
    ensures Control(f) == h * 4096 + k * 256 && f / 64 % 2 == z
  {
    FlagsOfParts(h, k, t, s, z, l);
    f := h * 4096 + k * 256 + t * 256 + (s * 128 + z * 64 + l);
  }

  /** `cmp` sets the flags for a difference, which is zero exactly if the operands are equal. */
  method Compare(a: Word, b: Word, flags: Word) returns (f: Word)
    ensures Control(f) == Control(flags)
    ensures f / 64 % 2 == 1 <==> a == b
  {
    f := ArithmeticFlags(flags, (a - b) % WRAP == 0);
  }

  /** `mov ax, seg` replaces the low 16 bits of rax only; `mov seg, ax` reads just these. */
  method MoveToAx(rax: Word, s: Seg) returns (w: Word)
    ensures Ax(w) == s
  {
    w := rax / 0x1_0000 * 0x1_0000 + s;
  }

  function Ax(rax: Word): Seg {
    rax % 0x1_0000
  }

  predicate Inside(a: int, base: int) {
    base <= a < base + CONTEXT_BYTES
  }

  /** The registers LoadContext and its iretq take from the array at `base`. */
  function Loaded(mem: Memory, base: int): Regs
  {
    Regs(rax := Slot(mem, base, 17), rbx := Slot(mem, base, 16), rcx := Slot(mem, base, 15),
         rdx := Slot(mem, base, 14), rsi := Slot(mem, base, 12), rdi := Slot(mem, base, 13),
         rbp := Slot(mem, base, 18), rsp := Slot(mem, base, 22),
         r8 := Slot(mem, base, 11), r9 := Slot(mem, base, 10), r10 := Slot(mem, base, 9),
         r11 := Slot(mem, base, 8), r12 := Slot(mem, base, 7), r13 := Slot(mem, base, 6),
         r14 := Slot(mem, base, 5), r15 := Slot(mem, base, 4),
         rip := Slot(mem, base, 19), rflags := Slot(mem, base, 21),
         cs := Ax(Slot(mem, base, 20)), ss := Ax(Slot(mem, base, 23)), ds := Ax(Slot(mem, base, 3)),
         es := Ax(Slot(mem, base, 2)), fs := Ax(Slot(mem, base, 1)), gs := Ax(Slot(mem, base, 0)))
  }

  function Slot(mem: Memory, base: int, k: int): Word {
    At(mem, base + 8 * k)
  }

  /** Equal registers, but for the condition bits of the flags. */
  predicate Same(a: Regs, b: Regs) {
    a == b.(rflags := a.rflags) && Control(a.rflags) == Control(b.rflags)
  }

  predicate Holds(mem: Memory, base: int, x: Regs) {
    Same(Loaded(mem, base), x)
  }

  predicate HasStack(r: Regs) {
    16 <= r.rsp < WRAP - 16
  }

  predicate HasContext(r: Regs, base: int) {
    base < WRAP - CONTEXT_BYTES && !Inside(r.rsp, base) && !Inside(r.rsp - 8, base) && !Inside(r.rsp - 16, base)
  }

  /** What a caller must find when it runs again: the call has returned, nothing else changed. */
  function Resume(m: Machine): Regs
    requires HasStack(m.r)
  {
    m.r.(rsp := m.r.rsp + 8, rip := At(m.mem, m.r.rsp))
  }

  /** Outside the victim's array (if it is saved) only the two words below the stack change. */
  ghost predicate OnlySaves(m: Machine, mem: Memory, saves: bool) {
    forall a :: At(mem, a) == At(m.mem, a) || a == m.r.rsp - 8 || a == m.r.rsp - 16 || (saves && Inside(a, m.r.rdi))
  }

  /** The relation between the machine at the entry of SwitchContext(rdi, rsi) and after its
      iretq.  The `je` looks at the flags of the caller, restored just before it. */
  ghost predicate Switched(m: Machine, m': Machine)
    requires HasStack(m.r)
  {
    var saves := !Zf(m.r.rflags);
    && OnlySaves(m, m'.mem, saves)
    && (saves ==> Holds(m'.mem, m.r.rdi, Resume(m)))
    && m'.r == Loaded(m'.mem, m.r.rsi)
  }

  /** The caller's stack and the context arrays are distinct parts of the address space. */
  predicate Callable(m: Machine) {
    && HasStack(m.r)
    && HasContext(m.r, m.r.rsi)
    && (!Zf(m.r.rflags) ==> HasContext(m.r, m.r.rdi))
  }

  predicate FrameSaved(mem: Memory, base: int, x: Regs) {
    && Slot(mem, base, 22) == x.rsp && Slot(mem, base, 19) == x.rip
    && Control(Slot(mem, base, 21)) == Control(x.rflags)
    && Ax(Slot(mem, base, 23)) == x.ss && Ax(Slot(mem, base, 20)) == x.cs
  }

  predicate LegacySaved(mem: Memory, base: int, x: Regs) {
    && Slot(mem, base, 18) == x.rbp && Slot(mem, base, 17) == x.rax && Slot(mem, base, 16) == x.rbx
    && Slot(mem, base, 15) == x.rcx && Slot(mem, base, 14) == x.rdx && Slot(mem, base, 13) == x.rdi
    && Slot(mem, base, 12) == x.rsi
  }

  predicate NumberedSaved(mem: Memory, base: int, x: Regs) {
    && Slot(mem, base, 11) == x.r8 && Slot(mem, base, 10) == x.r9
    && Slot(mem, base, 9) == x.r10 && Slot(mem, base, 8) == x.r11 && Slot(mem, base, 7) == x.r12
    && Slot(mem, base, 6) == x.r13 && Slot(mem, base, 5) == x.r14 && Slot(mem, base, 4) == x.r15
  }

  predicate SegmentsSaved(mem: Memory, base: int, x: Regs) {
    && Ax(Slot(mem, base, 3)) == x.ds && Ax(Slot(mem, base, 2)) == x.es
    && Ax(Slot(mem, base, 1)) == x.fs && Ax(Slot(mem, base, 0)) == x.gs
  }

  /** `mem'` differs from `mem` in the addresses from `lo` to `hi` only. */
  ghost predicate Confined(mem: Memory, mem': Memory, lo: int, hi: int) {
    forall a :: a < lo || hi < a ==> At(mem', a) == At(mem, a)
  }

  lemma PartsHold(m1: Memory, m2: Memory, m3: Memory, m4: Memory, base: int, x: Regs)
    requires FrameSaved(m1, base, x)
    requires LegacySaved(m2, base, x) && Confined(m1, m2, base + 96, base + 144)
    requires NumberedSaved(m3, base, x) && Confined(m2, m3, base + 32, base + 88)
    requires SegmentsSaved(m4, base, x) && Confined(m3, m4, base, base + 24)
    ensures Holds(m4, base, x)
  {
  }

  class Cpu {
    var r: Regs
    var mem: Memory

    constructor (m: Machine)
      ensures State() == m
    {
      r, mem := m.r, m.mem;
    }

    function State(): Machine
      reads this
    {
      Machine(r, mem)
    }

    /** Lines 112-123: rax is put aside; stack segment, stack pointer and flags are stored. */
    method SaveStack()
      requires HasStack(r) && HasContext(r, r.rdi)
      modifies this
      ensures r.(rax := old(r.rax), rsp := old(r.rsp), rflags := old(r.rflags)) == old(r) && r.rsp == old(r.rsp) - 8
      ensures OnlySaves(old(State()), mem, true)
      ensures Slot(mem, r.rdi, 22) == old(r.rsp) + 8 && Ax(Slot(mem, r.rdi, 23)) == r.ss
      ensures Control(Slot(mem, r.rdi, 21)) == Control(old(r.rflags)) && At(mem, r.rsp) == old(r.rax)
    {
      var base: int, m, rsp: int, flags, rax := r.rdi, mem, r.rsp - 8, r.rflags, r.rax;
      m := m[rsp := rax];
      rax := MoveToAx(rax, r.ss);
      m := m[base + 23 * 8 := rax];
      rax := rsp;
      rax := rax + 16;
      flags := ArithmeticFlags(flags, rax == 0);
      m := m[base + 22 * 8 := rax];
      m := m[rsp - 8 := flags];
      rax := flags;
      m := m[base + 21 * 8 := rax];
      mem, r := m, r.(rax := rax, rsp := rsp, rflags := flags);
    }

    /** Lines 125-130: code segment and return address are stored; rax returns. */
    method SaveReturn()
      requires 8 <= r.rsp < WRAP - 24 && (r.rsp < r.rdi || r.rdi + CONTEXT_BYTES <= r.rsp)
      requires r.rsp + 8 < r.rdi || r.rdi + CONTEXT_BYTES <= r.rsp + 8
      modifies this
      ensures r == old(r.(rax := At(mem, r.rsp), rsp := r.rsp + 8))
      ensures Confined(old(mem), mem, r.rdi + 152, r.rdi + 160)
      ensures Slot(mem, r.rdi, 19) == old(At(mem, r.rsp + 8)) && Ax(Slot(mem, r.rdi, 20)) == r.cs
    {
      var base: int, m, rax := r.rdi, mem, r.rax;
      rax := MoveToAx(rax, r.cs);
      m := m[base + 20 * 8 := rax];
      rax := At(m, r.rsp + 8);
      m := m[base + 19 * 8 := rax];
      rax := At(m, r.rsp);
      mem, r := m, r.(rax := rax, rsp := r.rsp + 8);
    }

    /** Lines 132-140: the registers with names. */
    method SaveLegacy()
      modifies `mem
      ensures Confined(old(mem), mem, r.rdi + 96, r.rdi + 144)
      ensures LegacySaved(mem, r.rdi, r)
    {
      var base: int, m := r.rdi, mem;
      m := m[base + 18 * 8 := r.rbp];
      m := m[base + 17 * 8 := r.rax];
      m := m[base + 16 * 8 := r.rbx];
      m := m[base + 15 * 8 := r.rcx];
      m := m[base + 14 * 8 := r.rdx];
      m := m[base + 13 * 8 := r.rdi];
      m := m[base + 12 * 8 := r.rsi];
      mem := m;
    }

    /** Lines 142-149: the registers with numbers. */
    method SaveNumbered()
      modifies `mem
      ensures Confined(old(mem), mem, r.rdi + 32, r.rdi + 88)
      ensures NumberedSaved(mem, r.rdi, r)
    {
      var base: int, m := r.rdi, mem;
      m := m[base + 11 * 8 := r.r8];
      m := m[base + 10 * 8 := r.r9];
      m := m[base + 9 * 8 := r.r10];
      m := m[base + 8 * 8 := r.r11];
      m := m[base + 7 * 8 := r.r12];
      m := m[base + 6 * 8 := r.r13];
      m := m[base + 5 * 8 := r.r14];
      m := m[base + 4 * 8 := r.r15];
      mem := m;
    }

    /** Lines 151-158: the data segments, through the low half of rax. */
    method SaveSegments()
      modifies this
      ensures Confined(old(mem), mem, r.rdi, r.rdi + 24)
      ensures r.(rax := old(r.rax)) == old(r)
      ensures SegmentsSaved(mem, r.rdi, r)
    {
      var base: int := r.rdi;
      var m, rax := mem, r.rax;
      rax := MoveToAx(rax, r.ds);
      m := m[base + 3 * 8 := rax];
      rax := MoveToAx(rax, r.es);
      m := m[base + 2 * 8 := rax];
      rax := MoveToAx(rax, r.fs);
      m := m[base + 8 := rax];
      rax := MoveToAx(rax, r.gs);
      m := m[base := rax];
      mem, r := m, r.(rax := rax);
    }

    method LoadContext()
      modifies `r
      ensures r == Loaded(mem, old(r.rsi))
    {
      var m, rsi: int := mem, r.rsi;
      var rbp := At(m, rsi + 18 * 8);
      var rbx, rcx, rdx := At(m, rsi + 16 * 8), At(m, rsi + 15 * 8), At(m, rsi + 14 * 8);
      var rdi := At(m, rsi + 13 * 8);
      var r8, r9, r10 := At(m, rsi + 11 * 8), At(m, rsi + 10 * 8), At(m, rsi + 9 * 8);
      var r11, r12, r13 := At(m, rsi + 8 * 8), At(m, rsi + 7 * 8), At(m, rsi + 6 * 8);
      var r14, r15 := At(m, rsi + 5 * 8), At(m, rsi + 4 * 8);
      var rax := At(m, rsi + 3 * 8);
      var ds := Ax(rax);
      rax := At(m, rsi + 2 * 8);
      var es := Ax(rax);
      rax := At(m, rsi + 8);
      var fs := Ax(rax);
      rax := At(m, rsi);
      var gs := Ax(rax);
      rax := At(m, rsi + 17 * 8);
      rsi := rsi + 19 * 8;
      var rsp := rsi;
      rsi := rsi - 19 * 8;
      rsi := At(m, rsi + 12 * 8);
      // iretq
      r := Regs(rax, rbx, rcx, rdx, rsi, rdi, rbp, At(m, rsp + 24), r8, r9, r10, r11, r12, r13, r14, r15,
                At(m, rsp), At(m, rsp + 16), Ax(At(m, rsp + 8)), Ax(At(m, rsp + 32)), ds, es, fs, gs);
    }

    /** Lines 112-130: what is to be found at the return, apart from the registers in use. */
    method SaveFrame()
      requires HasStack(r) && HasContext(r, r.rdi)
      modifies this
      ensures r == old(r).(rflags := r.rflags)
      ensures OnlySaves(old(State()), mem, true)
      ensures FrameSaved(mem, r.rdi, old(Resume(State())))
    {
      SaveStack();
      SaveReturn();
    }

    /** Lines 132-158: the registers, their values as the caller left them. */
    method SaveRegisters(ghost x: Regs)
      requires FrameSaved(mem, r.rdi, x) && r == x.(rsp := r.rsp, rip := r.rip, rflags := r.rflags)
      modifies this
      ensures Confined(old(mem), mem, old(r.rdi), old(r.rdi) + 144)
      ensures Holds(mem, old(r.rdi), x) && r.rsi == old(r.rsi)
    {
      ghost var base: int, m1 := r.rdi, mem;
      SaveLegacy();
      ghost var m2 := mem;
      SaveNumbered();
      ghost var m3 := mem;
      SaveSegments();
      PartsHold(m1, m2, m3, mem, base, x);
    }

    method SaveContext()
      requires HasStack(r) && HasContext(r, r.rdi)
      modifies this
      ensures OnlySaves(old(State()), mem, true)
      ensures Holds(mem, old(r.rdi), old(Resume(State())))
      ensures r.rsi == old(r.rsi)
    {
      ghost var x := Resume(State());
      SaveFrame();
      SaveRegisters(x);
    }

    method SwitchContext()
      requires Callable(State())
      modifies this
      ensures Switched(old(State()), State())
    {
      // pushfq, cmp rdi, 0, popfq
      mem := mem[r.rsp - 8 := r.rflags];
      var compared := Compare(r.rdi, 0, r.rflags);
      r := r.(rflags := compared);
      r := r.(rflags := At(mem, r.rsp - 8));
      if !Zf(r.rflags) {
        SaveContext();
      }
      LoadContext();
    }
  }

  /** A machine shared by many processes.  `current` owns the processor; `parked` gives, by the
      address of its context array, what each other process must find when it runs again; `lost`
      are those whose latest call found the zero flag set, so that they were not saved. */
  datatype World = World(m: Machine, current: int, parked: map<int, Regs>, lost: set<int>)

  /** Between switches the running process does what it likes outside the parked arrays.  An array
      it has filled may become that of a new process, and a parked process may end.  `Timer` is a
      switch through the interrupt stack instead: the kernel copies the interrupted registers to
      the array of the running process and loads those in the array at `next`. */
  datatype Event =
    | Compute(to: Machine)
    | Call(to: Machine)
    | Timer(to: Machine, next: int)
    | Create(base: int)
    | End(base: int)

  /** The processes as they stand once the caller, if it is to come back, has been parked. */
  function Expected(w: World): map<int, Regs>
    requires HasStack(w.m.r)
  {
    if w.m.r.rdi == 0 then w.parked else w.parked[w.m.r.rdi := Resume(w.m)]
  }

  function Lost(w: World): set<int> {
    if w.m.r.rdi == 0 then w.lost
    else if Zf(w.m.r.rflags) then w.lost + {w.m.r.rdi} else w.lost - {w.m.r.rdi}
  }

  /** The saved array of the caller, if any, is apart from that of a parked process. */
  predicate Apart(r: Regs, b: int) {
    HasContext(r, b) && (!Zf(r.rflags) ==> b <= r.rdi - CONTEXT_BYTES || r.rdi + CONTEXT_BYTES <= b)
  }

  ghost predicate ArraysStay(w: World, to: Machine) {
    forall b, a :: b in w.parked && Inside(a, b) ==> At(to.mem, a) == At(w.m.mem, a)
  }

  ghost predicate Allowed(w: World, e: Event) {
    match e
    case Compute(to) => ArraysStay(w, to)
    case Timer(to, next) =>
      && ArraysStay(w, to) && w.current !in w.parked && Holds(to.mem, w.current, w.m.r)
      && next in w.parked && to.r == Loaded(w.m.mem, next)
    case Call(to) =>
      var r := w.m.r;
      && Callable(w.m)
      && (r.rdi == 0 || r.rdi == w.current)
      && r.rsi in Expected(w)
      && (forall b :: b in w.parked ==> Apart(r, b))
      && Switched(w.m, to)
    case Create(b) => b !in w.parked && b != w.current
    case End(_) => true
  }

  function Step(w: World, e: Event): World
    requires e.Call? ==> HasStack(w.m.r)
  {
    match e
    case Compute(to) => w.(m := to)
    case Timer(to, next) => World(to, next, w.parked[w.current := w.m.r] - {next}, w.lost - {w.current, next})
    case Call(to) => World(to, w.m.r.rsi, Expected(w) - {w.m.r.rsi}, Lost(w) - {w.m.r.rsi})
    case Create(b) => w.(parked := w.parked[b := Loaded(w.m.mem, b)], lost := w.lost - {b})
    case End(b) => w.(parked := w.parked - {b})
  }

  ghost predicate Inv(w: World) {
    forall b :: b in w.parked && b !in w.lost ==> Holds(w.m.mem, b, w.parked[b])
  }

  ghost predicate Reaches(w: World, es: seq<Event>, w': World)
    decreases |es|
  {
    if es == [] then w == w'
    else Allowed(w, es[0]) && Reaches(Step(w, es[0]), es[1..], w')
  }

  /** An array nobody writes still holds the same registers. */
  lemma HoldsUntouched(mem: Memory, mem': Memory, base: int, x: Regs)
    requires Holds(mem, base, x)
    requires forall a :: Inside(a, base) ==> At(mem', a) == At(mem, a)
    ensures Holds(mem', base, x)
  {
    assert forall k :: 0 <= k < 24 ==> Inside(base + 8 * k, base);
    assert Loaded(mem', base) == Loaded(mem, base);
  }

  /** A call leaves an array alone that is apart from the caller's stack and array. */
  lemma CallSpares(m: Machine, mem: Memory, b: int)
    requires OnlySaves(m, mem, !Zf(m.r.rflags)) && Apart(m.r, b)
    ensures forall a :: Inside(a, b) ==> At(mem, a) == At(m.mem, a)
  {
    forall a | Inside(a, b) ensures At(mem, a) == At(m.mem, a) {
      assert a != m.r.rsp - 8 && a != m.r.rsp - 16;
    }
  }

  lemma CallKeepsParked(w: World, e: Event)
    requires Inv(w) && e.Call? && Allowed(w, e)
    ensures forall b :: b in Expected(w) && b !in Lost(w) ==> Holds(e.to.mem, b, Expected(w)[b])
  {
    forall b | b in Expected(w) && b !in Lost(w) ensures Holds(e.to.mem, b, Expected(w)[b]) {
      if w.m.r.rdi == 0 || b != w.m.r.rdi {
        CallSpares(w.m, e.to.mem, b);
        HoldsUntouched(w.m.mem, e.to.mem, b, w.parked[b]);
      }
    }
  }

  lemma ParkedStay(w: World, to: Machine)
    requires Inv(w) && ArraysStay(w, to)
    ensures forall b :: b in w.parked && b !in w.lost ==> Holds(to.mem, b, w.parked[b])
  {
    forall b | b in w.parked && b !in w.lost ensures Holds(to.mem, b, w.parked[b]) {
      HoldsUntouched(w.m.mem, to.mem, b, w.parked[b]);
    }
  }

  lemma {:induction false} RunKeepsInv(w: World, es: seq<Event>, w': World)
    requires Inv(w) && Reaches(w, es, w')
    ensures Inv(w')
    decreases |es|
  {
    if es != [] {
      match es[0] {
        case Compute(to) => ParkedStay(w, to);
        case Timer(to, _) => ParkedStay(w, to);
        case Call(to) => CallKeepsParked(w, es[0]);
        case Create(_) =>
        case End(_) =>
      }
      RunKeepsInv(Step(w, es[0]), es[1..], w');
    }
  }

  /** Switching virtualises the registers: at the end of any run, with any flags at any call and
      timer switches in between, a process that a call resumes finds its registers, segments,
      control flags, stack and return address as they were when it was left (a process switching
      to itself included), provided its own zero flag was clear if it called. */
  lemma SwitchResumesAsParked(start: World, es: seq<Event>, w: World, e: Event)
    requires Inv(start) && Reaches(start, es, w)
    requires e.Call? && Allowed(w, e)
    ensures w.m.r.rsi !in Lost(w) ==> Same(e.to.r, Expected(w)[w.m.r.rsi])
  {
    RunKeepsInv(start, es, w);
    CallKeepsParked(w, e);
  }

  /** What `Same` leaves to the flags: TF, IF, DF and all from bit 12 upwards agree. */
  lemma SameFlags(a: Regs, b: Regs)
    requires Same(a, b)
    ensures a.rflags / 4096 == b.rflags / 4096 && a.rflags / 256 % 8 == b.rflags / 256 % 8
  {
    DivisionIs(Control(a.rflags), a.rflags / 4096, a.rflags / 256 % 8 * 256, 4096);
    DivisionIs(Control(b.rflags), b.rflags / 4096, b.rflags / 256 % 8 * 256, 4096);
  }

  /** The array at `b` stays that of a parked process during the run. */
  ghost predicate StaysParked(w: World, es: seq<Event>, b: int)
    decreases |es|
  {
    b in w.parked && (es != [] ==> Allowed(w, es[0]) && StaysParked(Step(w, es[0]), es[1..], b))
  }

  lemma {:induction false} ParkedUnchanged(w: World, es: seq<Event>, w': World, b: int)
    requires Reaches(w, es, w') && StaysParked(w, es, b)
    requires w.current !in w.parked && b !in w.lost
    ensures b in w'.parked && w'.parked[b] == w.parked[b] && b !in w'.lost && w'.current !in w'.parked
    decreases |es|
  {
    if es != [] {
      ParkedUnchanged(Step(w, es[0]), es[1..], w', b);
    }
  }

  /** A call and its return.  A process calls with its zero flag (bit 6) clear; whatever other
      processes do until some call switches back to it, it then has every register and segment it
      had, the stack pointer above the return address, the control flags, and goes on there. */
  lemma CallerResumes(before: World, call: Event, es: seq<Event>, w: World, back: Event, h: int, l: int)
    requires Inv(before) && call.Call? && Allowed(before, call) && before.m.r.rdi != 0
    requires before.m.r.rflags == h * 128 + l && 0 <= l < 64
    requires Reaches(Step(before, call), es, w) && StaysParked(Step(before, call), es, before.m.r.rdi)
    requires back.Call? && Allowed(w, back) && w.m.r.rsi == before.m.r.rdi
    ensures var m, x := before.m, back.to.r;
      && x == m.r.(rsp := m.r.rsp + 8, rip := At(m.mem, m.r.rsp), rflags := x.rflags)
      && x.rflags / 4096 == m.r.rflags / 4096 && x.rflags / 256 % 8 == m.r.rflags / 256 % 8
  {
    var b, after := before.m.r.rdi, Step(before, call);
    BitSix(before.m.r.rflags, h, 0, l);
    CallKeepsParked(before, call);
    ParkedUnchanged(after, es, w, b);
    SwitchResumesAsParked(after, es, w, back);
    SameFlags(back.to.r, Resume(before.m));
  }

  /** A process that switches to itself goes on in the same way at once. */
  lemma SelfSwitchReturns(w: World, call: Event, h: int, l: int)
    requires Inv(w) && call.Call? && Allowed(w, call) && w.m.r.rdi == w.m.r.rsi != 0
    requires w.m.r.rflags == h * 128 + l && 0 <= l < 64
    ensures var m, x := w.m, call.to.r;
      && x == m.r.(rsp := m.r.rsp + 8, rip := At(m.mem, m.r.rsp), rflags := x.rflags)
      && x.rflags / 4096 == m.r.rflags / 4096 && x.rflags / 256 % 8 == m.r.rflags / 256 % 8
  {
    BitSix(w.m.r.rflags, h, 0, l);
    CallKeepsParked(w, call);
    SameFlags(call.to.r, Resume(w.m));
  }

  /** Where each register is in memory. */
  lemma LoadedAt(mem: Memory, base: int)
    ensures var x := Loaded(mem, base);
      && x.gs == At(mem, base) % 0x1_0000 && x.fs == At(mem, base + 1 * 8) % 0x1_0000
      && x.es == At(mem, base + 2 * 8) % 0x1_0000 && x.ds == At(mem, base + 3 * 8) % 0x1_0000
      && x.r15 == At(mem, base + 4 * 8) && x.r14 == At(mem, base + 5 * 8) && x.r13 == At(mem, base + 6 * 8)
      && x.r12 == At(mem, base + 7 * 8) && x.r11 == At(mem, base + 8 * 8) && x.r10 == At(mem, base + 9 * 8)
      && x.r9 == At(mem, base + 10 * 8) && x.r8 == At(mem, base + 11 * 8) && x.rsi == At(mem, base + 12 * 8)
      && x.rdi == At(mem, base + 13 * 8) && x.rdx == At(mem, base + 14 * 8) && x.rcx == At(mem, base + 15 * 8)
      && x.rbx == At(mem, base + 16 * 8) && x.rax == At(mem, base + 17 * 8) && x.rbp == At(mem, base + 18 * 8)
      && x.rip == At(mem, base + 19 * 8) && x.cs == At(mem, base + 20 * 8) % 0x1_0000
      && x.rflags == At(mem, base + 21 * 8) && x.rsp == At(mem, base + 22 * 8)
      && x.ss == At(mem, base + 23 * 8) % 0x1_0000
  {
  }

  /** An array as Set_Attr_Process fills it, by the scheduler's register numbers. */
  predicate Prepared(mem: Memory, base: int, entry: Word, top: Word) {
    && Slot(mem, base, 19) == entry && Slot(mem, base, 21) == 0x200
    && Slot(mem, base, 22) == Slot(mem, base, 18) == top
    && Slot(mem, base, 20) == 0x08 && Slot(mem, base, 23) == 0x10
    && (forall k :: 0 <= k < 4 ==> Slot(mem, base, k) == 0x10)
    && (forall k :: 4 <= k < 18 ==> Slot(mem, base, k) == 0)
  }

  /** A process so prepared starts at its entry point, on its stack, in the kernel's segments, with
      interrupts on. */
  lemma NewProcessStarts(m: Machine, m': Machine, entry: Word, top: Word)
    requires Callable(m) && Switched(m, m') && Apart(m.r, m.r.rsi) && Prepared(m.mem, m.r.rsi, entry, top)
    ensures m'.r == Regs(0, 0, 0, 0, 0, 0, top, top, 0, 0, 0, 0, 0, 0, 0, 0, entry, 0x200, 0x08, 0x10, 0x10, 0x10, 0x10, 0x10)
  {
    var base := m.r.rsi;
    CallSpares(m, m'.mem, base);
    forall k | 0 <= k < 24 ensures Slot(m'.mem, base, k) == Slot(m.mem, base, k) {
      assert Inside(base + 8 * k, base);
    }
    assert Prepared(m'.mem, base, entry, top);
    PreparedLoads(m'.mem, base, entry, top);
  }

  lemma PreparedLoads(mem: Memory, base: int, entry: Word, top: Word)
    requires Prepared(mem, base, entry, top)
    ensures Loaded(mem, base)
      == Regs(0, 0, 0, 0, 0, 0, top, top, 0, 0, 0, 0, 0, 0, 0, 0, entry, 0x200, 0x08, 0x10, 0x10, 0x10, 0x10, 0x10)
  {
  }

  /** The comparison of rdi with NULL does not decide anything: a caller that is not already
      saved is saved exactly if its own zero flag, bit 6, is clear on entry. */
  lemma SavedIffEntryZeroFlagClear(m: Machine, m': Machine, h: int, z: int, l: int)
    requires HasStack(m.r) && HasContext(m.r, m.r.rsi) && HasContext(m.r, m.r.rdi) && Switched(m, m')
    requires m.r.rflags == h * 128 + z * 64 + l && 0 <= z < 2 && 0 <= l < 64
    requires !Holds(m.mem, m.r.rdi, Resume(m))
    ensures Holds(m'.mem, m.r.rdi, Resume(m)) <==> z == 0
  {
    BitSix(m.r.rflags, h, z, l);
    if z == 1 && Holds(m'.mem, m.r.rdi, Resume(m)) {
      HoldsUntouched(m'.mem, m.mem, m.r.rdi, Resume(m));
    }
  }

  /** So every such caller whose zero flag is set on entry is lost, NULL or not. */
  lemma StaleZeroFlagLosesVictim(m: Machine, h: int, l: int) returns (m': Machine)
    requires HasStack(m.r) && HasContext(m.r, m.r.rsi) && HasContext(m.r, m.r.rdi)
    requires m.r.rflags == h * 128 + 64 + l && 0 <= l < 64
    requires !Holds(m.mem, m.r.rdi, Resume(m))
    ensures Switched(m, m') && !Holds(m'.mem, m.r.rdi, Resume(m))
  {
    var mem := m.mem[m.r.rsp - 8 := m.r.rflags];
    m' := Machine(Loaded(mem, m.r.rsi), mem);
    BitSix(m.r.rflags, h, 1, l);
    SavedIffEntryZeroFlagClear(m, m', h, 1, l);
  }
}
