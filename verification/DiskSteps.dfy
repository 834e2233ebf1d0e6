/** The steps of ReadSector and WriteSector that touch the lock or a port, as a machine for one
    process, and what a call has transferred at each of them. */
module DiskSteps {

  const STATUS_ERROR: bv8 := 0x01
  const STATUS_DRQ: bv8 := 0x08
  const STATUS_RDY: bv8 := 0x40
  const STATUS_BSY: bv8 := 0x80

  /** Where a process stands in a call for `n` sectors. */
  datatype Pc =
    | Outside
    | PollBusy(n: nat)
    | Program(n: nat, register: nat)
    | PollReady(n: nat)
    | Issue(n: nat)
    | PollData(n: nat, i: nat)
    | AwaitInterrupt(n: nat, i: nat)
    | Move(n: nat, i: nat)
    | Finish

  const REGISTERS: nat := 5

  /** The next step of a process inside, given the status byte it reads if it reads one. */
  function Next(pc: Pc, status: bv8): Pc {
    match pc
    case Outside => Outside
    case PollBusy(n) =>
      if status & STATUS_BSY == 0 then Program(n, 0)
      else if status & STATUS_ERROR != 0 then Finish else pc
    case Program(n, r) => if r + 1 < REGISTERS then Program(n, r + 1) else PollReady(n)
    case PollReady(n) =>
      if status & STATUS_RDY != 0 then Issue(n)
      else if status & STATUS_ERROR != 0 then Finish else pc
    case Issue(n) => if n == 0 then Finish else PollData(n, 0)
    case PollData(n, i) => if status & STATUS_DRQ != 0 then Move(n, i) else AwaitInterrupt(n, i)
    case AwaitInterrupt(n, i) => Move(n, i)
    case Move(n, i) => if i + 1 < n then PollData(n, i + 1) else Finish
    case Finish => Outside
  }

  predicate TouchesPort(pc: Pc) {
    !pc.Outside? && !pc.AwaitInterrupt? && !pc.Finish?
  }

  /** A step taken: where, and the status byte read there if one was. */
  datatype Action = Action(pc: Pc, status: bv8)

  /** The actions lead from one place in a call to another. */
  predicate Path(start: Pc, actions: seq<Action>, end: Pc)
    decreases |actions|
  {
    if actions == [] then start == end
    else
      var last := actions[|actions| - 1];
      Path(start, actions[..|actions| - 1], last.pc) && Next(last.pc, last.status) == end
  }

  /** The data transfers among them, in order. */
  function Transfers(actions: seq<Action>): seq<Pc> {
    if actions == [] then []
    else
      var last := actions[|actions| - 1].pc;
      Transfers(actions[..|actions| - 1]) + if last.Move? then [last] else []
  }

  function FirstMoves(n: nat, i: nat): seq<Pc> {
    seq(i, k requires 0 <= k < i => Move(n, k))
  }

  /** What a call for `n` sectors has transferred when it stands at `pc`. */
  predicate Transferred(n: nat, pc: Pc, moves: seq<Pc>) {
    match pc
    case Outside => moves == [] || moves == FirstMoves(n, n)
    case PollBusy(m) => m == n && moves == []
    case Program(m, _) => m == n && moves == []
    case PollReady(m) => m == n && moves == []
    case Issue(m) => m == n && moves == []
    case PollData(m, i) => m == n && i < n && moves == FirstMoves(n, i)
    case AwaitInterrupt(m, i) => m == n && i < n && moves == FirstMoves(n, i)
    case Move(m, i) => m == n && i < n && moves == FirstMoves(n, i)
    case Finish => moves == [] || moves == FirstMoves(n, n)
  }

  lemma {:induction false} PathTransfers(n: nat, actions: seq<Action>, pc: Pc)
    requires n > 0 && Path(PollBusy(n), actions, pc)
    ensures Transferred(n, pc, Transfers(actions))
    decreases |actions|
  {
    if actions != [] {
      var last := actions[|actions| - 1];
      PathTransfers(n, actions[..|actions| - 1], last.pc);
      if last.pc.Move? {
        assert FirstMoves(n, last.pc.i) + [last.pc] == FirstMoves(n, last.pc.i + 1);
      }
    }
  }

  /** A call that has come to its end has moved its sectors one after another, or none at all. */
  lemma CallMovesAllOrNothing(n: nat, actions: seq<Action>)
    requires n > 0 && Path(PollBusy(n), actions, Outside)
    ensures Transfers(actions) == [] || Transfers(actions) == FirstMoves(n, n)
  {
    PathTransfers(n, actions, Outside);
  }
}
