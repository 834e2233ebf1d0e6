/** The disk driver: guard, lock, polling, register programming and sector loops of ReadSector and
    WriteSector, and the round trip through the device. */
module DiskDriver {
  import opened Basics
  import opened DiskSteps
  import opened DiskTransfer

  /** The guard common to both calls, in 64-bit arithmetic. */
  predicate Rejected(lba: Word, count: nat, total: nat) {
    count == 0 || count > 256 || (lba + count) % WRAP >= total
  }

  /** The drive and head register: LBA mode, drive select, top four address bits. */
  function DriveHead(isMaster: bool, lba: Word): Byte {
    (if isMaster then 0xE0 else 0xF0) + lba / 0x100_0000 % 0x10
  }

  function Programmed(a: Ata, isMaster: bool, lba: Word, count: nat): Ata {
    var a1 := Out(a, SECTOR_COUNT, count % 256);
    var a2 := Out(a1, LBA_LOW, lba % 0x100);
    var a3 := Out(a2, LBA_MID, lba / 0x100 % 0x100);
    var a4 := Out(a3, LBA_HIGH, lba / 0x1_0000 % 0x100);
    Out(a4, DRIVE_HEAD, DriveHead(isMaster, lba))
  }

  function Commanded(b: Bus, isMaster: bool, lba: Word, count: nat, command: Byte): Bus {
    Bus(Out(Programmed(b.ata, isMaster, lba, count), COMMAND, command), false)
  }

  lemma AddressPieces(x: int)
    requires 0 <= x
    ensures x % 0x100 + 0x100 * (x / 0x100 % 0x100) + 0x1_0000 * (x / 0x1_0000 % 0x100) + 0x100_0000 * (x / 0x100_0000 % 0x10)
      == x % LBA28
  {
    var a, b, c := x / 0x100, x / 0x1_0000, x / 0x100_0000;
    assert a / 0x100 == b && b / 0x100 == c && c / 0x10 == x / LBA28;
    assert x == 0x100 * a + x % 0x100 && a == 0x100 * b + a % 0x100 && b == 0x100 * c + b % 0x100;
    assert c == 0x10 * (c / 0x10) + c % 0x10;
  }

  lemma DriveHeadBits(isMaster: bool, lba: Word)
    ensures var head := DriveHead(isMaster, lba);
      head % 16 == lba / 0x100_0000 % 0x10 && head / 16 % 2 == (if isMaster then 0 else 1) && head / 32 == 7
  {
    var d, drive := lba / 0x100_0000 % 0x10, if isMaster then 0 else 1;
    DivisionIs(DriveHead(isMaster, lba), 14 + drive, d, 16);
    DivisionIs(DriveHead(isMaster, lba), 7, drive * 16 + d, 32);
  }

  /** Which register a port is. */
  lemma PortsAreRegisters(a: Ata, v: Byte)
    ensures Out(a, 2, v) == a.(count := v) && Out(a, 3, v) == a.(low := v) && Out(a, 4, v) == a.(mid := v)
    ensures Out(a, 5, v) == a.(high := v) && Out(a, 6, v) == a.(head := v)
    ensures Out(a, 7, v) == a.(unit := a.head / 16 % 2, at := Address(a), left := Length(a), drq := v == 0x30)
  {
  }

  /** The four pieces of the address rebuild it modulo 2^28, a count of 256 goes through as 0, bit 4
      selects the drive, and the three bits above it are set, bit 6 for LBA mode. */
  lemma RegistersRebuildRequest(a: Ata, isMaster: bool, lba: Word, count: nat)
    requires 1 <= count <= 256
    ensures Address(Programmed(a, isMaster, lba, count)) == lba % LBA28
    ensures Length(Programmed(a, isMaster, lba, count)) == count
    ensures Programmed(a, isMaster, lba, count).head / 16 % 2 == if isMaster then 0 else 1
    ensures Programmed(a, isMaster, lba, count).head / 32 == 7
    ensures Address(Programmed(a, isMaster, lba, count)) == lba <==> lba < 0x1000_0000
  {
    AddressPieces(lba);
    DriveHeadBits(isMaster, lba);
  }

  /** A request is let through exactly if it is for 1 to 256 sectors and LBA + Count, in 64 bits, is
      below the number of sectors; it then lies below the last sector exactly if the sum does not
      wrap.  So every request that lies below it is let through. */
  lemma GuardBoundsIffNoWrap(lba: Word, count: nat, total: nat)
    requires total < 0x1_0000_0000
    ensures Rejected(lba, count, total) <==> !(1 <= count <= 256 && (lba + count) % 0x1_0000_0000_0000_0000 < total)
    ensures !Rejected(lba, count, total) ==> (lba + count < total <==> lba + count < 0x1_0000_0000_0000_0000)
    ensures 1 <= count <= 256 && lba + count < total ==> !Rejected(lba, count, total)
  {
  }

  /** The status bytes of the first polling loop decide it. */
  predicate DecidesBusy(status: seq<bv8>) {
    status != [] && (status[0] & STATUS_BSY == 0 || status[0] & STATUS_ERROR != 0 || DecidesBusy(status[1..]))
  }

  predicate GetsIdle(status: seq<bv8>)
    requires DecidesBusy(status)
  {
    status[0] & STATUS_BSY == 0 || (status[0] & STATUS_ERROR == 0 && GetsIdle(status[1..]))
  }

  /** And those of the second. */
  predicate DecidesReady(status: seq<bv8>) {
    status != [] && (status[0] & STATUS_RDY != 0 || status[0] & STATUS_ERROR != 0 || DecidesReady(status[1..]))
  }

  predicate GetsReady(status: seq<bv8>)
    requires DecidesReady(status)
  {
    status[0] & STATUS_RDY != 0 || (status[0] & STATUS_ERROR == 0 && GetsReady(status[1..]))
  }

  /** BSY (0x80) is clear at some status byte, and until then it is set without ERROR (0x01). */
  ghost predicate ComesIdle(status: seq<bv8>) {
    exists k :: 0 <= k < |status| && status[k] & 0x80 == 0
      && forall j :: 0 <= j < k ==> status[j] & 0x80 != 0 && status[j] & 0x01 == 0
  }

  /** RDY (0x40) is set at some status byte, and until then both it and ERROR are clear. */
  ghost predicate ComesReady(status: seq<bv8>) {
    exists k :: 0 <= k < |status| && status[k] & 0x40 != 0
      && forall j :: 0 <= j < k ==> status[j] & 0x40 == 0 && status[j] & 0x01 == 0
  }

  lemma {:induction false} GetsIdleIff(status: seq<bv8>)
    requires DecidesBusy(status)
    ensures GetsIdle(status) <==> ComesIdle(status)
  {
    if status[0] & 0x80 == 0 {
      assert ComesIdle(status);
    } else if status[0] & 0x01 == 0 {
      var rest := status[1..];
      GetsIdleIff(rest);
      if ComesIdle(rest) {
        var k :| 0 <= k < |rest| && rest[k] & 0x80 == 0
          && forall j :: 0 <= j < k ==> rest[j] & 0x80 != 0 && rest[j] & 0x01 == 0;
        assert status[k + 1] & 0x80 == 0;
        assert forall j :: 0 < j < k + 1 ==> status[j] == rest[j - 1];
      }
      if ComesIdle(status) {
        var k :| 0 <= k < |status| && status[k] & 0x80 == 0
          && forall j :: 0 <= j < k ==> status[j] & 0x80 != 0 && status[j] & 0x01 == 0;
        assert rest[k - 1] & 0x80 == 0;
      }
    }
  }

  lemma {:induction false} GetsReadyIff(status: seq<bv8>)
    requires DecidesReady(status)
    ensures GetsReady(status) <==> ComesReady(status)
  {
    if status[0] & 0x40 != 0 {
      assert ComesReady(status);
    } else if status[0] & 0x01 == 0 {
      var rest := status[1..];
      GetsReadyIff(rest);
      if ComesReady(rest) {
        var k :| 0 <= k < |rest| && rest[k] & 0x40 != 0
          && forall j :: 0 <= j < k ==> rest[j] & 0x40 == 0 && rest[j] & 0x01 == 0;
        assert status[k + 1] & 0x40 != 0;
        assert forall j :: 0 < j < k + 1 ==> status[j] == rest[j - 1];
      }
      if ComesReady(status) {
        var k :| 0 <= k < |status| && status[k] & 0x40 != 0
          && forall j :: 0 <= j < k ==> status[j] & 0x40 == 0 && status[j] & 0x01 == 0;
        assert rest[k - 1] & 0x40 != 0;
      }
    }
  }

  /** Bytes that contain a deciding one decide: the polling loops run as long as none does. */
  lemma {:induction false} DecidedBy(status: seq<bv8>, k: nat)
    requires k < |status|
    ensures status[k] & 0x80 == 0 || status[k] & 0x01 != 0 ==> DecidesBusy(status)
    ensures status[k] & 0x40 != 0 || status[k] & 0x01 != 0 ==> DecidesReady(status)
  {
    if k > 0 {
      DecidedBy(status[1..], k - 1);
    }
  }

  /** With the sectors of `done` read, the rest of the loop still gives `all`. */
  predicate Resumes(all: (Bus, seq<Sector>), b: Bus, done: seq<Sector>, ready: seq<bool>, junk: seq<Sector>)
    requires |done| <= |ready| == |junk| && WellFormed(b)
  {
    var rest := ReadLoop(b, ready[|done|..], junk[|done|..]);
    all == (rest.0, done + rest.1)
  }

  lemma ResumesNext(all: (Bus, seq<Sector>), b: Bus, done: seq<Sector>, ready: seq<bool>, junk: seq<Sector>)
    requires |done| < |ready| == |junk| && WellFormed(b) && Resumes(all, b, done, ready, junk)
    ensures var got := Got(Polled(b, ready[|done|]), junk[|done|]);
      Resumes(all, got.0, done + [got.1], ready, junk)
  {
    var i := |done|;
    assert ready[i..][1..] == ready[i + 1..] && junk[i..][1..] == junk[i + 1..];
    var got := Got(Polled(b, ready[i]), junk[i]);
    var rest := ReadLoop(got.0, ready[i + 1..], junk[i + 1..]).1;
    assert done + ([got.1] + rest) == (done + [got.1]) + rest;
  }

  /** `pc` is the place of the calling process among the steps of DiskSteps, and `log` the steps
      it has taken in its latest call, for `sectors` sectors: the lock is taken and given back, and
      a port touched, only where that machine does so. */
  class Driver {
    var bus: Bus
    ghost var pc: Pc
    ghost var log: seq<Action>
    ghost var sectors: nat
    const totalSectors: nat

    constructor (bus: Bus, totalSectors: nat)
      ensures this.bus == bus && pc == Outside && this.totalSectors == totalSectors
    {
      this.bus, pc, log, sectors, this.totalSectors := bus, Outside, [], 0, totalSectors;
    }

    ghost predicate OnPath()
      reads `pc, `log, `sectors
    {
      Path(PollBusy(sectors), log, pc)
    }

    /** One step of the machine. */
    ghost method Act(status: bv8)
      requires OnPath()
      modifies `pc, `log
      ensures OnPath() && pc == Next(old(pc), status)
    {
      var action := Action(pc, status);
      assert (log + [action])[..|log|] == log;
      log, pc := log + [action], Next(pc, status);
    }

    /** The retry loop around the lock, when it has been granted. */
    method AcquireDisk(ghost n: nat)
      requires pc == Outside
      modifies `pc, `log, `sectors
      ensures OnPath() && pc == PollBusy(n) && sectors == n
    {
      pc, log, sectors := PollBusy(n), [], n;
    }

    method ReleaseDisk()
      requires OnPath() && pc == Finish
      modifies `pc, `log
      ensures OnPath() && pc == Outside
    {
      Act(0);
    }

    method WritePort(port: nat, value: Byte)
      requires OnPath() && (pc.Program? || pc.Issue?)
      modifies `bus, `pc, `log
      ensures bus == old(bus).(ata := Out(old(bus.ata), port, value))
      ensures OnPath() && pc == Next(old(pc), 0) && TouchesPort(old(pc))
    {
      bus := bus.(ata := Out(bus.ata, port, value));
      Act(0);
    }

    /** The status byte the device answers with. */
    method ReadStatus(answer: bv8) returns (status: bv8)
      requires OnPath() && (pc.PollBusy? || pc.PollReady? || pc.PollData?)
      modifies `pc, `log
      ensures status == answer && OnPath() && pc == Next(old(pc), answer) && TouchesPort(old(pc))
    {
      status := answer;
      Act(answer);
    }

    method AwaitIdle(answers: seq<bv8>) returns (ok: bool)
      requires OnPath() && pc.PollBusy? && DecidesBusy(answers)
      modifies `pc, `log
      ensures OnPath() && ok == GetsIdle(answers) && pc == if ok then Program(old(pc).n, 0) else Finish
    {
      var i := 1;
      var status := ReadStatus(answers[0]);
      while status & STATUS_BSY != 0
        invariant 1 <= i <= |answers| && status == answers[i - 1]
        invariant DecidesBusy(answers[i - 1..]) && GetsIdle(answers) == GetsIdle(answers[i - 1..])
        invariant OnPath() && pc == Next(old(pc), status)
        decreases |answers| - i
      {
        if status & STATUS_ERROR != 0 {
          return false;
        }
        assert answers[i - 1..][1..] == answers[i..];
        status := ReadStatus(answers[i]);
        i := i + 1;
      }
      return true;
    }

    method AwaitReady(answers: seq<bv8>) returns (ok: bool)
      requires OnPath() && pc.PollReady? && DecidesReady(answers)
      modifies `pc, `log
      ensures OnPath() && ok == GetsReady(answers) && pc == if ok then Issue(old(pc).n) else Finish
    {
      var i := 1;
      var status := ReadStatus(answers[0]);
      while status & STATUS_RDY == 0
        invariant 1 <= i <= |answers| && status == answers[i - 1]
        invariant DecidesReady(answers[i - 1..]) && GetsReady(answers) == GetsReady(answers[i - 1..])
        invariant OnPath() && pc == Next(old(pc), status)
        decreases |answers| - i
      {
        if status & STATUS_ERROR != 0 {
          return false;
        }
        assert answers[i - 1..][1..] == answers[i..];
        status := ReadStatus(answers[i]);
        i := i + 1;
      }
      return true;
    }

    method ProgramRegisters(isMaster: bool, lba: Word, count: nat)
      requires OnPath() && pc == Program(count, 0)
      modifies `bus, `pc, `log
      ensures OnPath() && bus == old(bus).(ata := Programmed(old(bus.ata), isMaster, lba, count)) && pc == PollReady(count)
    {
      WritePort(SECTOR_COUNT, count % 256);
      WritePort(LBA_LOW, lba % 0x100);
      WritePort(LBA_MID, lba / 0x100 % 0x100);
      WritePort(LBA_HIGH, lba / 0x1_0000 % 0x100);
      WritePort(DRIVE_HEAD, DriveHead(isMaster, lba));
    }

    /** The poll before every sector.  The device acts between the driver's statements: `ready`
        tells whether it does so before the poll, and its interrupt is what ends a wait. */
    method AwaitSector(ready: bool)
      requires OnPath() && pc.PollData?
      modifies `bus, `pc, `log
      ensures OnPath() && bus == Polled(old(bus), ready) && pc == Move(old(pc).n, old(pc).i)
    {
      if ready {
        bus := BecomesReady(bus);
      }
      var status := ReadStatus(if bus.ata.drq then 0x08 else 0);
      if status & STATUS_DRQ == 0 {
        if !bus.irq {
          bus := BecomesReady(bus);
        }
        bus := bus.(irq := false);
        Act(0);
      }
    }

    /** One sector read from, or written to, the data port. */
    method GetSector(junk: Sector) returns (data: Sector)
      requires OnPath() && pc.Move? && WellFormed(bus)
      modifies `bus, `pc, `log
      ensures (bus, data) == Got(old(bus), junk) && OnPath() && pc == Next(old(pc), 0) && TouchesPort(old(pc))
    {
      var got := Got(bus, junk);
      bus, data := got.0, got.1;
      Act(0);
    }

    /** One round of the reading loop. */
    method ReceiveSector(ready: bool, junk: Sector) returns (data: Sector)
      requires OnPath() && pc.PollData? && WellFormed(bus)
      modifies `bus, `pc, `log
      ensures (bus, data) == Got(Polled(old(bus), ready), junk) && WellFormed(bus) && OnPath()
      ensures pc == Next(Move(old(pc).n, old(pc).i), 0)
    {
      AwaitSector(ready);
      data := GetSector(junk);
    }

    method SendSector(ready: bool, data: Sector)
      requires OnPath() && pc.PollData? && WellFormed(bus)
      modifies `bus, `pc, `log
      ensures bus == Given(Polled(old(bus), ready), data) && WellFormed(bus) && OnPath()
      ensures pc == Next(Move(old(pc).n, old(pc).i), 0)
    {
      AwaitSector(ready);
      SetSector(data);
    }

    method SetSector(data: Sector)
      requires OnPath() && pc.Move? && WellFormed(bus)
      modifies `bus, `pc, `log
      ensures bus == Given(old(bus), data) && OnPath() && pc == Next(old(pc), 0) && TouchesPort(old(pc))
    {
      bus := Given(bus, data);
      Act(0);
    }

    /** The registers, and the wait for RDY. */
    method SelectSectors(isMaster: bool, lba: Word, count: nat, rdy: seq<bv8>) returns (ok: bool)
      requires OnPath() && pc == Program(count, 0) && DecidesReady(rdy)
      modifies `bus, `pc, `log
      ensures OnPath() && ok == GetsReady(rdy) && pc == if ok then Issue(count) else Finish
      ensures bus == old(bus).(ata := Programmed(old(bus.ata), isMaster, lba, count))
    {
      ProgramRegisters(isMaster, lba, count);
      ok := AwaitReady(rdy);
    }

    /** What both calls do between the lock and the sector loop; on failure the lock is free. */
    method StartCommand(isMaster: bool, lba: Word, count: nat, command: Byte, busy: seq<bv8>, rdy: seq<bv8>)
      returns (started: bool)
      requires pc == Outside && WellFormed(bus) && count > 0 && DecidesBusy(busy) && DecidesReady(rdy)
      modifies `bus, `pc, `log, `sectors
      ensures OnPath() && sectors == count && WellFormed(bus)
      ensures started == (GetsIdle(busy) && GetsReady(rdy)) && pc == if started then PollData(count, 0) else Outside
      ensures started ==> bus == Commanded(old(bus), isMaster, lba, count, command)
      ensures !started ==> bus.ata == old(bus.ata) || bus.ata == Programmed(old(bus.ata), isMaster, lba, count)
    {
      AcquireDisk(count);
      var idle := AwaitIdle(busy);
      if !idle {
        ReleaseDisk();
        return false;
      }
      var isReady := SelectSectors(isMaster, lba, count, rdy);
      if !isReady {
        ReleaseDisk();
        return false;
      }
      bus := bus.(irq := false);
      WritePort(COMMAND, command);
      return true;
    }

    method ReadSectors(count: nat, buffer: array<Sector>, ready: seq<bool>, junk: seq<Sector>)
      requires OnPath() && pc == PollData(count, 0) && WellFormed(bus) && 0 < count <= buffer.Length && |ready| == |junk| == count
      modifies `bus, `pc, `log, buffer
      ensures OnPath() && pc == Finish && WellFormed(bus)
      ensures bus == ReadLoop(old(bus), ready, junk).0 && buffer[..count] == ReadLoop(old(bus), ready, junk).1
      ensures buffer[count..] == old(buffer[count..])
    {
      ghost var all := ReadLoop(bus, ready, junk);
      var i := 0;
      assert ready[0..] == ready && junk[0..] == junk && buffer[..0] + all.1 == all.1;
      while i < count
        invariant 0 <= i <= count && WellFormed(bus) && OnPath() && pc == if i < count then PollData(count, i) else Finish
        invariant Resumes(all, bus, buffer[..i], ready, junk)
        invariant forall k :: count <= k < buffer.Length ==> buffer[k] == old(buffer[k])
      {
        ghost var before := buffer[..i];
        ResumesNext(all, bus, before, ready, junk);
        var data := ReceiveSector(ready[i], junk[i]);
        buffer[i] := data;
        assert buffer[..i + 1] == before + [data];
        i := i + 1;
      }
      assert buffer[..count] + [] == buffer[..count];
    }

    method WriteSectors(count: nat, data: array<Sector>, ready: seq<bool>)
      requires OnPath() && pc == PollData(count, 0) && WellFormed(bus) && 0 < count <= data.Length && |ready| == count
      modifies `bus, `pc, `log
      ensures OnPath() && pc == Finish && WellFormed(bus)
      ensures bus == WriteLoop(old(bus), ready, data[..count])
    {
      var i := 0;
      assert ready[0..] == ready;
      while i < count
        invariant 0 <= i <= count && WellFormed(bus) && OnPath() && pc == if i < count then PollData(count, i) else Finish
        invariant WriteLoop(old(bus), ready, data[..count]) == WriteLoop(bus, ready[i..], data[i..count])
      {
        assert ready[i..][1..] == ready[i + 1..] && data[i..count][1..] == data[i + 1..count];
        SendSector(ready[i], data[i]);
        i := i + 1;
      }
    }

    method ReadSector(isMaster: bool, lba: Word, count: nat, buffer: array<Sector>,
                      busy: seq<bv8>, rdy: seq<bv8>, ready: seq<bool>, junk: seq<Sector>) returns (done: nat)
      requires pc == Outside && WellFormed(bus) && DecidesBusy(busy) && DecidesReady(rdy)
      requires count <= buffer.Length && |ready| == |junk| == count
      modifies `bus, `pc, `log, `sectors, buffer
      ensures pc == Outside && WellFormed(bus)
      ensures if Rejected(lba, count, totalSectors) then log == old(log) else Path(PollBusy(count), log, Outside)
      ensures done ==
        if 1 <= count <= 256 && (lba + count) % 0x1_0000_0000_0000_0000 < totalSectors && ComesIdle(busy) && ComesReady(rdy)
        then count else 0
      ensures done == 0 ==> buffer[..] == old(buffer[..]) && bus.ata.disks == old(bus.ata.disks)
      ensures done > 0 ==>
        && (bus, buffer[..count]) == ReadLoop(Commanded(old(bus), isMaster, lba, count, 0x20), ready, junk)
        && buffer[count..] == old(buffer[count..])
    {
      GetsIdleIff(busy);
      GetsReadyIff(rdy);
      if Rejected(lba, count, totalSectors) {
        return 0;
      }
      var started := StartCommand(isMaster, lba, count, READ_COMMAND, busy, rdy);
      if !started {
        return 0;
      }
      ReadSectors(count, buffer, ready, junk);
      ReleaseDisk();
      return count;
    }

    method WriteSector(isMaster: bool, lba: Word, count: nat, data: array<Sector>,
                       busy: seq<bv8>, rdy: seq<bv8>, ready: seq<bool>) returns (done: nat)
      requires pc == Outside && WellFormed(bus) && DecidesBusy(busy) && DecidesReady(rdy)
      requires count <= data.Length && |ready| == count
      modifies `bus, `pc, `log, `sectors
      ensures pc == Outside && WellFormed(bus)
      ensures if Rejected(lba, count, totalSectors) then log == old(log) else Path(PollBusy(count), log, Outside)
      ensures done ==
        if 1 <= count <= 256 && (lba + count) % 0x1_0000_0000_0000_0000 < totalSectors && ComesIdle(busy) && ComesReady(rdy)
        then count else 0
      ensures done == 0 ==> bus.ata.disks == old(bus.ata.disks)
      ensures done > 0 ==>
        bus == WriteLoop(Commanded(old(bus), isMaster, lba, count, 0x30), ready, data[..count])
    {
      GetsIdleIff(busy);
      GetsReadyIff(rdy);
      if Rejected(lba, count, totalSectors) {
        return 0;
      }
      var started := StartCommand(isMaster, lba, count, WRITE_COMMAND, busy, rdy);
      if !started {
        return 0;
      }
      WriteSectors(count, data, ready);
      ReleaseDisk();
      return count;
    }
  }

  /** What a command just issued finds. */
  lemma CommandStarts(b: Bus, isMaster: bool, lba: Word, count: nat, command: Byte)
    requires WellFormed(b) && 1 <= count <= 256 && lba + count <= LBA28
    ensures var c := Commanded(b, isMaster, lba, count, command);
      && WellFormed(c) && !c.irq && c.ata.disks == b.ata.disks && c.ata.drq == (command == 0x30)
      && c.ata.unit == (if isMaster then 0 else 1) && c.ata.at == lba && c.ata.left == count
  {
    RegistersRebuildRequest(b.ata, isMaster, lba, count);
  }

  /** The drives with `data` at `lba` of the one selected. */
  function Updated(disks: seq<seq<Sector>>, isMaster: bool, lba: nat, data: seq<Sector>): seq<seq<Sector>>
    requires |disks| == 2 && lba + |data| <= |disks[if isMaster then 0 else 1]|
  {
    var unit := if isMaster then 0 else 1;
    disks[unit := Overwritten(disks[unit], lba, data)]
  }

  /** Sector by sector: those of the request are the data, all others of both drives are as before. */
  lemma UpdatedSectors(disks: seq<seq<Sector>>, isMaster: bool, lba: nat, data: seq<Sector>, u: nat, k: nat)
    requires |disks| == 2 && lba + |data| <= |disks[if isMaster then 0 else 1]|
    requires u < 2 && k < |disks[u]|
    ensures var t := Updated(disks, isMaster, lba, data);
      && |t| == 2 && |t[u]| == |disks[u]|
      && t[u][k] == if u == (if isMaster then 0 else 1) && lba <= k < lba + |data| then data[k - lba] else disks[u][k]
  {
  }

  /** A read in step gives the sectors of the request. */
  lemma ReadGivesSectors(b: Bus, isMaster: bool, lba: Word, count: nat, ready: seq<bool>, junk: seq<Sector>)
    requires WellFormed(b) && 1 <= count <= 256 && lba + count <= LBA28 && |ready| == |junk| == count && InStep(ready)
    requires lba + count <= |b.ata.disks[if isMaster then 0 else 1]|
    ensures ReadLoop(Commanded(b, isMaster, lba, count, 0x20), ready, junk).1
      == b.ata.disks[if isMaster then 0 else 1][lba..lba + count]
  {
    CommandStarts(b, isMaster, lba, count, 0x20);
    ReadRight(Commanded(b, isMaster, lba, count, 0x20), ready, junk);
  }

  /** Written and read again, 512 * Count bytes come back unchanged and every other sector of both
      drives is as before, whether or not the device has yet interrupted for the end of the write. */
  lemma WriteThenRead(b: Bus, isMaster: bool, lba: Word, count: nat, data: seq<Sector>, written: seq<bool>,
                      late: bool, read: seq<bool>, junk: seq<Sector>)
    requires WellFormed(b) && 1 <= count <= 256 && lba + count <= LBA28
    requires lba + count <= |b.ata.disks[if isMaster then 0 else 1]|
    requires |data| == |written| == |read| == |junk| == count
    requires InStep(written[1..]) && InStep(read)
    ensures var b1 := WriteLoop(Commanded(b, isMaster, lba, count, WRITE_COMMAND), written, data).(irq := late);
      && b1.ata.disks == Updated(b.ata.disks, isMaster, lba, data)
      && ReadLoop(Commanded(b1, isMaster, lba, count, READ_COMMAND), read, junk).1 == data
  {
    var c := Commanded(b, isMaster, lba, count, WRITE_COMMAND);
    CommandStarts(b, isMaster, lba, count, WRITE_COMMAND);
    WriteLands(c, written, data);
    var b1 := WriteLoop(c, written, data).(irq := late);
    CommandStarts(b1, isMaster, lba, count, READ_COMMAND);
    ReadRight(Commanded(b1, isMaster, lba, count, READ_COMMAND), read, junk);
  }

  lemma {:induction false} ReadKeepsDisks(b: Bus, ready: seq<bool>, junk: seq<Sector>)
    requires WellFormed(b) && |junk| == |ready|
    ensures ReadLoop(b, ready, junk).0.ata.disks == b.ata.disks
    decreases |ready|
  {
    if ready != [] {
      ReadKeepsDisks(Got(Polled(b, ready[0]), junk[0]).0, ready[1..], junk[1..]);
    }
  }

  /** The calls themselves, one after the other; the interrupt for the end of the write may come
      in between. */
  method WriteAndRead(driver: Driver, isMaster: bool, lba: Word, data: array<Sector>, buffer: array<Sector>,
                      answers: seq<seq<bv8>>, written: seq<bool>, late: bool, read: seq<bool>, junk: seq<Sector>)
    returns (wrote: nat, got: nat)
    requires driver.pc == Outside && WellFormed(driver.bus) && data != buffer
    requires |answers| == 4 && DecidesBusy(answers[0]) && DecidesReady(answers[1])
    requires DecidesBusy(answers[2]) && DecidesReady(answers[3])
    requires 1 <= data.Length == buffer.Length == |written| == |read| == |junk|
    requires lba + data.Length <= LBA28
    requires lba + data.Length <= |driver.bus.ata.disks[if isMaster then 0 else 1]|
    requires InStep(written[1..]) && InStep(read)
    modifies driver, buffer
    ensures driver.pc == Outside && data[..] == old(data[..])
    ensures wrote ==
      if data.Length <= 256 && lba + data.Length < driver.totalSectors && ComesIdle(answers[0]) && ComesReady(answers[1])
      then data.Length else 0
    ensures got ==
      if data.Length <= 256 && lba + data.Length < driver.totalSectors && ComesIdle(answers[2]) && ComesReady(answers[3])
      then data.Length else 0
    ensures wrote == 0 ==> driver.bus.ata.disks == old(driver.bus.ata.disks)
    ensures wrote > 0 ==> driver.bus.ata.disks == Updated(old(driver.bus.ata.disks), isMaster, lba, data[..])
    ensures wrote > 0 && got > 0 ==> buffer[..] == data[..]
  {
    ghost var b, sent := driver.bus, data[..];
    wrote := WriteAll(driver, isMaster, lba, data, answers[..2], written);
    if wrote > 0 {
      WriteThenRead(b, isMaster, lba, data.Length, sent, written, late, read, junk);
    }
    driver.bus := driver.bus.(irq := late);
    got := ReadAll(driver, isMaster, lba, buffer, answers[2..], read, junk);
  }

  method WriteAll(driver: Driver, isMaster: bool, lba: Word, data: array<Sector>,
                  answers: seq<seq<bv8>>, ready: seq<bool>) returns (done: nat)
    requires driver.pc == Outside && WellFormed(driver.bus)
    requires |answers| == 2 && DecidesBusy(answers[0]) && DecidesReady(answers[1])
    requires 1 <= data.Length == |ready| && lba + data.Length <= LBA28
    modifies driver
    ensures driver.pc == Outside && WellFormed(driver.bus)
    ensures done ==
      if data.Length <= 256 && lba + data.Length < driver.totalSectors && ComesIdle(answers[0]) && ComesReady(answers[1])
      then data.Length else 0
    ensures done == 0 ==> driver.bus.ata.disks == old(driver.bus.ata.disks)
    ensures done > 0 ==>
      driver.bus == WriteLoop(Commanded(old(driver.bus), isMaster, lba, data.Length, WRITE_COMMAND), ready, data[..])
  {
    assert data[..data.Length] == data[..];
    done := driver.WriteSector(isMaster, lba, data.Length, data, answers[0], answers[1], ready);
  }

  method ReadAll(driver: Driver, isMaster: bool, lba: Word, buffer: array<Sector>,
                 answers: seq<seq<bv8>>, ready: seq<bool>, junk: seq<Sector>) returns (done: nat)
    requires driver.pc == Outside && WellFormed(driver.bus)
    requires |answers| == 2 && DecidesBusy(answers[0]) && DecidesReady(answers[1])
    requires 1 <= buffer.Length == |ready| == |junk| && lba + buffer.Length <= LBA28
    modifies driver, buffer
    ensures driver.pc == Outside && driver.bus.ata.disks == old(driver.bus.ata.disks)
    ensures done ==
      if buffer.Length <= 256 && lba + buffer.Length < driver.totalSectors && ComesIdle(answers[0]) && ComesReady(answers[1])
      then buffer.Length else 0
    ensures done > 0 ==>
      buffer[..] == ReadLoop(Commanded(old(driver.bus), isMaster, lba, buffer.Length, READ_COMMAND), ready, junk).1
  {
    ghost var c := Commanded(driver.bus, isMaster, lba, buffer.Length, READ_COMMAND);
    done := driver.ReadSector(isMaster, lba, buffer.Length, buffer, answers[0], answers[1], ready, junk);
    if done > 0 {
      ReadKeepsDisks(c, ready, junk);
    }
    assert buffer[..buffer.Length] == buffer[..];
  }
}
