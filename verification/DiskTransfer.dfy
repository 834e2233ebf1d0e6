/** ReadSector and WriteSector against an abstract ATA device (PIO data-in and data-out, sections
    9.5 and 9.6 of ATA/ATAPI-6): register programming, the handshake for every sector, and when
    the transfer is right. */
module DiskTransfer {
  import opened Basics

  type Sector = s: seq<Byte> | |s| == 512 witness seq(512, _ => 0)

  function Zeroes(): Sector {
    seq(512, _ => 0)
  }

  const SECTOR_COUNT: nat := 2
  const LBA_LOW: nat := 3
  const LBA_MID: nat := 4
  const LBA_HIGH: nat := 5
  const DRIVE_HEAD: nat := 6
  const COMMAND: nat := 7
  const READ_COMMAND: Byte := 0x20
  const WRITE_COMMAND: Byte := 0x30
  const LBA28: int := 0x1000_0000

  /** Two drives behind one set of registers; a running command has `left` sectors to go from
      address `at` of drive `unit`; `drq` says that the data register is ready. */
  datatype Ata = Ata(disks: seq<seq<Sector>>, count: Byte, low: Byte, mid: Byte, high: Byte, head: Byte,
                     unit: nat, at: nat, left: nat, drq: bool)

  /** The device and the flag IsInteruppted, which its interrupt handler sets. */
  datatype Bus = Bus(ata: Ata, irq: bool)

  predicate WellFormed(b: Bus) {
    |b.ata.disks| == 2 && b.ata.unit < 2
  }

  function Disk(b: Bus): seq<Sector>
    requires WellFormed(b)
  {
    b.ata.disks[b.ata.unit]
  }

  /** The address in the registers, and the count, 0 standing for 256. */
  function Address(a: Ata): nat {
    a.low + 0x100 * a.mid + 0x1_0000 * a.high + 0x100_0000 * (a.head % 16)
  }

  function Length(a: Ata): nat {
    if a.count == 0 then 256 else a.count
  }

  /** A byte written to a port.  A command starts with the registers as they are; the device asks
      for the first sector of a write at once, without an interrupt. */
  function Out(a: Ata, port: nat, value: Byte): Ata {
    if port == SECTOR_COUNT then a.(count := value)
    else if port == LBA_LOW then a.(low := value)
    else if port == LBA_MID then a.(mid := value)
    else if port == LBA_HIGH then a.(high := value)
    else if port == DRIVE_HEAD then a.(head := value)
    else if port == COMMAND then
      a.(unit := a.head / 16 % 2, at := Address(a), left := Length(a), drq := value == WRITE_COMMAND)
    else a
  }

  /** The device has the next sector ready and interrupts. */
  function BecomesReady(b: Bus): Bus {
    if b.ata.left > 0 && !b.ata.drq then Bus(b.ata.(drq := true), true) else b
  }

  function SectorAt(b: Bus): Sector
    requires WellFormed(b)
  {
    if b.ata.at < |Disk(b)| then Disk(b)[b.ata.at] else Zeroes()
  }

  /** One sector taken from, or given to, a device that is ready. */
  function Moved(b: Bus): Bus
    requires b.ata.left > 0
  {
    b.(ata := b.ata.(at := b.ata.at + 1, left := b.ata.left - 1, drq := false))
  }

  function Stored(b: Bus, data: Sector): Bus
    requires WellFormed(b)
  {
    if b.ata.at < |Disk(b)|
    then b.(ata := b.ata.(disks := b.ata.disks[b.ata.unit := Disk(b)[b.ata.at := data]]))
    else b
  }

  /** The driver's poll: the device may have become ready before it; otherwise the driver waits
      for the flag, which may already be set. */
  function Polled(b: Bus, ready: bool): Bus {
    var b1 := if ready then BecomesReady(b) else b;
    if b1.ata.drq then b1
    else if b1.irq then b1.(irq := false)
    else BecomesReady(b1).(irq := false)
  }

  /** GetSector: from a device that is not ready it reads whatever the data register holds. */
  function Got(b: Bus, junk: Sector): (Bus, Sector)
    requires WellFormed(b)
  {
    if b.ata.drq && b.ata.left > 0 then (Moved(b), SectorAt(b)) else (b, junk)
  }

  /** SetSector: a device that is not ready ignores the data. */
  function Given(b: Bus, data: Sector): Bus
    requires WellFormed(b)
  {
    if b.ata.drq && b.ata.left > 0 then Moved(Stored(b, data)) else b
  }

  /** The sector loops, given for every poll whether the device became ready before it. */
  function ReadLoop(b: Bus, ready: seq<bool>, junk: seq<Sector>): (Bus, seq<Sector>)
    requires WellFormed(b) && |junk| == |ready|
    decreases |ready|
  {
    if ready == [] then (b, [])
    else
      var (b1, s) := Got(Polled(b, ready[0]), junk[0]);
      var (b2, rest) := ReadLoop(b1, ready[1..], junk[1..]);
      (b2, [s] + rest)
  }

  function WriteLoop(b: Bus, ready: seq<bool>, data: seq<Sector>): (b': Bus)
    requires WellFormed(b) && |data| == |ready|
    ensures WellFormed(b')
    decreases |ready|
  {
    if ready == [] then b
    else WriteLoop(Given(Polled(b, ready[0]), data[0]), ready[1..], data[1..])
  }

  /** No sector found ready at its poll comes before one that must be waited for. */
  predicate InStep(ready: seq<bool>) {
    forall i, j :: 0 <= i < j < |ready| && ready[i] ==> ready[j]
  }

  predicate AllReady(ready: seq<bool>) {
    forall i :: 0 <= i < |ready| ==> ready[i]
  }

  /** A read command just issued for `n` sectors, all of them on the disk. */
  predicate Reading(b: Bus, n: nat) {
    WellFormed(b) && !b.ata.drq && b.ata.left == n && b.ata.at + n <= |Disk(b)|
  }

  lemma {:induction false} ReadRight(b: Bus, ready: seq<bool>, junk: seq<Sector>)
    requires Reading(b, |ready|) && |junk| == |ready|
    requires InStep(ready) && (b.irq ==> AllReady(ready))
    ensures ReadLoop(b, ready, junk).1 == Disk(b)[b.ata.at..b.ata.at + |ready|]
    decreases |ready|
  {
    if ready != [] {
      var b1 := Got(Polled(b, ready[0]), junk[0]).0;
      ReadRight(b1, ready[1..], junk[1..]);
    }
  }

  /** Otherwise some sector of the buffer is whatever the data register held. */
  lemma {:induction false} ReadWrong(b: Bus, ready: seq<bool>, junk: seq<Sector>) returns (j: nat)
    requires Reading(b, |ready|) && |junk| == |ready|
    requires !InStep(ready) || (b.irq && !AllReady(ready))
    ensures j < |ready| == |ReadLoop(b, ready, junk).1| && ReadLoop(b, ready, junk).1[j] == junk[j]
    decreases |ready|
  {
    ReadLength(b, ready, junk);
    if b.irq && !ready[0] {
      j := 0;
    } else {
      var b1 := Got(Polled(b, ready[0]), junk[0]).0;
      var k := ReadWrong(b1, ready[1..], junk[1..]);
      j := k + 1;
    }
  }

  lemma {:induction false} ReadLength(b: Bus, ready: seq<bool>, junk: seq<Sector>)
    requires WellFormed(b) && |junk| == |ready|
    ensures |ReadLoop(b, ready, junk).1| == |ready|
    decreases |ready|
  {
    if ready != [] {
      ReadLength(Got(Polled(b, ready[0]), junk[0]).0, ready[1..], junk[1..]);
    }
  }

  function Other(s: Sector): Sector {
    s[0 := if s[0] == 0 then 1 else 0]
  }

  /** A multi-sector read is right, whatever a device that is not ready may return, exactly if the
      schedule is in step. */
  lemma ReadRightIffInStep(b: Bus, ready: seq<bool>)
    requires Reading(b, |ready|) && !b.irq
    ensures (forall junk: seq<Sector> :: |junk| == |ready| ==>
        ReadLoop(b, ready, junk).1 == Disk(b)[b.ata.at..b.ata.at + |ready|])
      <==> InStep(ready)
  {
    var right := Disk(b)[b.ata.at..b.ata.at + |ready|];
    if InStep(ready) {
      forall junk: seq<Sector> | |junk| == |ready| ensures ReadLoop(b, ready, junk).1 == right {
        ReadRight(b, ready, junk);
      }
    } else {
      var junk := seq(|ready|, i requires 0 <= i < |ready| => Other(right[i]));
      var j := ReadWrong(b, ready, junk);
      assert ReadLoop(b, ready, junk).1[j] != right[j];
    }
  }

  /** A write command just issued: the device asks for the first sector, without interrupting. */
  predicate Writing(b: Bus, n: nat) {
    WellFormed(b) && b.ata.left == n && b.ata.at + n <= |Disk(b)|
  }

  function Overwritten(disk: seq<Sector>, at: nat, data: seq<Sector>): seq<Sector>
    requires at + |data| <= |disk|
  {
    disk[..at] + data + disk[at + |data|..]
  }

  /** The drives after the sectors of `data` went to the current address. */
  function Landed(b: Bus, data: seq<Sector>): seq<seq<Sector>>
    requires Writing(b, |data|)
  {
    b.ata.disks[b.ata.unit := Overwritten(Disk(b), b.ata.at, data)]
  }

  /** One sector given and the rest landing means that all land. */
  lemma LandedStep(b: Bus, data: seq<Sector>)
    requires Writing(b, |data|) && data != []
    ensures Writing(Moved(Stored(b, data[0])), |data| - 1)
    ensures Landed(Moved(Stored(b, data[0])), data[1..]) == Landed(b, data)
  {
    var b1 := Moved(Stored(b, data[0]));
    assert Disk(b1) == Disk(b)[b.ata.at := data[0]];
    assert Overwritten(Disk(b1), b1.ata.at, data[1..]) == Overwritten(Disk(b), b.ata.at, data);
  }

  lemma {:induction false} WriteRight(b: Bus, ready: seq<bool>, data: seq<Sector>)
    requires Writing(b, |ready|) && |data| == |ready| && !b.ata.drq
    requires InStep(ready) && (b.irq ==> AllReady(ready))
    ensures WriteLoop(b, ready, data).ata.disks == Landed(b, data)
    decreases |ready|
  {
    if ready == [] {
      assert Overwritten(Disk(b), b.ata.at, []) == Disk(b);
    } else {
      LandedStep(b, data);
      WriteRight(Given(Polled(b, ready[0]), data[0]), ready[1..], data[1..]);
    }
  }

  /** Addresses the device has not come to keep their sectors. */
  lemma {:induction false} WriteFrame(b: Bus, ready: seq<bool>, data: seq<Sector>)
    requires WellFormed(b) && |data| == |ready|
    ensures var b' := WriteLoop(b, ready, data);
      && b'.ata.unit == b.ata.unit && |Disk(b')| == |Disk(b)|
      && b.ata.at <= b'.ata.at && b'.ata.at + b'.ata.left == b.ata.at + b.ata.left && b'.ata.left + |ready| >= b.ata.left
      && forall k :: b'.ata.at <= k < |Disk(b)| ==> Disk(b')[k] == Disk(b)[k]
    decreases |ready|
  {
    if ready != [] {
      WriteFrame(Given(Polled(b, ready[0]), data[0]), ready[1..], data[1..]);
    }
  }

  lemma {:induction false} WriteLoses(b: Bus, ready: seq<bool>, data: seq<Sector>)
    requires WellFormed(b) && |data| == |ready| <= b.ata.left && !b.ata.drq
    requires !InStep(ready) || (b.irq && !AllReady(ready))
    ensures WriteLoop(b, ready, data).ata.left + |ready| > b.ata.left
    decreases |ready|
  {
    var b1 := Given(Polled(b, ready[0]), data[0]);
    if b.irq && !ready[0] {
      WriteFrame(b1, ready[1..], data[1..]);
    } else {
      WriteLoses(b1, ready[1..], data[1..]);
    }
  }

  lemma LandedLast(b: Bus, data: seq<Sector>)
    requires Writing(b, |data|) && data != []
    ensures Landed(b, data)[b.ata.unit][b.ata.at + |data| - 1] == data[|data| - 1]
  {
  }

  /** The last sector is then not written; any data that should have changed it is a witness. */
  lemma WriteMisses(b: Bus, ready: seq<bool>, data: seq<Sector>)
    requires Writing(b, |ready|) && |data| == |ready| > 0 && b.ata.drq && !b.irq && !InStep(ready[1..])
    requires data[|data| - 1] != Disk(b)[b.ata.at + |data| - 1]
    ensures WriteLoop(b, ready, data).ata.disks != Landed(b, data)
  {
    WriteLoses(Given(Polled(b, ready[0]), data[0]), ready[1..], data[1..]);
    WriteFrame(b, ready, data);
    var last := b.ata.at + |data| - 1;
    LandedLast(b, data);
    assert Disk(WriteLoop(b, ready, data))[last] == Disk(b)[last];
  }

  lemma WriteLands(b: Bus, ready: seq<bool>, data: seq<Sector>)
    requires Writing(b, |ready|) && |data| == |ready| > 0 && b.ata.drq && !b.irq && InStep(ready[1..])
    ensures WriteLoop(b, ready, data).ata.disks == Landed(b, data)
  {
    LandedStep(b, data);
    WriteRight(Given(Polled(b, ready[0]), data[0]), ready[1..], data[1..]);
  }

  /** All the sectors of a write land where they should, whatever they are, exactly if from the
      second one on the schedule is in step: the first is asked for without an interrupt. */
  lemma WriteLandsIffInStep(b: Bus, ready: seq<bool>)
    requires Writing(b, |ready|) && ready != [] && b.ata.drq && !b.irq
    ensures (forall data: seq<Sector> {:trigger WriteLoop(b, ready, data)} :: |data| == |ready| ==>
        WriteLoop(b, ready, data).ata.disks == Landed(b, data))
      <==> InStep(ready[1..])
  {
    if InStep(ready[1..]) {
      forall data: seq<Sector> | |data| == |ready| ensures WriteLoop(b, ready, data).ata.disks == Landed(b, data) {
        WriteLands(b, ready, data);
      }
    } else {
      var x := Other(Disk(b)[b.ata.at + |ready| - 1]);
      WriteMisses(b, ready, seq(|ready|, _ => x));
    }
  }
}
