/** The key ring: PutKeyBuf runs whole, inside the keyboard interrupt, between any two statements
    of GetKeyBuf, which masks nothing.  `Buf_Count--` is taken to be one indivisible update. */
module KeyRing {
  import opened Basics

  const BUFFER_SIZE: nat := 100

  datatype Ring = Ring(buf: seq<Byte>, put: nat, get: nat, count: int)

  predicate WellFormed(r: Ring) {
    |r.buf| == BUFFER_SIZE && r.put < BUFFER_SIZE && r.get < BUFFER_SIZE
  }

  /** The bounded queue the ring stands for. */
  function Offered(q: seq<Byte>, key: Byte): seq<Byte> {
    if |q| < BUFFER_SIZE then q + [key] else q
  }

  function OfferedAll(q: seq<Byte>, keys: seq<Byte>): seq<Byte> {
    if keys == [] then q else Offered(OfferedAll(q, keys[..|keys| - 1]), keys[|keys| - 1])
  }

  /** How far a call of GetKeyBuf has come: the count tested, the key read, the count lowered. */
  datatype Reader = Idle | Tested | Loaded(key: Byte) | Lowered(key: Byte)

  function At(start: nat, j: nat): nat
    requires start < BUFFER_SIZE && j <= BUFFER_SIZE
  {
    if start + j < BUFFER_SIZE then start + j else start + j - BUFFER_SIZE
  }

  /** The first slot not yet handed to the reader: once the count is lowered, the slot at
      GetIndex is given up although GetIndex still points to it. */
  function Start(r: Ring, pc: Reader): nat
    requires WellFormed(r)
  {
    if pc.Lowered? then At(r.get, 1) else r.get
  }

  function Queue(r: Ring, pc: Reader): seq<Byte>
    requires WellFormed(r) && 0 <= r.count <= BUFFER_SIZE
  {
    seq(r.count, j requires 0 <= j < r.count => r.buf[At(Start(r, pc), j)])
  }

  predicate Valid(r: Ring, pc: Reader) {
    && WellFormed(r) && 0 <= r.count <= BUFFER_SIZE
    && r.put == At(Start(r, pc), r.count)
    && (pc.Tested? || pc.Loaded? ==> r.count > 0)
    && (pc.Loaded? ==> pc.key == r.buf[r.get])
  }

  function Put(r: Ring, key: Byte): Ring
    requires WellFormed(r)
  {
    if r.count >= BUFFER_SIZE then r
    else Ring(r.buf[r.put := key], (r.put + 1) % BUFFER_SIZE, r.get, r.count + 1)
  }

  function Taken(r: Ring): Ring {
    r.(count := r.count - 1)
  }

  function Advanced(r: Ring): Ring {
    r.(get := (r.get + 1) % BUFFER_SIZE)
  }

  lemma PutOffers(r: Ring, pc: Reader, key: Byte)
    requires Valid(r, pc)
    ensures Valid(Put(r, key), pc)
    ensures Queue(Put(r, key), pc) == Offered(Queue(r, pc), key)
  {
  }

  /** Until the count is lowered, the queue is that of an idle reader. */
  lemma SameQueue(r: Ring, pc: Reader)
    requires WellFormed(r) && 0 <= r.count <= BUFFER_SIZE && !pc.Lowered?
    ensures Queue(r, pc) == Queue(r, Idle)
  {
  }

  lemma TakeLowers(r: Ring, key: Byte)
    requires Valid(r, Loaded(key))
    ensures Valid(Taken(r), Lowered(key))
    ensures Queue(r, Loaded(key)) == [key] + Queue(Taken(r), Lowered(key))
  {
  }

  lemma AdvanceEnds(r: Ring, key: Byte)
    requires Valid(r, Lowered(key))
    ensures Valid(Advanced(r), Idle)
    ensures Queue(Advanced(r), Idle) == Queue(r, Lowered(key))
  {
  }

  lemma {:induction false} OfferedKeepsHead(q: seq<Byte>, keys: seq<Byte>)
    ensures q <= OfferedAll(q, keys)
  {
    if keys != [] {
      OfferedKeepsHead(q, keys[..|keys| - 1]);
    }
  }

  class KeyBuffer {
    const buf: array<Byte>
    var putIndex: nat
    var getIndex: nat
    var bufCount: int

    constructor ()
      ensures fresh(buf) && Valid(State(), Idle) && Queue(State(), Idle) == []
    {
      buf := new Byte[BUFFER_SIZE](_ => 0);
      putIndex, getIndex, bufCount := 0, 0, 0;
    }

    function State(): Ring
      reads this, buf
    {
      Ring(buf[..], putIndex, getIndex, bufCount)
    }

    method PutKeyBuf(key: Byte) returns (stored: bool)
      requires WellFormed(State())
      modifies this, buf
      ensures State() == Put(old(State()), key)
      ensures stored <==> old(bufCount) < 100
    {
      if bufCount >= BUFFER_SIZE {
        return false;
      }
      buf[putIndex] := key;
      putIndex := (putIndex + 1) % BUFFER_SIZE;
      bufCount := bufCount + 1;
      return true;
    }

    /** Keyboard interrupts while the reader stands at `pc`. */
    method Interrupts(keys: seq<Byte>, ghost pc: Reader)
      requires Valid(State(), pc)
      modifies this, buf
      ensures Valid(State(), pc)
      ensures Queue(State(), pc) == OfferedAll(old(Queue(State(), pc)), keys)
    {
      ghost var q := Queue(State(), pc);
      for i := 0 to |keys|
        invariant Valid(State(), pc) && Queue(State(), pc) == OfferedAll(q, keys[..i])
      {
        PutOffers(State(), pc, keys[i]);
        var stored := PutKeyBuf(keys[i]);
        assert keys[..i + 1][..i] == keys[..i];
      }
      assert keys[..|keys|] == keys;
    }

    /** The statements of GetKeyBuf that touch the shared variables. */
    method Load() returns (key: Byte)
      requires Valid(State(), Tested)
      ensures Valid(State(), Loaded(key)) && Queue(State(), Loaded(key)) == Queue(State(), Tested)
    {
      key := buf[getIndex];
    }

    method Lower(ghost key: Byte)
      requires Valid(State(), Loaded(key))
      modifies this`bufCount
      ensures Valid(State(), Lowered(key))
      ensures old(Queue(State(), Loaded(key))) == [key] + Queue(State(), Lowered(key))
    {
      TakeLowers(State(), key);
      bufCount := bufCount - 1;
    }

    method Advance(ghost key: Byte)
      requires Valid(State(), Lowered(key))
      modifies this`getIndex
      ensures Valid(State(), Idle) && Queue(State(), Idle) == old(Queue(State(), Lowered(key)))
    {
      AdvanceEnds(State(), key);
      getIndex := (getIndex + 1) % BUFFER_SIZE;
    }

    /** A call interrupted by any number of keys at any of its statements behaves like a bounded
        queue: it fails exactly if nothing is queued when it tests the count; otherwise it takes
        the oldest key at the moment it lowers the count. */
    method GetKeyBuf(beforeTest: seq<Byte>, beforeLoad: seq<Byte>, beforeLower: seq<Byte>, beforeAdvance: seq<Byte>)
      returns (flag: bool, key: Byte)
      requires Valid(State(), Idle)
      modifies this, buf
      ensures Valid(State(), Idle)
      ensures var tested := OfferedAll(old(Queue(State(), Idle)), beforeTest);
        && (flag <==> tested != [])
        && (!flag ==> key == 0 && Queue(State(), Idle) == tested)
        && (flag ==>
          var lowered := OfferedAll(OfferedAll(tested, beforeLoad), beforeLower);
          && lowered != [] && key == tested[0] == lowered[0]
          && Queue(State(), Idle) == OfferedAll(lowered[1..], beforeAdvance))
    {
      Interrupts(beforeTest, Idle);
      ghost var tested := Queue(State(), Idle);
      if bufCount <= 0 {
        return false, 0;
      }
      SameQueue(State(), Tested);
      Interrupts(beforeLoad, Tested);
      ghost var loaded := Queue(State(), Tested);
      OfferedKeepsHead(tested, beforeLoad);
      key := Load();
      Interrupts(beforeLower, Loaded(key));
      ghost var lowered := Queue(State(), Loaded(key));
      OfferedKeepsHead(loaded, beforeLower);
      Lower(key);
      assert lowered[1..] == Queue(State(), Lowered(key));
      Interrupts(beforeAdvance, Lowered(key));
      Advance(key);
      flag := true;
    }
  }
}
