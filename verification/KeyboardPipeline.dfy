/** From scan codes to the keys a process reads: ISR_Keyboard feeds the ring between any two
    statements of the reading process. */
module KeyboardPipeline {
  import opened Basics
  import opened KeyRing
  import ScanCode

  /** ISR_Keyboard: translate, and offer the character to the ring if the code is a make
      code. */
  class KeyboardDriver {
    const keyboard: ScanCode.Keyboard
    const keyBuffer: KeyBuffer

    constructor ()
      ensures Ready() && fresh(keyboard) && fresh(keyboard.keyManager) && fresh(keyBuffer) && fresh(keyBuffer.buf)
    {
      keyboard := new ScanCode.Keyboard();
      keyBuffer := new KeyBuffer();
    }

    predicate Ready()
      reads keyBuffer, keyBuffer.buf
    {
      keyboard.Valid() && WellFormed(keyBuffer.State())
    }

    /** `outputFull` is the controller's status bit: without it there is no code to read. */
    method IsrKeyboard(outputFull: bool, e: ScanCode.Scan)
      requires Ready()
      modifies keyboard, keyboard.keyManager, keyBuffer, keyBuffer.buf
      ensures Ready()
      ensures keyboard.State() == if outputFull then ScanCode.NextKeys(old(keyboard.State()), e) else old(keyboard.State())
      ensures keyBuffer.State() ==
        if outputFull && e.code < 0x80
        then Put(old(keyBuffer.State()), ScanCode.Character(old(keyboard.State()), e))
        else old(keyBuffer.State())
    {
      if outputFull {
        var key, make := keyboard.ScanConvertAscii(e);
        if make {
          var stored := keyBuffer.PutKeyBuf(key);
        }
      }
    }
  }

  datatype Event = Interrupt(e: ScanCode.Scan) | ReadStatement

  /** The machine with its history: all scan codes, the characters the ring accepted, those it
      turned away because it was full, and those handed to the reading process. */
  datatype World = World(keys: ScanCode.Keys, ring: Ring, pc: Reader, scans: seq<ScanCode.Scan>,
                         accepted: seq<Byte>, lost: nat, delivered: seq<Byte>)

  function AfterInterrupt(w: World, e: ScanCode.Scan): World
    requires WellFormed(w.ring)
  {
    var w1 := w.(keys := ScanCode.NextKeys(w.keys, e), scans := w.scans + [e]);
    if e.code >= 0x80 then w1
    else
      var key := ScanCode.Character(w.keys, e);
      var w2 := w1.(ring := Put(w.ring, key));
      if w.ring.count < BUFFER_SIZE then w2.(accepted := w.accepted + [key]) else w2.(lost := w.lost + 1)
  }

  /** One statement of GetKeyBuf. */
  function AfterRead(w: World): World
    requires WellFormed(w.ring)
  {
    match w.pc
    case Idle => if w.ring.count <= 0 then w else w.(pc := Tested)
    case Tested => w.(pc := Loaded(w.ring.buf[w.ring.get]))
    case Loaded(key) => w.(pc := Lowered(key), ring := Taken(w.ring))
    case Lowered(key) => w.(pc := Idle, ring := Advanced(w.ring), delivered := w.delivered + [key])
  }

  function Step(w: World, e: Event): World
    requires WellFormed(w.ring)
  {
    match e
    case Interrupt(scan) => AfterInterrupt(w, scan)
    case ReadStatement => AfterRead(w)
  }

  /** The characters a stream of scan codes types: one for each make code, in the state the codes
      before it produce. */
  function Typed(s: ScanCode.Keys, es: seq<ScanCode.Scan>): seq<Byte> {
    if es == [] then []
    else
      var e := es[|es| - 1];
      Typed(s, es[..|es| - 1])
      + if e.code < 0x80 then [ScanCode.Character(ScanCode.Run(s, es[..|es| - 1]), e)] else []
  }

  /** `a` is `b` with some elements left out. */
  predicate Thinned(a: seq<Byte>, b: seq<Byte>)
    decreases |b|
  {
    || (a == [] && b == [])
    || (b != [] && Thinned(a, b[..|b| - 1]))
    || (a != [] && b != [] && a[|a| - 1] == b[|b| - 1] && Thinned(a[..|a| - 1], b[..|b| - 1]))
  }

  function InFlight(pc: Reader): seq<Byte> {
    if pc.Lowered? then [pc.key] else []
  }

  ghost predicate RingHolds(w: World) {
    Valid(w.ring, w.pc) && w.accepted == w.delivered + InFlight(w.pc) + Queue(w.ring, w.pc)
  }

  ghost predicate TextHolds(s: ScanCode.Keys, w: World) {
    && w.keys == ScanCode.Run(s, w.scans)
    && |w.accepted| + w.lost == |Typed(s, w.scans)|
    && Thinned(w.accepted, Typed(s, w.scans))
  }

  ghost predicate Inv(s: ScanCode.Keys, w: World) {
    RingHolds(w) && TextHolds(s, w)
  }

  ghost predicate Initial(w: World) {
    && Valid(w.ring, Idle) && w.ring.count == 0 && w.pc == Idle
    && w.scans == [] && w.accepted == w.delivered == [] && w.lost == 0
  }

  ghost predicate Reaches(w: World, es: seq<Event>, w': World)
    decreases |es|
  {
    if es == [] then w == w'
    else WellFormed(w.ring) && Reaches(Step(w, es[0]), es[1..], w')
  }

  lemma ThinnedLonger(a: seq<Byte>, b: seq<Byte>, key: Byte)
    requires Thinned(a, b)
    ensures Thinned(a, b + [key]) && Thinned(a + [key], b + [key])
  {
    assert (b + [key])[..|b|] == b && (a + [key])[..|a|] == a;
  }

  lemma InterruptKeepsText(s: ScanCode.Keys, w: World, e: ScanCode.Scan)
    requires WellFormed(w.ring) && TextHolds(s, w)
    ensures TextHolds(s, AfterInterrupt(w, e))
  {
    var scans := w.scans + [e];
    assert scans[..|scans| - 1] == w.scans;
    var key := ScanCode.Character(w.keys, e);
    if e.code < 0x80 {
      assert Typed(s, scans) == Typed(s, w.scans) + [key];
      ThinnedLonger(w.accepted, Typed(s, w.scans), key);
    } else {
      assert Typed(s, scans) == Typed(s, w.scans);
    }
  }

  lemma InterruptKeepsRing(w: World, e: ScanCode.Scan)
    requires RingHolds(w)
    ensures RingHolds(AfterInterrupt(w, e))
  {
    PutOffers(w.ring, w.pc, ScanCode.Character(w.keys, e));
  }

  lemma ReadKeepsRing(w: World)
    requires RingHolds(w)
    ensures RingHolds(AfterRead(w))
  {
    match w.pc {
      case Idle => assert Queue(w.ring, Tested) == Queue(w.ring, Idle);
      case Tested => assert Queue(w.ring, AfterRead(w).pc) == Queue(w.ring, Tested);
      case Loaded(key) => TakeLowers(w.ring, key);
      case Lowered(key) => AdvanceEnds(w.ring, key);
    }
  }

  lemma {:induction false} RunKeepsInv(s: ScanCode.Keys, w: World, es: seq<Event>, w': World)
    requires Inv(s, w) && Reaches(w, es, w')
    ensures Inv(s, w')
    decreases |es|
  {
    if es != [] {
      match es[0] {
        case Interrupt(e) => InterruptKeepsText(s, w, e); InterruptKeepsRing(w, e);
        case ReadStatement => ReadKeepsRing(w);
      }
      RunKeepsInv(s, Step(w, es[0]), es[1..], w');
    }
  }

  lemma {:induction false} NothingThinned(a: seq<Byte>, b: seq<Byte>)
    requires Thinned(a, b)
    ensures |a| <= |b| && (|a| == |b| ==> a == b)
    decreases |b|
  {
    if b != [] {
      var c := b[..|b| - 1];
      if Thinned(a, c) {
        NothingThinned(a, c);
      } else if a != [] {
        NothingThinned(a[..|a| - 1], c);
      }
    }
  }

  /** For every interleaving of interrupts with the statements of the reader: the keys read are a
      prefix of the keys accepted, the rest being in the ring or about to be returned; the keys
      accepted are, in order, characters typed; and if none was turned away they are all of them. */
  lemma KeysArriveInOrder(start: World, es: seq<Event>, w: World)
    requires Initial(start) && Reaches(start, es, w)
    ensures Valid(w.ring, w.pc)
    ensures w.accepted == w.delivered + InFlight(w.pc) + Queue(w.ring, w.pc)
    ensures Thinned(w.accepted, Typed(start.keys, w.scans))
    ensures |w.accepted| + w.lost == |Typed(start.keys, w.scans)|
    ensures w.lost == 0 ==> w.delivered <= Typed(start.keys, w.scans)
  {
    RunKeepsInv(start.keys, start, es, w);
    NothingThinned(w.accepted, Typed(start.keys, w.scans));
  }

  /** A typed key is turned away exactly if 100 accepted keys are neither read nor about to be
      returned. */
  lemma KeyIsLostIffRingFull(start: World, es: seq<Event>, w: World, e: ScanCode.Scan)
    requires Initial(start) && Reaches(start, es, w) && WellFormed(w.ring) && e.code < 0x80
    ensures AfterInterrupt(w, e).lost > w.lost
      <==> |w.accepted| - |w.delivered| - |InFlight(w.pc)| == 100
  {
    RunKeepsInv(start.keys, start, es, w);
  }
}
