/** The keyboard's scan-code state machine: shift, the three locks and their LEDs, and the
    translation of make codes into characters. */
module ScanCode {
  import opened Basics

  /** Scan codes with a state of their own. */
  const LSHIFT: Byte := 0x2A
  const RSHIFT: Byte := 0x36
  const LSHIFT_UP: Byte := 0xAA
  const RSHIFT_UP: Byte := 0xB6
  const NUM: Byte := 0x45
  const SCROLL: Byte := 0x46
  const CAPS: Byte := 0x3A

  /** Normal and shifted key of the 89 table entries, in rows of 16. */
  function TableRow(r: nat): (row: seq<(Byte, Byte)>)
    requires r < 6
    ensures |row| == if r < 5 then 16 else 9
  {
    if r == 0 then
      [(0x00, 0x00), (0x1B, 0x1B), (49, 33), (50, 64), (51, 35), (52, 36), (53, 37), (54, 94),
       (55, 38), (56, 42), (57, 40), (48, 41), (45, 95), (61, 43), (0x08, 0x08), (0x09, 0x09)]
    else if r == 1 then
      [(113, 81), (119, 87), (101, 69), (114, 82), (116, 84), (121, 89), (117, 85), (105, 73),
       (111, 79), (112, 80), (91, 123), (93, 125), (0x0A, 0x0A), (0x81, 0x81), (97, 65), (115, 83)]
    else if r == 2 then
      [(100, 68), (102, 70), (103, 71), (104, 72), (106, 74), (107, 75), (108, 76), (59, 58),
       (39, 34), (96, 126), (0x82, 0x82), (92, 124), (122, 90), (120, 88), (99, 67), (118, 86)]
    else if r == 3 then
      [(98, 66), (110, 78), (109, 77), (44, 60), (46, 62), (47, 63), (0x83, 0x83), (42, 42),
       (0x85, 0x85), (32, 32), (0x86, 0x86), (0x87, 0x87), (0x88, 0x88), (0x89, 0x89), (0x8A, 0x8A), (0x8B, 0x8B)]
    else if r == 4 then
      [(0x8C, 0x8C), (0x8D, 0x8D), (0x8E, 0x8E), (0x8F, 0x8F), (0x90, 0x90), (0x91, 0x91), (0x92, 0x92), (0x93, 55),
       (0x94, 56), (0x95, 57), (45, 45), (0x96, 52), (0x97, 53), (0x98, 54), (43, 43), (0x99, 49)]
    else
      [(0x9A, 50), (0x9B, 51), (0x9C, 48), (0x9D, 46), (0x00, 0x00), (0x00, 0x00), (0x00, 0x00), (0x9E, 0x9E),
       (0x9F, 0x9F)]
  }

  const ENTRIES: nat := 89

  /** A table entry; reading past the end of the table gives whatever lies there. */
  function Entry(code: Byte, beyond: (Byte, Byte)): (Byte, Byte) {
    if code < ENTRIES then TableRow(code / 16)[code % 16] else beyond
  }

  /** `led` is the last byte of LED states sent to the keyboard. */
  datatype Keys = Keys(shift: bool, num: bool, scroll: bool, caps: bool, led: Option<Byte>)

  function Bit(b: bool): Byte {
    if b then 1 else 0
  }

  /** On_Off_LED(Num_Lock, Caps_Lock, Scroll_Lock): the states are sent if the keyboard
      acknowledges the command. */
  function WithLeds(s: Keys, ack: bool): Keys {
    if ack then s.(led := Some(Bit(s.num) * 2 + Bit(s.caps) * 4 + Bit(s.scroll))) else s
  }

  predicate IsNumPad(code: Byte) {
    71 <= code <= 83
  }

  /** A scan code with what the environment adds: the keyboard's acknowledgements of a LED command
      and of the byte after it, and the memory found past the end of the table. */
  datatype Scan = Scan(code: Byte, ack: bool, ackByte: bool, beyond: (Byte, Byte))

  /** Key_Manager holds the states of num, scroll and caps lock. */
  function Toggled(s: Keys, lock: nat): Keys {
    if lock == 0 then s.(num := !s.num) else if lock == 1 then s.(scroll := !s.scroll) else s.(caps := !s.caps)
  }

  function NextKeys(s: Keys, e: Scan): Keys {
    if e.code == LSHIFT || e.code == RSHIFT then s.(shift := true)
    else if e.code == LSHIFT_UP || e.code == RSHIFT_UP then s.(shift := false)
    else if e.code == NUM then WithLeds(Toggled(s, 0), e.ack)
    else if e.code == SCROLL then WithLeds(Toggled(s, 1), e.ack)
    else if e.code == CAPS then WithLeds(Toggled(s, 2), e.ack)
    else s
  }

  /** Which of its two characters a code gives in state `s`. */
  function Chosen(s: Keys, code: Byte, keys: (Byte, Byte)): Byte {
    if code in {LSHIFT, RSHIFT, LSHIFT_UP, RSHIFT_UP, NUM, SCROLL, CAPS} then keys.0
    else if IsNumPad(code) then if s.shift != s.num then keys.1 else keys.0
    else if s.shift != s.caps then keys.1
    else keys.0
  }

  /** The character for a code in state `s`. */
  function Character(s: Keys, e: Scan): Byte {
    Chosen(s, e.code, Entry(e.code, e.beyond))
  }

  class Keyboard {
    var shiftDown: bool
    const keyManager: array<bool>
    var led: Option<Byte>

    constructor ()
      ensures Valid() && fresh(keyManager) && State() == Keys(false, true, false, false, None)
    {
      shiftDown, led := false, None;
      keyManager := new bool[] [true, false, false];
    }

    predicate Valid()
    {
      keyManager.Length == 3
    }

    function State(): Keys
      reads this, keyManager
      requires Valid()
    {
      Keys(shiftDown, keyManager[0], keyManager[1], keyManager[2], led)
    }

    method OnOffLed(numLock: bool, capsLock: bool, scrollLock: bool, ack: bool, ackByte: bool) returns (ok: bool)
      requires Valid()
      modifies this`led
      ensures led == if ack then Some(Bit(numLock) * 2 + Bit(capsLock) * 4 + Bit(scrollLock)) else old(led)
      ensures ok <==> ack && ackByte
    {
      if !ack {
        return false;
      }
      led := Some(Bit(numLock) * 2 + Bit(capsLock) * 4 + Bit(scrollLock));
      return ackByte;
    }

    /** A lock key: its state is inverted and all three are sent. */
    method Toggle(lock: nat, e: Scan)
      requires Valid() && lock < 3
      modifies this`led, keyManager
      ensures State() == WithLeds(Toggled(old(State()), lock), e.ack)
    {
      keyManager[lock] := !keyManager[lock];
      var ok := OnOffLed(keyManager[0], keyManager[2], keyManager[1], e.ack, e.ackByte);
    }

    /** The two characters of a table entry, for a code without a state of its own. */
    method Choose(code: Byte, normal: Byte, shifted: Byte) returns (ascii: Byte)
      requires Valid() && code !in {LSHIFT, RSHIFT, LSHIFT_UP, RSHIFT_UP, NUM, SCROLL, CAPS}
      ensures ascii == Chosen(State(), code, (normal, shifted))
    {
      if IsNumPad(code) {
        ascii := if shiftDown != keyManager[0] then shifted else normal;
      } else if normal != shifted {
        ascii := if shiftDown != keyManager[2] then shifted else normal;
      } else {
        ascii := normal;
      }
    }

    /** Every break code leaves the ring alone: `make` tells whether the character counts. */
    method ScanConvertAscii(e: Scan) returns (ascii: Byte, make: bool)
      requires Valid()
      modifies this, keyManager
      ensures State() == NextKeys(old(State()), e)
      ensures ascii == Character(old(State()), e)
      ensures make <==> e.code < 0x80
    {
      var keys := Entry(e.code, e.beyond);
      ascii, make := Convert(e, keys.0, keys.1);
    }

    method Convert(e: Scan, normal: Byte, shifted: Byte) returns (ascii: Byte, make: bool)
      requires Valid()
      modifies this, keyManager
      ensures State() == NextKeys(old(State()), e)
      ensures ascii == Chosen(old(State()), e.code, (normal, shifted))
      ensures make <==> e.code < 0x80
    {
      if e.code == 0x2A || e.code == 0x36 {
        shiftDown := true;
        return normal, true;
      } else if e.code == 0xAA || e.code == 0xB6 {
        shiftDown := false;
        return normal, false;
      } else if e.code == 0x45 {
        Toggle(0, e);
        return normal, true;
      } else if e.code == 0x46 {
        Toggle(1, e);
        return normal, true;
      } else if e.code == 0x3A {
        Toggle(2, e);
        return normal, true;
      }
      ascii := Choose(e.code, normal, shifted);
      make := e.code < 0x80;
    }
  }

  function Run(s: Keys, es: seq<Scan>): Keys {
    if es == [] then s else NextKeys(Run(s, es[..|es| - 1]), es[|es| - 1])
  }

  predicate IsShift(code: Byte) {
    code in {42, 54, 170, 182}
  }

  function Codes(es: seq<Scan>): seq<Byte> {
    seq(|es|, i requires 0 <= i < |es| => es[i].code)
  }

  /** How often a code occurs in a stream. */
  function Count(es: seq<Scan>, code: Byte): nat {
    multiset(Codes(es))[code]
  }

  lemma CountLast(es: seq<Scan>, code: Byte)
    requires es != []
    ensures Count(es, code) == Count(es[..|es| - 1], code) + if es[|es| - 1].code == code then 1 else 0
  {
    assert Codes(es) == Codes(es[..|es| - 1]) + [es[|es| - 1].code];
  }

  /** The last shift event alone decides Shift_Down. */
  lemma {:induction false} LastShiftDecides(s: Keys, es: seq<Scan>, i: nat)
    requires i < |es| && IsShift(es[i].code)
    requires forall j :: i < j < |es| ==> !IsShift(es[j].code)
    ensures Run(s, es).shift <==> es[i].code == 42 || es[i].code == 54
  {
    if i < |es| - 1 {
      LastShiftDecides(s, es[..|es| - 1], i);
    }
  }

  lemma {:induction false} NoShiftKeepsShift(s: Keys, es: seq<Scan>)
    requires forall j :: 0 <= j < |es| ==> !IsShift(es[j].code)
    ensures Run(s, es).shift == s.shift
  {
    if es != [] {
      NoShiftKeepsShift(s, es[..|es| - 1]);
    }
  }

  predicate IsLock(code: Byte) {
    code in {69, 70, 58}
  }

  predicate IsOn(s: Keys, lock: Byte) {
    if lock == 69 then s.num else if lock == 70 then s.scroll else s.caps
  }

  /** Every lock is its initial state flipped once for each of its make codes. */
  lemma {:induction false} LocksCountMakeCodes(s: Keys, es: seq<Scan>, lock: Byte)
    requires IsLock(lock)
    ensures IsOn(Run(s, es), lock) == (IsOn(s, lock) != (Count(es, lock) % 2 == 1))
  {
    if es != [] {
      CountLast(es, lock);
      LocksCountMakeCodes(s, es[..|es| - 1], lock);
    }
  }

  /** The byte last sent, read bit by bit, is the state of the three locks. */
  predicate LedsAgree(k: Keys) {
    && k.led.Some? && k.led.value < 8
    && k.num == (k.led.value / 2 % 2 == 1)
    && k.caps == (k.led.value / 4 % 2 == 1)
    && k.scroll == (k.led.value % 2 == 1)
  }

  lemma AcknowledgedLedsAgree(s: Keys)
    ensures LedsAgree(WithLeds(s, true))
  {
  }

  /** If the keyboard acknowledges, the LEDs show the locks from the first lock key on. */
  lemma {:induction false} LedsShowLocks(s: Keys, es: seq<Scan>, i: nat)
    requires i < |es| && IsLock(es[i].code)
    requires forall j :: i <= j < |es| && IsLock(es[j].code) ==> es[j].ack
    ensures LedsAgree(Run(s, es))
  {
    var e, r := es[|es| - 1], Run(s, es[..|es| - 1]);
    if e.code == NUM {
      AcknowledgedLedsAgree(Toggled(r, 0));
    } else if e.code == SCROLL {
      AcknowledgedLedsAgree(Toggled(r, 1));
    } else if e.code == CAPS {
      AcknowledgedLedsAgree(Toggled(r, 2));
    } else {
      LedsShowLocks(s, es[..|es| - 1], i);
    }
  }

  /** The scan codes of the letters, row by row. */
  predicate IsLetter(code: Byte) {
    16 <= code <= 25 || 30 <= code <= 38 || 44 <= code <= 50
  }

  /** Every key but the shifts, the locks and the keypad gives its second character exactly if one
      of shift and caps lock is on, letters and other keys alike. */
  lemma ShiftOrCapsChooses(s: Keys, e: Scan)
    requires e.code < 89 && e.code !in {42, 54, 58, 69, 70} && !(71 <= e.code <= 83)
    ensures Character(s, e) == if s.shift != s.caps then Entry(e.code, e.beyond).1 else Entry(e.code, e.beyond).0
  {
  }

  /** On the keypad it is shift and num lock; the shifts and locks themselves give one character. */
  lemma ShiftOrNumChooses(s: Keys, e: Scan)
    ensures 71 <= e.code <= 83 ==>
      Character(s, e) == if s.shift != s.num then Entry(e.code, e.beyond).1 else Entry(e.code, e.beyond).0
    ensures e.code in {42, 54, 58, 69, 70, 170, 182} ==> Character(s, e) == Entry(e.code, e.beyond).0
  {
  }

  /** The keys from `first` on give these characters. */
  ghost predicate KeysRead(first: Byte, normal: string, shifted: string) {
    |normal| == |shifted| && first + |normal| <= 89
    && forall i :: 0 <= i < |normal| ==>
      normal[i] as int < 256 && shifted[i] as int < 256
      && TableRow((first + i) / 16)[(first + i) % 16] == (normal[i] as int, shifted[i] as int)
  }

  lemma TableIsUsed(code: Byte, beyond: (Byte, Byte))
    ensures Entry(code, beyond) == if code < 89 then TableRow(code / 16)[code % 16] else beyond
  {
  }

  lemma DigitKeys()
    ensures KeysRead(2, "12345", "!@#$%")
  {
  }

  lemma MoreDigitKeys()
    ensures KeysRead(7, "67890", "^&*()")
  {
  }

  /** Escape, backspace, tab, enter, the keypad's star, and space. */
  lemma ControlKeys()
    ensures TableRow(0)[1] == (27, 27) && TableRow(0)[14] == (8, 8) && TableRow(0)[15] == (9, 9)
    ensures TableRow(1)[12] == (10, 10) && TableRow(3)[7] == (42, 42) && TableRow(3)[9] == (32, 32)
  {
  }

  lemma SignKeys()
    ensures KeysRead(12, "-=", "_+") && KeysRead(26, "[]", "{}") && KeysRead(43, "\\", "|")
  {
  }

  lemma UpperRow()
    ensures KeysRead(16, "qwertyuiop", "QWERTYUIOP")
  {
  }

  lemma MiddleRow()
    ensures KeysRead(30, "as", "AS") && KeysRead(32, "dfghjkl", "DFGHJKL")
  {
  }

  lemma MoreSignKeys()
    ensures KeysRead(39, ";'`", ":\"~") && KeysRead(51, ",./", "<>?")
  {
  }

  lemma LowerRow()
    ensures KeysRead(44, "zxcv", "ZXCV") && KeysRead(48, "bnm", "BNM")
  {
  }

  /** What the keypad gives: its characters, or the codes of the keys they share. */
  lemma KeypadReads(s: Keys, e: Scan)
    requires 71 <= e.code <= 83
    ensures s.shift != s.num ==> Character(s, e) == "789-456+1230."[e.code - 71] as int
    ensures s.shift == s.num ==>
      Character(s, e) == [0x93, 0x94, 0x95, 45, 0x96, 0x97, 0x98, 43, 0x99, 0x9A, 0x9B, 0x9C, 0x9D][e.code - 71]
  {
  }

  /** Letters are lower case, and upper case exactly if one of shift and caps lock is on. */
  lemma LetterCase(s: Keys, e: Scan)
    requires IsLetter(e.code)
    ensures 97 <= Entry(e.code, e.beyond).0 <= 122
    ensures Character(s, e) == Entry(e.code, e.beyond).0 - if s.shift != s.caps then 32 else 0
  {
    UpperRow();
    MiddleRow();
    LowerRow();
  }

  /** On the keypad shift inverts num lock: the digits, or the cursor keys. */
  lemma KeypadDigits(s: Keys, e: Scan)
    requires IsNumPad(e.code) && e.code !in {74, 78, 83}
    ensures 48 <= Character(s, e) <= 57 <==> s.shift != s.num
  {
    assert e.code in {71, 72, 73, 75, 76, 77, 79, 80, 81, 82};
  }
}
