/** The text console: an 80 by 25 screen of character and colour bytes, changed in place, and a
    cursor.  `Screen` and the functions on it specify the methods of class Console. */
module Console {
  import opened Basics

  const WIDTH: int := 80
  const HEIGHT: int := 25
  const CELLS: int := 2000
  const NEWLINE: Byte := 10
  const BACKSPACE: Byte := 8
  const SPACE: Byte := 32
  const DEFAULT_COLOR: Byte := 0x07
  const PATH_COLOR: Byte := 0x0B

  datatype Cell = Cell(ch: Byte, color: Byte)

  const BLANK := Cell(SPACE, DEFAULT_COLOR)

  datatype Screen = Screen(cells: seq<Cell>, cursor: int)

  predicate Valid(s: Screen) {
    |s.cells| == CELLS && 0 <= s.cursor < CELLS
  }

  /** Everything moves up one row; the last row is blank. */
  function Scrolled(s: Screen): Screen
    requires |s.cells| == CELLS
  {
    Screen(seq(CELLS, i requires 0 <= i < CELLS => if i < CELLS - WIDTH then s.cells[i + WIDTH] else BLANK),
           s.cursor - WIDTH)
  }

  /** The cursor goes to the start of the next row. */
  function Fed(s: Screen): Screen
    requires Valid(s)
  {
    var t := s.(cursor := (s.cursor / WIDTH + 1) * WIDTH);
    if t.cursor >= CELLS then Scrolled(t) else t
  }

  function Erased(s: Screen): Screen
    requires Valid(s)
  {
    if s.cursor == 0 || s.cells[s.cursor - 1].color == PATH_COLOR then s
    else Screen(s.cells[s.cursor - 1 := BLANK], s.cursor - 1)
  }

  function Written(s: Screen, c: Byte): Screen
    requires Valid(s)
  {
    var t := s.(cells := s.cells[s.cursor := Cell(c, DEFAULT_COLOR)]);
    var u := if s.cursor == CELLS - 1 then Scrolled(t) else t;
    u.(cursor := u.cursor + 1)
  }

  /** putchar. */
  function Put(s: Screen, c: Byte): (t: Screen)
    requires Valid(s)
    ensures Valid(t)
  {
    if c == NEWLINE then Fed(s) else if c == BACKSPACE then Erased(s) else Written(s, c)
  }

  /** A text put one character at a time. */
  function PutAll(s: Screen, text: seq<Byte>): (t: Screen)
    requires Valid(s)
    ensures Valid(t)
  {
    if text == [] then s else Put(PutAll(s, text[..|text| - 1]), text[|text| - 1])
  }

  /** SetColor_Path: the `length` cells before the cursor become the prompt. */
  function Marked(s: Screen, length: nat): Screen
    requires Valid(s) && length <= s.cursor
  {
    s.(cells := seq(CELLS, i requires 0 <= i < CELLS =>
      if s.cursor - length <= i < s.cursor then s.cells[i].(color := PATH_COLOR) else s.cells[i]))
  }

  /** What the bytes of video memory show. */
  function CellsOf(video: seq<Byte>): seq<Cell>
    requires |video| == 2 * CELLS
  {
    seq(CELLS, i requires 0 <= i < CELLS => Cell(video[2 * i], video[2 * i + 1]))
  }

  lemma CellWritten(video: seq<Byte>, i: nat, c: Byte, color: Byte)
    requires |video| == 2 * CELLS && i < CELLS
    ensures CellsOf(video[2 * i := c][2 * i + 1 := color]) == CellsOf(video)[i := Cell(c, color)]
  {
  }

  class Terminal {
    const video: array<Byte>
    var gCursor: int

    constructor ()
      ensures Ready() && fresh(video)
      ensures State() == Screen(seq(2000, _ => Cell(32, 7)), 0)
    {
      video := new Byte[2 * CELLS](i => if i % 2 == 0 then SPACE else DEFAULT_COLOR);
      gCursor := 0;
    }

    predicate Ready()
      reads this
    {
      video.Length == 2 * CELLS && 0 <= gCursor < CELLS
    }

    function State(): Screen
      reads this, video
      requires video.Length == 2 * CELLS
    {
      Screen(CellsOf(video[..]), gCursor)
    }

    method CopyRow(i: nat)
      requires video.Length == 2 * CELLS && i < HEIGHT - 1
      modifies video
      ensures forall k :: 0 <= k < video.Length ==>
        video[k] == if i * WIDTH * 2 <= k < (i + 1) * WIDTH * 2 then old(video[k + WIDTH * 2]) else old(video[k])
    {
      var j := 0;
      while j < WIDTH * 2
        invariant 0 <= j <= WIDTH * 2
        invariant forall k :: 0 <= k < video.Length ==>
          video[k] == if i * WIDTH * 2 <= k < i * WIDTH * 2 + j then old(video[k + WIDTH * 2]) else old(video[k])
      {
        video[i * WIDTH * 2 + j] := video[(i + 1) * WIDTH * 2 + j];
        j := j + 1;
      }
    }

    method CopyRows()
      requires video.Length == 2 * CELLS
      modifies video
      ensures forall k :: 0 <= k < video.Length ==>
        video[k] == if k < (HEIGHT - 1) * WIDTH * 2 then old(video[k + WIDTH * 2]) else old(video[k])
    {
      var i := 0;
      while i < HEIGHT - 1
        invariant 0 <= i <= HEIGHT - 1
        invariant forall k :: 0 <= k < video.Length ==>
          video[k] == if k < i * WIDTH * 2 then old(video[k + WIDTH * 2]) else old(video[k])
      {
        CopyRow(i);
        i := i + 1;
      }
    }

    method BlankLastRow()
      requires video.Length == 2 * CELLS
      modifies video
      ensures var last := (HEIGHT - 1) * WIDTH * 2;
        && (forall k :: 0 <= k < last ==> video[k] == old(video[k]))
        && (forall k :: last <= k < video.Length ==> video[k] == if k % 2 == 0 then SPACE else DEFAULT_COLOR)
    {
      var last := (HEIGHT - 1) * WIDTH * 2;
      var i := 0;
      while i < WIDTH * 2
        invariant 0 <= i <= WIDTH * 2 && i % 2 == 0
        invariant forall k :: 0 <= k < last ==> video[k] == old(video[k])
        invariant forall k :: last <= k < last + i ==> video[k] == if k % 2 == 0 then SPACE else DEFAULT_COLOR
      {
        video[last + i] := SPACE;
        video[last + i + 1] := DEFAULT_COLOR;
        i := i + 2;
      }
    }

    method Scroll()
      requires video.Length == 2 * CELLS
      modifies this, video
      ensures State() == Scrolled(old(State()))
    {
      CopyRows();
      BlankLastRow();
      gCursor := gCursor - WIDTH;
    }

    /** `mem` is the offset of the write pointer from the start of video memory. */
    method LineFeed(mem: int) returns (mem': int)
      requires Ready() && mem % (WIDTH * 2) == 2 * gCursor % (WIDTH * 2)
      modifies this, video
      ensures Ready() && State() == Fed(old(State()))
      ensures mem' == mem + WIDTH * 2 - mem % (WIDTH * 2)
    {
      var feed := WIDTH * 2 - mem % (WIDTH * 2);
      mem' := mem + feed;
      gCursor := gCursor + feed / 2;
      if CELLS - 1 < gCursor {
        Scroll();
      }
    }

    method BackSpace(mem: int) returns (mem': int)
      requires Ready() && mem == 2 * gCursor
      modifies this, video
      ensures Ready() && State() == Erased(old(State())) && mem' == 2 * gCursor
    {
      mem' := mem;
      if mem > 0 && video[mem - 1] != PATH_COLOR {
        CellWritten(video[..], gCursor - 1, SPACE, DEFAULT_COLOR);
        video[mem - 1] := DEFAULT_COLOR;
        video[mem - 2] := SPACE;
        mem' := mem - 2;
        gCursor := gCursor - 1;
      }
    }

    method PutChar(c: Byte)
      requires Ready()
      modifies this, video
      ensures Ready() && State() == Put(old(State()), c)
    {
      var mem := gCursor * 2;
      if c == NEWLINE {
        mem := LineFeed(mem);
      } else if c == BACKSPACE {
        mem := BackSpace(mem);
      } else {
        CellWritten(video[..], gCursor, c, DEFAULT_COLOR);
        video[mem] := c;
        video[mem + 1] := DEFAULT_COLOR;
        if CELLS - 1 <= gCursor {
          Scroll();
        }
        gCursor := gCursor + 1;
      }
    }

    method SetColorPath(length: nat)
      requires Ready() && length <= gCursor
      modifies video
      ensures State() == Marked(old(State()), length)
    {
      var mem := gCursor * 2;
      var i := 0;
      while i < length * 2
        invariant 0 <= i <= length * 2 && i % 2 == 0
        invariant forall k :: 0 <= k < video.Length ==>
          video[k] == if mem - i <= k < mem && k % 2 == 1 then PATH_COLOR else old(video[k])
      {
        video[mem - i - 1] := PATH_COLOR;
        i := i + 2;
      }
    }
  }
}
