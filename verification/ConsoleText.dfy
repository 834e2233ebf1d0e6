/** What the console shows: the screen is a window on an unbounded 80-column page, and a prompt
    cannot be typed over. */
module ConsoleText {
  import opened Basics
  import opened Console

  /** How far a character but a backspace moves the screen up, in cells. */
  function Lift(s: Screen, c: Byte): nat {
    if (if c == 10 then s.cursor >= 1920 else s.cursor == 1999) then 80 else 0
  }

  /** Putting a character changes one cell of any screen, and a newline none; the rest keeps its
      characters and colours, moved up with the screen, and a row that comes in is blank. */
  lemma PutChangesOneCell(s: Screen, c: Byte)
    requires Valid(s) && c != 8
    ensures var t, d := Put(s, c), Lift(s, c);
      && t.cursor == (if c == 10 then (s.cursor / 80 + 1) * 80 else s.cursor + 1) - d
      && (forall i :: 0 <= i < 2000 - d && (c == 10 || i + d != s.cursor) ==> t.cells[i] == s.cells[i + d])
      && (forall i :: 2000 - d <= i < 2000 ==> t.cells[i] == Cell(32, 7))
      && (c != 10 ==> t.cells[s.cursor - d] == Cell(c, 7))
  {
  }

  /** A backspace stops exactly at the origin and behind a cell in the prompt's colour; otherwise it
      blanks the cell before the cursor and steps back. */
  lemma BackspaceStopsIff(s: Screen)
    requires Valid(s)
    ensures s.cursor == 0 || s.cells[s.cursor - 1].color == 0x0B <==> Put(s, 8) == s
    ensures Put(s, 8) != s ==> Put(s, 8) == Screen(s.cells[s.cursor - 1 := Cell(32, 7)], s.cursor - 1)
  {
  }

  /** Marking a prompt recolours the cells before the cursor and nothing else. */
  lemma MarkChangesColours(s: Screen, length: nat)
    requires Valid(s) && length <= s.cursor
    ensures var t := Marked(s, length);
      && t.cursor == s.cursor && |t.cells| == 2000
      && forall i :: 0 <= i < 2000 ==>
        && t.cells[i].ch == s.cells[i].ch
        && t.cells[i].color == if s.cursor - length <= i < s.cursor then 0x0B else s.cells[i].color
  {
  }

  /** The page position after a text: characters advance it, a newline starts the next row. */
  function Position(text: seq<Byte>): nat {
    if text == [] then 0
    else
      var p := Position(text[..|text| - 1]);
      if text[|text| - 1] == NEWLINE then (p / WIDTH + 1) * WIDTH else p + 1
  }

  /** The ink on the page: every character at the position it was typed at. */
  function Ink(text: seq<Byte>): (ink: map<nat, Byte>)
    ensures forall p :: p in ink ==> p < Position(text)
  {
    if text == [] then map[]
    else
      var before := text[..|text| - 1];
      var ink := Ink(before);
      if text[|text| - 1] == NEWLINE then ink else ink[Position(before) := text[|text| - 1]]
  }

  /** The first page row still on the screen. */
  function TopRow(p: nat): nat {
    if p / WIDTH >= HEIGHT then p / WIDTH - (HEIGHT - 1) else 0
  }

  function OnPage(text: seq<Byte>, p: nat): Cell {
    if p in Ink(text) then Cell(Ink(text)[p], 7) else Cell(32, 7)
  }

  /** The 25 rows of the page from row `top` on. */
  ghost predicate IsWindow(s: Screen, text: seq<Byte>, top: nat) {
    && Valid(s)
    && s.cursor == Position(text) - top * WIDTH
    && forall i :: 0 <= i < CELLS ==> s.cells[i] == OnPage(text, i + top * WIDTH)
  }

  const CLEARED := Screen(seq(CELLS, _ => BLANK), 0)

  lemma TopRowMoves(p: nat)
    requires p - TopRow(p) * WIDTH < CELLS
    ensures TopRow(p + 1) == TopRow(p) + if p - TopRow(p) * WIDTH == CELLS - 1 then 1 else 0
    ensures var q := (p / WIDTH + 1) * WIDTH;
      TopRow(q) == TopRow(p) + if q - TopRow(p) * WIDTH >= CELLS then 1 else 0
  {
  }

  /** The window property is kept by one more character. */
  lemma WriteKeepsWindow(s: Screen, text: seq<Byte>, c: Byte)
    requires IsWindow(s, text, TopRow(Position(text))) && c != NEWLINE && c != BACKSPACE
    ensures IsWindow(Put(s, c), text + [c], TopRow(Position(text + [c])))
  {
    var p, more := Position(text), text + [c];
    assert more[..|text|] == text;
    TopRowMoves(p);
    assert forall q: nat :: OnPage(more, q) == if q == p then Cell(c, DEFAULT_COLOR) else OnPage(text, q);
  }

  lemma FeedKeepsWindow(s: Screen, text: seq<Byte>)
    requires IsWindow(s, text, TopRow(Position(text)))
    ensures IsWindow(Put(s, NEWLINE), text + [NEWLINE], TopRow(Position(text + [NEWLINE])))
  {
    var p, more := Position(text), text + [NEWLINE];
    assert more[..|text|] == text;
    TopRowMoves(p);
    assert forall q: nat :: OnPage(more, q) == OnPage(text, q);
  }

  /** After any text typed on a cleared screen, newlines included, the screen shows the rows of
      the unbounded page from TopRow on, and the cursor is at the page position. */
  lemma {:induction false} ScreenIsWindow(text: seq<Byte>)
    requires BACKSPACE !in text
    ensures IsWindow(PutAll(CLEARED, text), text, TopRow(Position(text)))
  {
    if text != [] {
      var before, c := text[..|text| - 1], text[|text| - 1];
      assert text == before + [c];
      ScreenIsWindow(before);
      if c == NEWLINE {
        FeedKeepsWindow(PutAll(CLEARED, before), before);
      } else {
        WriteKeepsWindow(PutAll(CLEARED, before), before, c);
      }
    }
  }

  /** Whether putting `c` moves the screen up a row. */
  predicate Scrolls(s: Screen, c: Byte)
    requires Valid(s)
  {
    if c == NEWLINE then s.cursor >= CELLS - WIDTH else c != BACKSPACE && s.cursor == CELLS - 1
  }

  function ScrollsIn(s: Screen, text: seq<Byte>): nat
    requires Valid(s)
  {
    if text == [] then 0
    else ScrollsIn(s, text[..|text| - 1]) + if Scrolls(PutAll(s, text[..|text| - 1]), text[|text| - 1]) then 1 else 0
  }

  /** The prompt of `s` stands in `t`, moved up `k` rows as far as it is still on the screen, and
      the cursor has not gone back before its end. */
  ghost predicate PromptStands(s: Screen, length: nat, t: Screen, k: nat)
    requires Valid(s) && Valid(t) && length <= s.cursor
  {
    && t.cursor >= s.cursor - k * WIDTH
    && forall i :: s.cursor - length <= i < s.cursor && i - k * WIDTH >= 0 ==>
      i - k * WIDTH < t.cursor && t.cells[i - k * WIDTH] == s.cells[i].(color := PATH_COLOR)
  }

  lemma PutKeepsPrompt(s: Screen, length: nat, t: Screen, k: nat, c: Byte)
    requires Valid(s) && Valid(t) && 1 <= length <= s.cursor && PromptStands(s, length, t, k)
    ensures PromptStands(s, length, Put(t, c), k + if Scrolls(t, c) then 1 else 0)
  {
    var end := s.cursor - k * WIDTH;
    if c == BACKSPACE && end >= 1 {
      assert t.cells[end - 1].color == PATH_COLOR by {
        assert t.cells[s.cursor - 1 - k * WIDTH] == s.cells[s.cursor - 1].(color := PATH_COLOR);
      }
    }
  }

  /** No sequence of characters, backspaces and newlines included, changes a prompt or moves the
      cursor back into it; it only moves up with the screen. */
  lemma {:induction false} PromptSurvivesTyping(s: Screen, length: nat, text: seq<Byte>)
    requires Valid(s) && 1 <= length <= s.cursor
    ensures PromptStands(s, length, PutAll(Marked(s, length), text), ScrollsIn(Marked(s, length), text))
  {
    if text != [] {
      var before, m := text[..|text| - 1], Marked(s, length);
      PromptSurvivesTyping(s, length, before);
      PutKeepsPrompt(s, length, PutAll(m, before), ScrollsIn(m, before), text[|text| - 1]);
    }
  }

  /** The cells after `count` characters of a text. */
  function Typed(s: Screen, text: seq<Byte>, count: nat): Screen
    requires Valid(s) && count <= |text|
  {
    Screen(seq(CELLS, i requires 0 <= i < CELLS =>
             if s.cursor <= i < s.cursor + count then Cell(text[i - s.cursor], DEFAULT_COLOR) else s.cells[i]),
           s.cursor + count)
  }

  predicate FitsBlank(s: Screen, text: seq<Byte>) {
    && Valid(s) && s.cursor + |text| < CELLS && NEWLINE !in text && BACKSPACE !in text
    && forall i :: s.cursor <= i < s.cursor + |text| ==> s.cells[i] == BLANK
  }

  lemma {:induction false} TypingShows(s: Screen, text: seq<Byte>, count: nat)
    requires FitsBlank(s, text) && count <= |text|
    ensures PutAll(s, text[..count]) == Typed(s, text, count)
  {
    if count == 0 {
      assert Typed(s, text, 0).cells == s.cells;
    } else {
      TypingShows(s, text, count - 1);
      assert text[..count][..count - 1] == text[..count - 1];
      assert text[count - 1] in text;
      assert Written(Typed(s, text, count - 1), text[count - 1]).cells == Typed(s, text, count).cells;
    }
  }

  /** As many backspaces as characters were typed into a blank stretch of the screen restore it. */
  lemma {:induction false} BackspacesUndoTyping(s: Screen, text: seq<Byte>, n: nat)
    requires FitsBlank(s, text) && n <= |text|
    ensures PutAll(s, text + seq(n, _ => BACKSPACE)) == Typed(s, text, |text| - n)
  {
    var all := text + seq(n, _ => BACKSPACE);
    if n == 0 {
      TypingShows(s, text, |text|);
      assert all == text[..|text|];
    } else {
      assert all[..|all| - 1] == text + seq(n - 1, _ => BACKSPACE);
      BackspacesUndoTyping(s, text, n - 1);
      assert Erased(Typed(s, text, |text| - n + 1)).cells == Typed(s, text, |text| - n).cells;
    }
  }
}
