/** printf writes through a pointer of its own.  A scroll made by a newline or by %c does not pull
    that pointer back, so whatever follows is written below the screen. */
module Printf {
  import opened Basics
  import opened NumberText
  import opened Console

  /** What a format with its arguments comes to: newlines of the format, characters whose writers
      pull the pointer back when they scroll, and the character of a %c, which does not. */
  datatype Item = Newline | Plain(c: Byte) | Arg(c: Byte)

  datatype Value = Number(n: int) | Char(c: Byte) | Str(s: seq<Byte>)

  const PERCENT: Byte := 37
  const EOF: Byte := 255

  function PlainAll(s: seq<Byte>): seq<Item> {
    seq(|s|, i requires 0 <= i < |s| => Plain(s[i]))
  }

  /** A string up to its first EOF character. */
  function UpToEof(s: seq<Byte>): seq<Byte> {
    if s == [] || s[0] == EOF then [] else [s[0]] + UpToEof(s[1..])
  }

  predicate IsNumberArg(c: Byte) {
    c == 100 || c == 105
  }

  predicate InRange(n: int) {
    -0x8000_0000_0000_0000 < n < 0x8000_0000_0000_0000
  }

  /** The arguments fit the conversions, and no `%` ends the format. */
  predicate Matches(format: seq<Byte>, args: seq<Value>) {
    if format == [] then true
    else if format[0] != PERCENT then Matches(format[1..], args)
    else if |format| < 2 then false
    else if IsNumberArg(format[1]) then args != [] && args[0].Number? && InRange(args[0].n) && Matches(format[2..], args[1..])
    else if format[1] == 99 then args != [] && args[0].Char? && Matches(format[2..], args[1..])
    else if format[1] == 115 then args != [] && args[0].Str? && (EOF in args[0].s || Matches(format[2..], args[1..]))
    else Matches(format[2..], args)
  }

  /** The items of a call, and whether it ends early at an EOF character. */
  function Items(format: seq<Byte>, args: seq<Value>): (seq<Item>, bool)
    requires Matches(format, args)
  {
    if format == [] then ([], false)
    else if format[0] == NEWLINE then
      var (rest, eof) := Items(format[1..], args);
      ([Newline] + rest, eof)
    else if format[0] != PERCENT then
      var (rest, eof) := Items(format[1..], args);
      ([Plain(format[0])] + rest, eof)
    else if IsNumberArg(format[1]) then
      var (rest, eof) := Items(format[2..], args[1..]);
      (PlainAll(Text(args[0].n)) + rest, eof)
    else if format[1] == 99 then
      var (rest, eof) := Items(format[2..], args[1..]);
      ([Arg(args[0].c)] + rest, eof)
    else if format[1] == 115 then
      if EOF in args[0].s then (PlainAll(UpToEof(args[0].s)), true)
      else
        var (rest, eof) := Items(format[2..], args[1..]);
        (PlainAll(args[0].s) + rest, eof)
    else Items(format[2..], args)
  }

  function Literal(c: Byte): Item {
    if c == NEWLINE then Newline else Plain(c)
  }

  lemma LiteralFirst(c: Byte, format: seq<Byte>, args: seq<Value>)
    requires c != PERCENT && Matches(format, args)
    ensures Matches([c] + format, args)
    ensures Items([c] + format, args) == ([Literal(c)] + Items(format, args).0, Items(format, args).1)
  {
    assert ([c] + format)[1..] == format;
  }

  /** What stands before the first conversion is printed as it is. */
  lemma {:induction false} LiteralPrefix(prefix: seq<Byte>, rest: seq<Byte>, args: seq<Value>)
    requires PERCENT !in prefix && Matches(rest, args)
    ensures Matches(prefix + rest, args)
    ensures Items(prefix + rest, args).0 ==
      seq(|prefix|, i requires 0 <= i < |prefix| => Literal(prefix[i])) + Items(rest, args).0
    ensures Items(prefix + rest, args).1 == Items(rest, args).1
  {
    if prefix == [] {
      assert prefix + rest == rest;
    } else {
      assert prefix[0] in prefix;
      assert prefix + rest == [prefix[0]] + (prefix[1..] + rest);
      LiteralPrefix(prefix[1..], rest, args);
      LiteralFirst(prefix[0], prefix[1..] + rest, args);
    }
  }

  /** %d and %i print the numeral of the next argument. */
  lemma NumberConversion(kind: Byte, n: int, rest: seq<Byte>, args: seq<Value>)
    requires (kind == 100 || kind == 105) && -0x8000_0000_0000_0000 < n < 0x8000_0000_0000_0000 && Matches(rest, args)
    ensures var format, text := [37, kind] + rest, Text(n);
      && Matches(format, [Number(n)] + args)
      && Items(format, [Number(n)] + args) ==
        (seq(|text|, i requires 0 <= i < |text| => Plain(text[i])) + Items(rest, args).0, Items(rest, args).1)
  {
    assert ([37, kind] + rest)[2..] == rest && ([Number(n)] + args)[1..] == args;
  }

  /** %c prints the next argument, through the pointer that is not pulled back. */
  lemma CharConversion(c: Byte, rest: seq<Byte>, args: seq<Value>)
    requires Matches(rest, args)
    ensures var format := [37, 99] + rest;
      && Matches(format, [Char(c)] + args)
      && Items(format, [Char(c)] + args) == ([Arg(c)] + Items(rest, args).0, Items(rest, args).1)
  {
    assert ([37, 99] + rest)[2..] == rest && ([Char(c)] + args)[1..] == args;
  }

  /** %s prints the next argument; if that holds an EOF character, what stands before the first of
      them, and the call ends there, whatever follows. */
  lemma StringConversion(t: seq<Byte>, tail: seq<Byte>, rest: seq<Byte>, args: seq<Value>)
    requires 255 !in t
    ensures var format, all := [37, 115] + rest, [Str(t + [255] + tail)] + args;
      Matches(format, all) && Items(format, all) == (seq(|t|, i requires 0 <= i < |t| => Plain(t[i])), true)
    ensures Matches(rest, args) ==>
      var format, all := [37, 115] + rest, [Str(t)] + args;
      && Matches(format, all)
      && Items(format, all) == (seq(|t|, i requires 0 <= i < |t| => Plain(t[i])) + Items(rest, args).0, Items(rest, args).1)
  {
    var whole := t + [255] + tail;
    assert whole[|t|] == 255 && whole[..|t|] == t;
    UpToEofIs(whole, |t|);
    assert ([37, 115] + rest)[2..] == rest && ([Str(t)] + args)[1..] == args;
  }

  /** Any other conversion prints nothing and takes no argument. */
  lemma OtherConversion(kind: Byte, rest: seq<Byte>, args: seq<Value>)
    requires kind !in {99, 100, 105, 115} && Matches(rest, args)
    ensures Matches([37, kind] + rest, args) && Items([37, kind] + rest, args) == Items(rest, args)
  {
    assert ([37, kind] + rest)[2..] == rest;
  }

  /** The screen and the offset of the write pointer.  Bytes written below the screen are not
      part of it. */
  datatype Pen = Pen(screen: Screen, mem: int)

  /** The cell a pointer beyond or on the screen writes. */
  function Ink(s: Screen, mem: int, c: Byte): Screen
    requires Valid(s)
  {
    if 0 <= mem / 2 < CELLS then s.(cells := s.cells[mem / 2 := Cell(c, DEFAULT_COLOR)]) else s
  }

  predicate IsFull(s: Screen) {
    s.cursor == CELLS - 1
  }

  function Stepped(s: Screen): Screen
    requires Valid(s)
  {
    var u := if IsFull(s) then Scrolled(s) else s;
    u.(cursor := u.cursor + 1)
  }

  function Draw(p: Pen, item: Item): Pen
    requires Valid(p.screen)
  {
    match item
    case Newline => Pen(Fed(p.screen), p.mem + WIDTH * 2 - p.mem % (WIDTH * 2))
    case Plain(c) => Pen(Stepped(Ink(p.screen, p.mem, c)), p.mem + 2 - if IsFull(p.screen) then WIDTH * 2 else 0)
    case Arg(c) => Pen(Stepped(Ink(p.screen, p.mem, c)), p.mem + 2)
  }

  function DrawAll(p: Pen, items: seq<Item>): Pen
    requires Valid(p.screen)
    decreases |items|
  {
    if items == [] then p else DrawAll(Draw(p, items[0]), items[1..])
  }

  function CharOf(item: Item): Byte {
    if item.Newline? then NEWLINE else item.c
  }

  /** The same items through putchar. */
  function PutItems(s: Screen, items: seq<Item>): Screen
    requires Valid(s)
    decreases |items|
  {
    if items == [] then s else PutItems(Put(s, CharOf(items[0])), items[1..])
  }

  /** Text only: no control character where putchar would act on it. */
  predicate IsText(items: seq<Item>) {
    forall i :: 0 <= i < |items| && !items[i].Newline? ==> items[i].c != NEWLINE && items[i].c != BACKSPACE
  }

  /** Whether an item scrolls a screen with the given cursor, and where the cursor goes. */
  predicate Turns(cursor: int, item: Item) {
    if item.Newline? then cursor >= CELLS - WIDTH else cursor == CELLS - 1
  }

  function Next(cursor: int, item: Item): int {
    (if item.Newline? then (cursor / WIDTH + 1) * WIDTH else cursor + 1) - if Turns(cursor, item) then WIDTH else 0
  }

  function Turned(cursor: int, items: seq<Item>): nat
    decreases |items|
  {
    if items == [] then 0
    else (if Turns(cursor, items[0]) then 1 else 0) + Turned(Next(cursor, items[0]), items[1..])
  }

  /** The scrolls after which the pointer is not pulled back. */
  function Lags(cursor: int, items: seq<Item>): nat
    decreases |items|
  {
    if items == [] then 0
    else (if Turns(cursor, items[0]) && !items[0].Plain? then 1 else 0) + Lags(Next(cursor, items[0]), items[1..])
  }

  lemma DrawMovesCursor(p: Pen, item: Item)
    requires Valid(p.screen)
    ensures Valid(Draw(p, item).screen)
    ensures Draw(p, item).screen.cursor == Next(p.screen.cursor, item)
  {
  }

  lemma PutMovesCursor(s: Screen, item: Item)
    requires Valid(s) && IsText([item])
    ensures Put(s, CharOf(item)).cursor == Next(s.cursor, item)
  {
    assert !item.Newline? ==> [item][0].c != NEWLINE;
  }

  /** A control character inside a string or %c is drawn as it is, where putchar acts on it.  The
      cursors then agree only after a newline that would have been a step anyway. */
  lemma SameStepIff(p: Pen, item: Item)
    requires Valid(p.screen) && !item.Newline?
    ensures Draw(p, item).screen.cursor == Put(p.screen, item.c).cursor
      <==> item.c != BACKSPACE && (item.c == NEWLINE ==> p.screen.cursor % WIDTH == WIDTH - 1)
  {
    DrawMovesCursor(p, item);
    if item.c != NEWLINE && item.c != BACKSPACE {
      assert IsText([item]);
      PutMovesCursor(p.screen, item);
    }
  }

  /** An item writes the cell its pointer is at, if that is on the screen, and moves the screen up
      as its cursor demands.  The pointer goes to the next cell or row, and is pulled back by a row
      only if a character of the format, a string or a number moves the screen. */
  lemma DrawChangesOneCell(p: Pen, item: Item)
    requires Valid(p.screen) && p.mem >= 0
    ensures var s, q := p.screen, Draw(p, item);
      var d := if (if item.Newline? then s.cursor >= 1920 else s.cursor == 1999) then 80 else 0;
      && |q.screen.cells| == 2000
      && q.screen.cursor == (if item.Newline? then (s.cursor / 80 + 1) * 80 else s.cursor + 1) - d
      && q.mem == (if item.Newline? then (p.mem / 160 + 1) * 160 else p.mem + 2) - (if item.Plain? then 2 * d else 0)
      && (forall i :: 2000 - d <= i < 2000 ==> q.screen.cells[i] == Cell(32, 7))
      && forall i :: 0 <= i < 2000 - d ==>
        q.screen.cells[i] == if !item.Newline? && i + d == p.mem / 2 then Cell(item.c, 7) else s.cells[i + d]
  {
  }

  function Lag(cursor: int, item: Item, lag: nat): nat {
    lag + if Turns(cursor, item) && !item.Plain? then 1 else 0
  }

  lemma LagGrows(p: Pen, item: Item, lag: nat)
    requires Valid(p.screen) && p.mem == 2 * p.screen.cursor + 2 * WIDTH * lag
    ensures Draw(p, item).mem == 2 * Next(p.screen.cursor, item) + 2 * WIDTH * Lag(p.screen.cursor, item, lag)
  {
  }

  /** The pointer tracks the cursor up to one row for every scroll that did not pull it back. */
  lemma {:induction false} PointerTracksCursor(p: Pen, items: seq<Item>, lag: nat)
    requires Valid(p.screen) && p.mem == 2 * p.screen.cursor + 2 * WIDTH * lag
    ensures var q := DrawAll(p, items);
      Valid(q.screen) && q.mem == 2 * q.screen.cursor + 2 * WIDTH * (lag + Lags(p.screen.cursor, items))
    decreases |items|
  {
    if items != [] {
      var item := items[0];
      DrawMovesCursor(p, item);
      LagGrows(p, item, lag);
      PointerTracksCursor(Draw(p, item), items[1..], Lag(p.screen.cursor, item, lag));
    }
  }

  /** The cursor ends where putting the text one character at a time would leave it. */
  lemma {:induction false} SameFinalCursor(p: Pen, s: Screen, items: seq<Item>)
    requires Valid(p.screen) && Valid(s) && s.cursor == p.screen.cursor && IsText(items)
    ensures DrawAll(p, items).screen.cursor == PutItems(s, items).cursor
    decreases |items|
  {
    if items != [] {
      assert [items[0]][0] == items[0];
      DrawMovesCursor(p, items[0]);
      PutMovesCursor(s, items[0]);
      SameFinalCursor(Draw(p, items[0]), Put(s, CharOf(items[0])), items[1..]);
    }
  }

  predicate IsVisible(item: Item) {
    !item.Newline? && item.c != SPACE
  }

  /** Every visible character is followed by enough scrolls to leave the screen again. */
  predicate Gone(cursor: int, items: seq<Item>)
    decreases |items|
  {
    items == []
    || ((IsVisible(items[0]) ==> Turned(cursor, items) >= HEIGHT) && Gone(Next(cursor, items[0]), items[1..]))
  }

  /** No character that is to be seen at the end comes after a scroll that leaves the pointer
      behind.  This depends on the text and the cursor only. */
  predicate Shown(cursor: int, items: seq<Item>)
    decreases |items|
  {
    items == []
    || if Turns(cursor, items[0]) && !items[0].Plain?
       then Gone(Next(cursor, items[0]), items[1..])
       else Shown(Next(cursor, items[0]), items[1..])
  }

  /** Two screens with the same cursor in the last row, blank from there on. */
  ghost predicate AtBottom(a: Screen, b: Screen) {
    && Valid(a) && Valid(b) && a.cursor == b.cursor >= CELLS - WIDTH
    && forall i :: a.cursor <= i < CELLS ==> a.cells[i] == b.cells[i] == BLANK
  }

  /** They show the same from row `n` on. */
  ghost predicate AgreeFrom(a: Screen, b: Screen, n: nat) {
    |a.cells| == |b.cells| == CELLS && forall i :: n * WIDTH <= i < CELLS ==> a.cells[i] == b.cells[i]
  }

  /** One item drawn below one screen and put on the other: where the two results differ. */
  lemma LostNewline(p: Pen, s: Screen)
    requires AtBottom(p.screen, s)
    ensures var a, b := Draw(p, Newline).screen, Put(s, NEWLINE);
      && AtBottom(a, b)
      && (forall i :: 0 <= i < CELLS - WIDTH ==>
        (a.cells[i] == b.cells[i] <==> p.screen.cells[i + WIDTH] == s.cells[i + WIDTH]))
  {
  }

  lemma LostChar(p: Pen, s: Screen, item: Item)
    requires AtBottom(p.screen, s) && p.mem >= 2 * CELLS
    requires !item.Newline? && item.c != NEWLINE && item.c != BACKSPACE
    ensures var a, b, d := Draw(p, item).screen, Put(s, item.c), if IsFull(s) then WIDTH else 0;
      && AtBottom(a, b)
      && (forall i :: 0 <= i < CELLS - d && i != s.cursor - d ==>
        (a.cells[i] == b.cells[i] <==> p.screen.cells[i + d] == s.cells[i + d]))
      && (a.cells[s.cursor - d] == b.cells[s.cursor - d] <==> !IsVisible(item))
  {
    assert Draw(p, item).screen == Stepped(p.screen);
  }

  lemma OneLost(p: Pen, s: Screen, item: Item, t: nat)
    requires AtBottom(p.screen, s) && p.mem >= 2 * CELLS && IsText([item])
    ensures var q, r, d := Draw(p, item), Put(s, CharOf(item)), if Turns(s.cursor, item) then 1 else 0;
      && AtBottom(q.screen, r)
      && (AgreeFrom(q.screen, r, t) <==> AgreeFrom(p.screen, s, t + d) && (IsVisible(item) ==> t + d >= HEIGHT))
  {
    assert item.Newline? || ([item][0].c != NEWLINE && [item][0].c != BACKSPACE);
    if item.Newline? {
      LostNewline(p, s);
    } else {
      LostChar(p, s, item);
    }
    var d := if Turns(s.cursor, item) then 1 else 0;
    var a, b, at := Draw(p, item).screen, Put(s, CharOf(item)), s.cursor - d * WIDTH;
    if AgreeFrom(a, b, t) {
      forall j | (t + d) * WIDTH <= j < CELLS ensures p.screen.cells[j] == s.cells[j] {
        assert a.cells[j - d * WIDTH] == b.cells[j - d * WIDTH];
      }
    }
    if AgreeFrom(p.screen, s, t + d) && (IsVisible(item) ==> t + d >= HEIGHT) {
      forall i | t * WIDTH <= i < CELLS ensures a.cells[i] == b.cells[i] {
        if i < CELLS - d * WIDTH && (item.Newline? || i != at) {
          assert p.screen.cells[i + d * WIDTH] == s.cells[i + d * WIDTH];
        }
      }
    }
  }

  /** From there on the screens end up the same exactly if they agree in the rows that stay and
      every visible character leaves the screen again. */
  lemma {:induction false} LostTextShows(p: Pen, s: Screen, items: seq<Item>, lag: nat)
    requires AtBottom(p.screen, s) && IsText(items)
    requires lag > 0 && p.mem == 2 * s.cursor + 2 * WIDTH * lag
    ensures DrawAll(p, items).screen == PutItems(s, items)
      <==> AgreeFrom(p.screen, s, Turned(s.cursor, items)) && Gone(s.cursor, items)
    decreases |items|
  {
    if items == [] {
      assert AgreeFrom(p.screen, s, 0) ==> p.screen.cells == s.cells;
    } else {
      var item := items[0];
      assert [item][0] == items[0];
      OneLost(p, s, item, Turned(Next(s.cursor, item), items[1..]));
      PutMovesCursor(s, item);
      LagGrows(p, item, lag);
      LostTextShows(Draw(p, item), Put(s, CharOf(item)), items[1..], Lag(p.screen.cursor, item, lag));
    }
  }

  /** printf leaves the screen that putting its text one character at a time would leave, exactly
      if no visible character is lost; the text and the cursor before the call decide that. */
  lemma {:induction false} PrintfShowsTextIff(p: Pen, items: seq<Item>)
    requires Valid(p.screen) && p.mem == 2 * p.screen.cursor && IsText(items)
    ensures DrawAll(p, items).screen == PutItems(p.screen, items) <==> Shown(p.screen.cursor, items)
    decreases |items|
  {
    if items != [] {
      var item, s := items[0], p.screen;
      assert [item][0] == items[0];
      DrawMovesCursor(p, item);
      assert Draw(p, item).screen == Put(s, CharOf(item));
      if Turns(s.cursor, item) && !item.Plain? {
        LostTextShows(Draw(p, item), Put(s, CharOf(item)), items[1..], 1);
      } else {
        PrintfShowsTextIff(Draw(p, item), items[1..]);
      }
    }
  }

  /** In particular if no newline and no %c scrolls the screen. */
  lemma {:induction false} ShownWithoutLag(cursor: int, items: seq<Item>)
    requires Lags(cursor, items) == 0
    ensures Shown(cursor, items)
    decreases |items|
  {
    if items != [] {
      ShownWithoutLag(Next(cursor, items[0]), items[1..]);
    }
  }

  lemma {:induction false} DrawTwice(p: Pen, a: seq<Item>, b: seq<Item>)
    requires Valid(p.screen)
    ensures Valid(DrawAll(p, a).screen)
    ensures DrawAll(p, a + b) == DrawAll(DrawAll(p, a), b)
    decreases |a|
  {
    if a == [] {
      assert a + b == b;
    } else {
      DrawMovesCursor(p, a[0]);
      assert (a + b)[1..] == a[1..] + b;
      DrawTwice(Draw(p, a[0]), a[1..], b);
    }
  }

  predicate Behind(p: Pen, lag: nat) {
    p.mem == 2 * p.screen.cursor + 2 * WIDTH * lag
  }

  /** The pointer is on the cursor's column, in its row or some rows below. */
  ghost predicate Tied(p: Pen) {
    Valid(p.screen) && exists lag: nat :: Behind(p, lag)
  }

  lemma DrawKeepsTied(p: Pen, item: Item)
    requires Tied(p)
    ensures Tied(Draw(p, item))
  {
    var lag: nat :| Behind(p, lag);
    LagGrows(p, item, lag);
    DrawMovesCursor(p, item);
    assert Behind(Draw(p, item), Lag(p.screen.cursor, item, lag));
  }

  lemma TiedColumn(p: Pen)
    requires Tied(p)
    ensures p.mem % 2 == 0 && p.mem % (2 * WIDTH) == 2 * p.screen.cursor % (2 * WIDTH)
  {
    var lag: nat :| Behind(p, lag);
    ModShift(2 * p.screen.cursor, lag, 2 * WIDTH);
  }

  /** Storing a character through the pointer; memory below the screen is not modelled. */
  method Store(t: Terminal, mem: int, c: Byte)
    requires t.Ready() && mem % 2 == 0
    modifies t.video
    ensures t.Ready() && t.State() == Ink(old(t.State()), mem, c)
  {
    if 0 <= mem < t.video.Length {
      CellWritten(t.video[..], mem / 2, c, DEFAULT_COLOR);
      t.video[mem] := c;
      t.video[mem + 1] := DEFAULT_COLOR;
    }
  }

  /** The character loops of printf, PrintString and Num_to_String share this body. */
  method WritePlain(t: Terminal, c: Byte, mem: int) returns (mem': int)
    requires t.Ready() && Tied(Pen(t.State(), mem))
    modifies t, t.video
    ensures t.Ready() && Tied(Pen(t.State(), mem'))
    ensures Pen(t.State(), mem') == Draw(Pen(old(t.State()), mem), Plain(c))
  {
    DrawKeepsTied(Pen(t.State(), mem), Plain(c));
    TiedColumn(Pen(t.State(), mem));
    Store(t, mem, c);
    mem' := mem + 2;
    if CELLS - 1 <= t.gCursor {
      t.Scroll();
      mem' := mem' - WIDTH * 2;
    }
    t.gCursor := t.gCursor + 1;
  }

  method WriteArg(t: Terminal, c: Byte, mem: int) returns (mem': int)
    requires t.Ready() && Tied(Pen(t.State(), mem))
    modifies t, t.video
    ensures t.Ready() && Tied(Pen(t.State(), mem'))
    ensures Pen(t.State(), mem') == Draw(Pen(old(t.State()), mem), Arg(c))
  {
    DrawKeepsTied(Pen(t.State(), mem), Arg(c));
    TiedColumn(Pen(t.State(), mem));
    Store(t, mem, c);
    mem' := mem + 2;
    if CELLS - 1 <= t.gCursor {
      t.Scroll();
    }
    t.gCursor := t.gCursor + 1;
  }

  method PrintString(t: Terminal, message: seq<Byte>, mem: int) returns (mem': int, eof: bool)
    requires t.Ready() && Tied(Pen(t.State(), mem))
    modifies t, t.video
    ensures t.Ready() && Tied(Pen(t.State(), mem'))
    ensures eof <==> EOF in message
    ensures Pen(t.State(), mem') == DrawAll(Pen(old(t.State()), mem), PlainAll(UpToEof(message)))
  {
    mem' := mem;
    ghost var p := Pen(t.State(), mem);
    var i := 0;
    while i < |message|
      invariant i <= |message| && EOF !in message[..i]
      invariant t.Ready() && Tied(Pen(t.State(), mem'))
      invariant Pen(t.State(), mem') == DrawAll(p, PlainAll(message[..i]))
    {
      if message[i] == EOF {
        UpToEofIs(message, i);
        return mem', true;
      }
      PlainSnoc(message, i);
      DrawTwice(p, PlainAll(message[..i]), [Plain(message[i])]);
      mem' := WritePlain(t, message[i], mem');
      i := i + 1;
    }
    assert message[..i] == message;
    UpToEofIs(message, i);
    eof := false;
  }

  lemma PlainSnoc(s: seq<Byte>, i: nat)
    requires i < |s|
    ensures PlainAll(s[..i + 1]) == PlainAll(s[..i]) + [Plain(s[i])]
  {
  }

  lemma {:induction false} UpToEofIs(s: seq<Byte>, i: nat)
    requires i <= |s| && EOF !in s[..i] && (i < |s| ==> s[i] == EOF)
    ensures UpToEof(s) == s[..i]
  {
    if i > 0 {
      assert s[..i][0] == s[0];
      assert s[..i] == [s[0]] + s[1..][..i - 1];
      UpToEofIs(s[1..], i - 1);
    }
  }

  method NumToString(t: Terminal, number: int, mem: int) returns (mem': int)
    requires t.Ready() && Tied(Pen(t.State(), mem)) && InRange(number)
    modifies t, t.video
    ensures t.Ready() && Tied(Pen(t.State(), mem'))
    ensures Pen(t.State(), mem') == DrawAll(Pen(old(t.State()), mem), PlainAll(Text(number)))
  {
    var digits, count := NumberToArray(number);
    ghost var text, p := Text(number), Pen(t.State(), mem);
    mem' := mem;
    var i: int := count;
    while i >= 0
      invariant -1 <= i <= count
      invariant forall j :: 0 <= j <= count ==> digits[count - j] == text[j]
      invariant t.Ready() && Tied(Pen(t.State(), mem'))
      invariant Pen(t.State(), mem') == DrawAll(p, PlainAll(text[..count - i]))
    {
      ghost var j := count - i;
      PlainSnoc(text, j);
      DrawTwice(p, PlainAll(text[..j]), [Plain(text[j])]);
      mem' := WritePlain(t, digits[i], mem');
      i := i - 1;
    }
    assert text[..count + 1] == text;
  }

  /** The items of one conversion with the arguments it has not taken yet. */
  function Chunk(kind: Byte, args: seq<Value>): seq<Item>
    requires Matches([PERCENT, kind], args)
  {
    if IsNumberArg(kind) then PlainAll(Text(args[0].n))
    else if kind == 99 then [Arg(args[0].c)]
    else if kind == 115 then PlainAll(UpToEof(args[0].s))
    else []
  }

  function Rest(kind: Byte, args: seq<Value>): seq<Value>
    requires Matches([PERCENT, kind], args)
  {
    if IsNumberArg(kind) || kind == 99 || kind == 115 then args[1..] else args
  }

  predicate EndsEarly(kind: Byte, args: seq<Value>)
    requires Matches([PERCENT, kind], args)
  {
    kind == 115 && EOF in args[0].s
  }

  method ArgPrintf(t: Terminal, kind: Byte, args: seq<Value>, mem: int)
    returns (mem': int, args': seq<Value>, eof: bool)
    requires t.Ready() && Tied(Pen(t.State(), mem)) && Matches([PERCENT, kind], args)
    modifies t, t.video
    ensures t.Ready() && Tied(Pen(t.State(), mem'))
    ensures args' == Rest(kind, args) && eof == EndsEarly(kind, args)
    ensures Pen(t.State(), mem') == DrawAll(Pen(old(t.State()), mem), Chunk(kind, args))
  {
    mem', args', eof := mem, args, false;
    if kind == 100 || kind == 105 {
      args' := args[1..];
      mem' := NumToString(t, args[0].n, mem);
    } else if kind == 99 {
      args' := args[1..];
      mem' := WriteArg(t, args[0].c, mem);
    } else if kind == 115 {
      args' := args[1..];
      mem', eof := PrintString(t, args[0].s, mem);
    }
  }

  lemma ItemsOfConversion(format: seq<Byte>, args: seq<Value>)
    requires |format| >= 2 && format[0] == PERCENT && Matches(format, args)
    ensures Matches([PERCENT, format[1]], args)
    ensures EndsEarly(format[1], args) ==> Items(format, args) == (Chunk(format[1], args), true)
    ensures !EndsEarly(format[1], args) ==>
      && Matches(format[2..], Rest(format[1], args))
      && Items(format, args).0 == Chunk(format[1], args) + Items(format[2..], Rest(format[1], args)).0
      && Items(format, args).1 == Items(format[2..], Rest(format[1], args)).1
  {
    assert [PERCENT, format[1]][2..] == [];
    if format[1] == 115 && EOF !in args[0].s {
      UpToEofIs(args[0].s, |args[0].s|);
      assert args[0].s[..|args[0].s|] == args[0].s;
    }
  }

  /** Drawing a format from a literal character on. */
  lemma LiteralDraws(q: Pen, format: seq<Byte>, args: seq<Value>)
    requires Valid(q.screen) && format != [] && format[0] != PERCENT && Matches(format, args)
    ensures Matches(format[1..], args) && Valid(Draw(q, Literal(format[0])).screen)
    ensures DrawAll(q, Items(format, args).0) == DrawAll(Draw(q, Literal(format[0])), Items(format[1..], args).0)
    ensures Items(format, args).1 == Items(format[1..], args).1
  {
    DrawMovesCursor(q, Literal(format[0]));
    assert Items(format, args).0[1..] == Items(format[1..], args).0;
  }

  /** Drawing a format from a conversion on. */
  lemma ConversionDraws(q: Pen, format: seq<Byte>, args: seq<Value>)
    requires Valid(q.screen) && |format| >= 2 && format[0] == PERCENT && Matches(format, args)
    ensures Matches([PERCENT, format[1]], args) && Valid(DrawAll(q, Chunk(format[1], args)).screen)
    ensures EndsEarly(format[1], args) ==> Items(format, args) == (Chunk(format[1], args), true)
    ensures !EndsEarly(format[1], args) ==>
      && Matches(format[2..], Rest(format[1], args))
      && DrawAll(q, Items(format, args).0)
         == DrawAll(DrawAll(q, Chunk(format[1], args)), Items(format[2..], Rest(format[1], args)).0)
      && Items(format, args).1 == Items(format[2..], Rest(format[1], args)).1
  {
    ItemsOfConversion(format, args);
    DrawTwice(q, Chunk(format[1], args), []);
    if !EndsEarly(format[1], args) {
      DrawTwice(q, Chunk(format[1], args), Items(format[2..], Rest(format[1], args)).0);
    }
  }

  /** A character of the format itself. */
  method WriteLiteral(t: Terminal, c: Byte, mem: int) returns (mem': int)
    requires t.Ready() && Tied(Pen(t.State(), mem))
    modifies t, t.video
    ensures t.Ready() && Tied(Pen(t.State(), mem'))
    ensures Pen(t.State(), mem') == Draw(Pen(old(t.State()), mem), Literal(c))
  {
    if c == NEWLINE {
      DrawKeepsTied(Pen(t.State(), mem), Newline);
      TiedColumn(Pen(t.State(), mem));
      mem' := t.LineFeed(mem);
    } else {
      mem' := WritePlain(t, c, mem);
    }
  }

  /** printf draws the items of its format and arguments, ending early at an EOF character. */
  method PrintF(t: Terminal, format: seq<Byte>, args: seq<Value>) returns (eof: bool)
    requires t.Ready() && Matches(format, args)
    modifies t, t.video
    ensures t.Ready() && eof == Items(format, args).1
    ensures t.State() == DrawAll(Pen(old(t.State()), 2 * old(t.gCursor)), Items(format, args).0).screen
  {
    var mem, rest := t.gCursor * 2, args;
    ghost var p := Pen(t.State(), mem);
    assert Behind(p, 0);
    var i := 0;
    assert format[0..] == format;
    while i < |format|
      invariant 0 <= i <= |format| && Matches(format[i..], rest)
      invariant t.Ready() && Tied(Pen(t.State(), mem))
      invariant DrawAll(p, Items(format, args).0) == DrawAll(Pen(t.State(), mem), Items(format[i..], rest).0)
      invariant Items(format, args).1 == Items(format[i..], rest).1
      decreases |format| - i
    {
      if format[i] == PERCENT {
        ConversionDraws(Pen(t.State(), mem), format[i..], rest);
        mem, rest, eof := ArgPrintf(t, format[i + 1], rest, mem);
        if eof {
          return true;
        }
        assert format[i..][2..] == format[i + 2..];
        i := i + 2;
      } else {
        LiteralDraws(Pen(t.State(), mem), format[i..], rest);
        assert format[i..][1..] == format[i + 1..];
        mem := WriteLiteral(t, format[i], mem);
        i := i + 1;
      }
    }
    eof := false;
  }
}
