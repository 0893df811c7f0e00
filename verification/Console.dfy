/** Three consoles sharing the text memory of one video card: each prints into its own slice
    through a window that scrolls over it, and the display controller shows the current one. */
module Console {
  import opened Numbers
  import opened Keyboard

  const WIDTH := 80
  const SCREEN := 80 * 25
  const VMEM := 0x4000
  const CONSOLE_CNT := 3
  const SLICE := 5461        // VMEM / CONSOLE_CNT
  const BUF_LENGTH := 128

  const BACKSPACE := 0x104
  const F1 := 0x111
  const F3 := 0x113
  const NEWLINE: Byte := 10
  const BS: Byte := 8

  // ---------------------------------------------------------------- one console

  /** Cells are counted from the start of video memory. `keys` are the characters waiting in the
      console's ring buffer. */
  datatype Con = Con(cursor: int, start: int, memStart: int, memEnd: int, keys: seq<Byte>)

  /** The cursor stays inside the slice; the window starts on a row of it and never goes a whole
      row past its end. */
  predicate ConInv(con: Con) {
    && con.memStart + SCREEN <= con.memEnd
    && con.memStart <= con.cursor < con.memEnd
    && con.memStart <= con.start && (con.start - con.memStart) % WIDTH == 0
    && con.start + SCREEN < con.memEnd + WIDTH
    && |con.keys| <= BUF_LENGTH
  }

  /** A white character; a `char` is signed, so an upper one brings its sign bits along. */
  function Cell(c: Byte): int {
    if c < 128 then 0x0f00 + c else 0xff00 + c
  }

  function Moved(con: Con, c: Byte): Con {
    if c == NEWLINE then
      if con.cursor < con.memEnd - WIDTH
      then con.(cursor := con.memStart + WIDTH * ((con.cursor - con.memStart) / WIDTH + 1))
      else con
    else if c == BS then
      if con.cursor > con.memStart then con.(cursor := con.cursor - 1) else con
    else if con.cursor < con.memEnd - 1 then con.(cursor := con.cursor + 1)
    else con
  }

  function Painted(vram: seq<int>, con: Con, c: Byte): seq<int>
    requires 0 <= con.memStart && con.memEnd <= |vram| && ConInv(con)
  {
    if c == NEWLINE then vram
    else if c == BS then
      if con.cursor > con.memStart then vram[con.cursor - 1 := Cell(0x20)] else vram
    else if con.cursor < con.memEnd - 1 then vram[con.cursor := Cell(c)]
    else vram
  }

  /** The window moved down by just enough rows to hold the cursor. */
  function Following(con: Con): Con {
    if con.cursor < con.start + SCREEN then con
    else con.(start := con.start + WIDTH * ((con.cursor - con.start - SCREEN) / WIDTH + 1))
  }

  function Printed(con: Con, c: Byte): Con {
    Following(Moved(con, c))
  }

  /** `scroll_console`: one row up (direction 1) or down (-1), at the ends of the slice not at all. */
  function Scrolled(con: Con, direction: int): Con {
    if direction > 0 && con.start > con.memStart then con.(start := con.start - direction * WIDTH)
    else if direction < 0 && con.start + SCREEN < con.memEnd then con.(start := con.start - direction * WIDTH)
    else con
  }

  // ---------------------------------------------------------------- when the scroll loop ends

  /** The window k rows further down, as far as scrolling lets it go. */
  function Down(con: Con, k: nat): Con {
    if k == 0 then con else Scrolled(Down(con, k - 1), -1)
  }

  /** How many rows the window can still go down, and the first cell that stays below it for ever. */
  function RowsLeft(con: Con): nat {
    if con.start + SCREEN < con.memEnd then (con.memEnd - con.start - SCREEN + WIDTH - 1) / WIDTH else 0
  }

  function Reach(con: Con): int {
    con.start + WIDTH * RowsLeft(con) + SCREEN
  }

  lemma {:induction false} DownStart(con: Con, k: nat)
    ensures Down(con, k) == con.(start := con.start + WIDTH * if k <= RowsLeft(con) then k else RowsLeft(con))
  {
    if k > 0 {
      DownStart(con, k - 1);
    }
  }

  ghost predicate Halts(con: Con) {
    exists k :: con.cursor < Down(con, k).start + SCREEN
  }

  /** The scroll loop after a character comes to an end exactly when the cursor is within reach,
      wherever it is. */
  lemma FollowHalts(con: Con)
    ensures Halts(con) <==> con.cursor < Reach(con)
  {
    DownStart(con, RowsLeft(con));
    forall k: nat ensures con.cursor < Down(con, k).start + SCREEN ==> con.cursor < Reach(con) {
      DownStart(con, k);
    }
    assert con.cursor < Reach(con) ==> con.cursor < Down(con, RowsLeft(con)).start + SCREEN;
  }

  /** Under the invariant it always is. */
  lemma InReach(con: Con)
    requires ConInv(con)
    ensures con.cursor < Reach(con)
  {
  }

  /** With a cursor inherited from the boot messages the first character on console 0 ends the loop
      exactly below cell 5520 (5521 for a backspace). */
  lemma InheritedCursor(position: nat, c: Byte)
    ensures Halts(Moved(AtStart(0, position), c)) <==> position / 2 < 5520 + if c == BS then 1 else 0
  {
    FollowHalts(Moved(AtStart(0, position), c));
  }

  /** The loop ends after every character of the text, in turn. */
  ghost predicate TextHalts(con: Con, text: seq<Byte>)
    decreases |text|
  {
    text != [] ==> Halts(Moved(con, text[0])) && TextHalts(Printed(con, text[0]), text[1..])
  }

  /** Console 0 with a cursor the window can reach, be it in the slice or just behind it. */
  predicate Reachable(con: Con) {
    && con.memStart == 0 && con.memEnd == SLICE && 0 <= con.cursor < 5520
    && 0 <= con.start && con.start % WIDTH == 0 && con.start + SCREEN < SLICE + WIDTH
  }

  lemma ReachableStays(con: Con, c: Byte)
    requires Reachable(con)
    ensures Halts(Moved(con, c)) && Reachable(Printed(con, c))
  {
    FollowHalts(Moved(con, c));
    ReachableAfter(Moved(con, c));
  }

  lemma {:induction false} ReachableTextHalts(con: Con, text: seq<Byte>)
    requires Reachable(con)
    ensures TextHalts(con, text)
    decreases |text|
  {
    if text != [] {
      ReachableStays(con, text[0]);
      ReachableTextHalts(Printed(con, text[0]), text[1..]);
    }
  }

  /** So the first character decides: a whole text is printed on console 0 exactly when it is empty
      or its first character ends the loop. */
  lemma InheritedText(position: nat, text: seq<Byte>)
    ensures TextHalts(AtStart(0, position), text) <==>
      text == [] || position / 2 < 5520 + if text[0] == BS then 1 else 0
  {
    if text != [] {
      var con := AtStart(0, position);
      InheritedCursor(position, text[0]);
      if Halts(Moved(con, text[0])) {
        var moved := Moved(con, text[0]);
        assert 0 <= moved.cursor < 5520 && moved.start == 0;
        ReachableAfter(moved);
        ReachableTextHalts(Printed(con, text[0]), text[1..]);
      }
    }
  }

  lemma ReachableAfter(moved: Con)
    requires Reachable(moved)
    ensures Reachable(Following(moved))
  {
    if moved.cursor >= moved.start + SCREEN {
      RowsApart(moved.start, (moved.cursor - moved.start - SCREEN) / WIDTH + 1);
    }
  }

  lemma MovedKeeps(con: Con, c: Byte)
    requires ConInv(con)
    ensures ConInv(Moved(con, c))
  {
  }

  /** After printing, the cursor is not below the window; it is inside it unless the window had
      been scrolled past the cursor before, and then the window does not move. */
  lemma PrintedKeeps(con: Con, c: Byte)
    requires ConInv(con)
    ensures var after := Printed(con, c);
      && ConInv(after) && after.cursor < after.start + SCREEN
      && (after.start <= after.cursor <==> con.start <= after.cursor)
      && (after.start == con.start <==> after.cursor < con.start + SCREEN)
      && con.start <= after.start && (con.start < after.start ==> after.cursor - SCREEN + WIDTH >= after.start)
  {
    MovedKeeps(con, c);
    var moved := Moved(con, c);
    if moved.cursor >= moved.start + SCREEN {
      var rows := (moved.cursor - moved.start - SCREEN) / WIDTH + 1;
      assert moved.start + SCREEN + WIDTH * (rows - 1) <= moved.cursor < moved.start + SCREEN + WIDTH * rows;
      RowsApart(moved.start - moved.memStart, rows);
    }
  }

  lemma RowsApart(at: int, rows: int)
    requires at % WIDTH == 0
    ensures (at + WIDTH * rows) % WIDTH == 0
  {
    assert at == WIDTH * (at / WIDTH);
    assert at + WIDTH * rows == WIDTH * (at / WIDTH + rows);
  }

  lemma ScrolledKeeps(con: Con, direction: int)
    requires ConInv(con) && (direction == 1 || direction == -1)
    ensures ConInv(Scrolled(con, direction))
  {
  }

  /** Scrolling back undoes scrolling, unless the window already was at that end. */
  lemma ScrollBack(con: Con, direction: int)
    requires ConInv(con) && (direction == 1 || direction == -1)
    ensures Scrolled(Scrolled(con, direction), -direction) == con
      <==> (Scrolled(con, direction) != con || Scrolled(con, -direction) == con)
  {
  }

  // ---------------------------------------------------------------- text

  function PrintedAll(con: Con, text: seq<Byte>): Con
    decreases |text|
  {
    if text == [] then con else PrintedAll(Printed(con, text[0]), text[1..])
  }

  /** What a text leaves in the memory; where the window is does not matter. */
  function PaintedAll(vram: seq<int>, con: Con, text: seq<Byte>): seq<int>
    requires 0 <= con.memStart && con.memEnd <= |vram| && ConInv(con)
    decreases |text|
  {
    MovedKeeps(con, if text == [] then 0 else text[0]);
    if text == [] then vram
    else PaintedAll(Painted(vram, con, text[0]), Moved(con, text[0]), text[1..])
  }

  lemma {:induction false} WindowDoesNotPaint(vram: seq<int>, con: Con, start: int, text: seq<Byte>)
    requires 0 <= con.memStart && con.memEnd <= |vram| && ConInv(con) && ConInv(con.(start := start))
    ensures PaintedAll(vram, con.(start := start), text) == PaintedAll(vram, con, text)
    decreases |text|
  {
    if text != [] {
      MovedKeeps(con, text[0]);
      MovedKeeps(con.(start := start), text[0]);
      WindowDoesNotPaint(Painted(vram, con, text[0]), Moved(con, text[0]), start, text[1..]);
    }
  }

  /** The cells of a text, as far as there is room: the last cell of a slice is never written. */
  function Cells(text: seq<Byte>, room: nat): (cells: seq<int>)
    ensures |cells| == if |text| < room then |text| else room
    ensures forall k :: 0 <= k < |cells| ==> cells[k] == Cell(text[k])
  {
    if text == [] || room == 0 then [] else [Cell(text[0])] + Cells(text[1..], room - 1)
  }

  function Room(con: Con): nat
    requires ConInv(con)
  {
    con.memEnd - 1 - con.cursor
  }

  function Overwritten(vram: seq<int>, at: nat, cells: seq<int>): seq<int>
    requires at + |cells| <= |vram|
  {
    vram[..at] + cells + vram[at + |cells|..]
  }

  predicate PlainBytes(text: seq<Byte>) {
    NEWLINE !in text && BS !in text
  }

  lemma {:induction false} PlainCursor(con: Con, text: seq<Byte>)
    requires ConInv(con) && PlainBytes(text)
    ensures PrintedAll(con, text).cursor == con.cursor + |Cells(text, Room(con))|
    decreases |text|
  {
    if text != [] {
      PrintedKeeps(con, text[0]);
      PlainCursor(Printed(con, text[0]), text[1..]);
    }
  }

  /** One plain byte with room for it, and without. */
  lemma PlainStep(vram: seq<int>, con: Con, c: Byte)
    requires 0 <= con.memStart && con.memEnd <= |vram| && ConInv(con) && c != NEWLINE && c != BS
    ensures Room(con) > 0 ==>
      Moved(con, c) == con.(cursor := con.cursor + 1) && Painted(vram, con, c) == vram[con.cursor := Cell(c)]
    ensures Room(con) == 0 ==> Moved(con, c) == con && Painted(vram, con, c) == vram
  {
  }

  lemma {:induction false} PaintedFull(vram: seq<int>, con: Con, text: seq<Byte>)
    requires 0 <= con.memStart && con.memEnd <= |vram| && ConInv(con) && PlainBytes(text) && Room(con) == 0
    ensures PaintedAll(vram, con, text) == vram
    decreases |text|
  {
    if text != [] {
      PlainStep(vram, con, text[0]);
      PaintedFull(vram, con, text[1..]);
    }
  }

  lemma {:induction false} PaintedPlain(vram: seq<int>, con: Con, text: seq<Byte>)
    requires 0 <= con.memStart && con.memEnd <= |vram| && ConInv(con) && PlainBytes(text)
    ensures PaintedAll(vram, con, text) == Overwritten(vram, con.cursor, Cells(text, Room(con)))
    decreases |text|
  {
    if Room(con) == 0 || text == [] {
      if text != [] { PaintedFull(vram, con, text); }
    } else {
      PaintedFirst(vram, con, text);
      PaintedPlain(vram[con.cursor := Cell(text[0])], con.(cursor := con.cursor + 1), text[1..]);
      OverwrittenStep(vram, con.cursor, Cell(text[0]), Cells(text[1..], Room(con) - 1));
    }
  }

  lemma PaintedFirst(vram: seq<int>, con: Con, text: seq<Byte>)
    requires 0 <= con.memStart && con.memEnd <= |vram| && ConInv(con) && PlainBytes(text) && text != [] && Room(con) > 0
    ensures ConInv(con.(cursor := con.cursor + 1))
    ensures PaintedAll(vram, con, text) ==
      PaintedAll(vram[con.cursor := Cell(text[0])], con.(cursor := con.cursor + 1), text[1..])
    ensures Cells(text, Room(con)) == [Cell(text[0])] + Cells(text[1..], Room(con) - 1)
  {
    PlainStep(vram, con, text[0]);
  }

  lemma OverwrittenStep(vram: seq<int>, at: nat, cell: int, cells: seq<int>)
    requires at + 1 + |cells| <= |vram|
    ensures Overwritten(vram[at := cell], at + 1, cells) == Overwritten(vram, at, [cell] + cells)
  {
  }

  /** Plain text appears from the cursor on, cut where the slice ends; nothing else changes. */
  lemma PlainText(vram: seq<int>, con: Con, text: seq<Byte>)
    requires 0 <= con.memStart && con.memEnd <= |vram| && ConInv(con) && PlainBytes(text)
    ensures var cells := Cells(text, Room(con));
      && PrintedAll(con, text).cursor == con.cursor + |cells|
      && PaintedAll(vram, con, text) == vram[..con.cursor] + cells + vram[con.cursor + |cells|..]
  {
    PlainCursor(con, text);
    PaintedPlain(vram, con, text);
  }

  /** A backspace takes a character back: the cursor returns, and its cell is blank. */
  lemma Backspace(vram: seq<int>, con: Con, c: Byte)
    requires 0 <= con.memStart && con.memEnd <= |vram| && ConInv(con)
    requires c != NEWLINE && c != BS && con.cursor < con.memEnd - 1
    ensures PrintedAll(con, [c, BS]).cursor == con.cursor
    ensures PaintedAll(vram, con, [c, BS]) == vram[con.cursor := Cell(0x20)]
  {
    assert [c, BS][1..] == [BS] && [BS][1..] == [];
    PrintedKeeps(con, c);
    var next := Printed(con, c);
    assert PrintedAll(con, [c, BS]) == PrintedAll(next, [BS]) == Printed(next, BS);
    MovedKeeps(con, c);
    var moved, painted := Moved(con, c), Painted(vram, con, c);
    assert PaintedAll(vram, con, [c, BS]) == PaintedAll(painted, moved, [BS]) == Painted(painted, moved, BS);
  }

  // ---------------------------------------------------------------- the display

  /** The controller's start address and cursor, each in a high and a low byte. */
  datatype Crtc = Crtc(startHi: int, startLo: int, cursorHi: int, cursorLo: int)

  datatype Display = Display(cons: seq<Con>, vram: seq<int>, current: nat, crtc: Crtc)

  function Registers(con: Con): Crtc {
    Crtc(con.start / 256 % 256, con.start % 256, con.cursor / 256 % 256, con.cursor % 256)
  }

  predicate Owns(con: Con, i: int) {
    con.memStart == i * SLICE && con.memEnd == con.memStart + SLICE && ConInv(con)
  }

  predicate DisplayInv(d: Display) {
    && |d.cons| == CONSOLE_CNT && |d.vram| == VMEM && d.current < CONSOLE_CNT
    && (forall i :: 0 <= i < CONSOLE_CNT ==> Owns(d.cons[i], i))
    && d.crtc == Registers(d.cons[d.current])
  }

  /** The registers put together again give the current console's start and cursor. */
  lemma RegistersShowCurrent(d: Display)
    requires DisplayInv(d)
    ensures d.crtc.startHi * 256 + d.crtc.startLo == d.cons[d.current].start
    ensures d.crtc.cursorHi * 256 + d.crtc.cursorLo == d.cons[d.current].cursor
  {
    assert Owns(d.cons[d.current], d.current);
    TwoBytes(d.cons[d.current].start);
    TwoBytes(d.cons[d.current].cursor);
  }

  lemma TwoBytes(x: int)
    requires 0 <= x < VMEM
    ensures x / 256 % 256 * 256 + x % 256 == x
  {
  }

  datatype Op =
    | Print(con: nat, c: Byte)
    | Scroll(con: nat, direction: int)
    | Show(con: nat)
    | Key(con: nat, key: nat)
    | Echo(con: nat)

  predicate Proper(op: Op) {
    (op.Show? || op.con < CONSOLE_CNT) && (op.Scroll? ==> op.direction == 1 || op.direction == -1)
  }

  function Refreshed(d: Display, i: nat): Display
    requires d.current < |d.cons|
  {
    if d.current == i then d.(crtc := Registers(d.cons[i])) else d
  }

  function PrintOn(d: Display, i: nat, c: Byte): Display
    requires DisplayInv(d) && i < CONSOLE_CNT
  {
    assert Owns(d.cons[i], i);
    Refreshed(d.(cons := d.cons[i := Printed(d.cons[i], c)], vram := Painted(d.vram, d.cons[i], c)), i)
  }

  function ScrollOn(d: Display, i: nat, direction: int): Display
    requires DisplayInv(d) && i < CONSOLE_CNT
  {
    Refreshed(d.(cons := d.cons[i := Scrolled(d.cons[i], direction)]), i)
  }

  function ShowCon(d: Display, i: nat): Display
    requires DisplayInv(d)
  {
    if i < CONSOLE_CNT then d.(current := i, crtc := Registers(d.cons[i])) else d
  }

  function StoreKey(con: Con, c: Byte): Con {
    if |con.keys| < BUF_LENGTH then con.(keys := con.keys + [c]) else con
  }

  function StoreOn(d: Display, i: nat, c: Byte): Display
    requires DisplayInv(d) && i < CONSOLE_CNT
  {
    d.(cons := d.cons[i := StoreKey(d.cons[i], c)])
  }

  predicate Flag(key: nat, flag: nat)
    requires flag > 0
  {
    key / flag % 2 == 1
  }

  predicate ShiftKey(key: nat) { Flag(key, FLAG_SHIFT_L) || Flag(key, FLAG_SHIFT_R) }

  predicate CtrlKey(key: nat) { Flag(key, FLAG_CTRL_L) || Flag(key, FLAG_CTRL_R) }

  /** `store_key_into_console`. */
  function KeyOn(d: Display, i: nat, key: nat): Display
    requires DisplayInv(d) && i < CONSOLE_CNT
  {
    if key % 0x200 < 0x100 then StoreOn(d, i, key % 256) else FunctionKeyOn(d, i, key, key % 0x200)
  }

  function FunctionKeyOn(d: Display, i: nat, key: nat, raw: nat): Display
    requires DisplayInv(d) && i < CONSOLE_CNT
  {
    if raw == ENTER then StoreOn(d, i, NEWLINE)
    else if raw == BACKSPACE then StoreOn(d, i, BS)
    else if raw == UP then if ShiftKey(key) then ScrollOn(d, i, 1) else d
    else if raw == DOWN then if ShiftKey(key) then ScrollOn(d, i, -1) else d
    else if F1 <= raw <= F3 && CtrlKey(key) then ShowCon(d, raw - F1)
    else d
  }

  lemma ExtBit(key: nat)
    ensures key / FLAG_EXT % 2 == 0 <==> key % 0x200 < 0x100
  {
    assert key == 0x200 * (key / 0x200) + key % 0x200;
  }

  /** `console_write_key`: the oldest waiting character is printed. */
  function EchoOn(d: Display, i: nat): Display
    requires DisplayInv(d) && i < CONSOLE_CNT
  {
    var con := d.cons[i];
    if con.keys == [] then d
    else
      var taken := d.(cons := d.cons[i := con.(keys := con.keys[1..])]);
      StoringKeeps(d, i, con.keys[1..]);
      PrintOn(taken, i, con.keys[0])
  }

  lemma StoringKeeps(d: Display, i: nat, keys: seq<Byte>)
    requires DisplayInv(d) && i < CONSOLE_CNT && |keys| <= BUF_LENGTH
    ensures DisplayInv(d.(cons := d.cons[i := d.cons[i].(keys := keys)]))
  {
    assert Owns(d.cons[i], i);
  }

  function Apply(d: Display, op: Op): Display
    requires DisplayInv(d) && Proper(op)
  {
    match op
    case Print(i, c) => PrintOn(d, i, c)
    case Scroll(i, direction) => ScrollOn(d, i, direction)
    case Show(i) => ShowCon(d, i)
    case Key(i, key) => KeyOn(d, i, key)
    case Echo(i) => EchoOn(d, i)
  }

  lemma PrintOnKeeps(d: Display, i: nat, c: Byte)
    requires DisplayInv(d) && i < CONSOLE_CNT
    ensures DisplayInv(PrintOn(d, i, c))
  {
    assert Owns(d.cons[i], i);
    PrintedKeeps(d.cons[i], c);
    assert Owns(Printed(d.cons[i], c), i);
  }

  lemma ScrollOnKeeps(d: Display, i: nat, direction: int)
    requires DisplayInv(d) && i < CONSOLE_CNT && (direction == 1 || direction == -1)
    ensures DisplayInv(ScrollOn(d, i, direction))
  {
    assert Owns(d.cons[i], i);
    ScrolledKeeps(d.cons[i], direction);
    assert Owns(Scrolled(d.cons[i], direction), i);
  }

  lemma StoreOnKeeps(d: Display, i: nat, c: Byte)
    requires DisplayInv(d) && i < CONSOLE_CNT
    ensures DisplayInv(StoreOn(d, i, c))
  {
    assert Owns(d.cons[i], i);
    StoringKeeps(d, i, StoreKey(d.cons[i], c).keys);
  }

  lemma KeyOnKeeps(d: Display, i: nat, key: nat)
    requires DisplayInv(d) && i < CONSOLE_CNT
    ensures DisplayInv(KeyOn(d, i, key))
  {
    StoreOnKeeps(d, i, key % 256);
    StoreOnKeeps(d, i, NEWLINE);
    StoreOnKeeps(d, i, BS);
    ScrollOnKeeps(d, i, 1);
    ScrollOnKeeps(d, i, -1);
  }

  lemma ApplyKeeps(d: Display, op: Op)
    requires DisplayInv(d) && Proper(op)
    ensures DisplayInv(Apply(d, op))
  {
    match op
    case Print(i, c) => PrintOnKeeps(d, i, c);
    case Scroll(i, direction) => ScrollOnKeeps(d, i, direction);
    case Show(i) =>
    case Key(i, key) => KeyOnKeeps(d, i, key);
    case Echo(i) =>
      if d.cons[i].keys != [] {
        var con := d.cons[i];
        assert Owns(con, i);
        StoringKeeps(d, i, con.keys[1..]);
        PrintOnKeeps(d.(cons := d.cons[i := con.(keys := con.keys[1..])]), i, con.keys[0]);
      }
  }

  // ---------------------------------------------------------------- whole runs

  predicate AllProper(ops: seq<Op>) {
    forall op :: op in ops ==> Proper(op)
  }

  function ApplyAll(d: Display, ops: seq<Op>): (after: Display)
    requires DisplayInv(d) && AllProper(ops)
    ensures DisplayInv(after)
    decreases |ops|
  {
    if ops == [] then d
    else
      ApplyKeeps(d, ops[0]);
      ApplyAll(Apply(d, ops[0]), ops[1..])
  }

  /** What belongs to console j: its state and its slice of the memory. */
  function View(d: Display, j: nat): (Con, seq<int>)
    requires DisplayInv(d) && j < CONSOLE_CNT
  {
    assert Owns(d.cons[j], j);
    (d.cons[j], d.vram[j * SLICE..(j + 1) * SLICE])
  }

  predicate Touches(op: Op, j: nat) {
    !op.Show? && op.con == j
  }

  /** The operations on console j, in order. */
  function On(ops: seq<Op>, j: nat): (r: seq<Op>)
    ensures forall op :: op in r ==> op in ops
  {
    if ops == [] then []
    else (if Touches(ops[0], j) then [ops[0]] else []) + On(ops[1..], j)
  }

  lemma PrintElsewhere(d: Display, i: nat, c: Byte, j: nat)
    requires DisplayInv(d) && i < CONSOLE_CNT && j < CONSOLE_CNT && i != j
    ensures DisplayInv(PrintOn(d, i, c)) && View(PrintOn(d, i, c), j) == View(d, j)
  {
    PrintOnKeeps(d, i, c);
    assert Owns(d.cons[i], i);
    Disjoint(d.vram, d.cons[i], c, i, j);
  }

  lemma Disjoint(v: seq<int>, con: Con, c: Byte, i: nat, j: nat)
    requires |v| == VMEM && i < CONSOLE_CNT && j < CONSOLE_CNT && i != j && Owns(con, i)
    ensures Painted(v, con, c)[j * SLICE..(j + 1) * SLICE] == v[j * SLICE..(j + 1) * SLICE]
  {
    PaintedInside(v, con, c);
    var lo, hi := j * SLICE, (j + 1) * SLICE;
    assert hi <= con.memStart || con.memEnd <= lo;
    assert forall k :: lo <= k < hi ==> Painted(v, con, c)[k] == v[k];
  }

  /** Printing writes inside the console's own slice only. */
  lemma PaintedInside(v: seq<int>, con: Con, c: Byte)
    requires 0 <= con.memStart && con.memEnd <= |v| && ConInv(con)
    ensures |Painted(v, con, c)| == |v|
    ensures forall k :: 0 <= k < |v| && Painted(v, con, c)[k] != v[k] ==> con.memStart <= k < con.memEnd
  {
  }

  lemma PrintHere(d: Display, e: Display, i: nat, c: Byte)
    requires DisplayInv(d) && DisplayInv(e) && i < CONSOLE_CNT && View(e, i) == View(d, i)
    ensures DisplayInv(PrintOn(d, i, c)) && DisplayInv(PrintOn(e, i, c))
    ensures View(PrintOn(e, i, c), i) == View(PrintOn(d, i, c), i)
  {
    PrintOnKeeps(d, i, c);
    PrintOnKeeps(e, i, c);
    PrintOnView(d, i, c);
    PrintOnView(e, i, c);
    SameSlice(d.vram, e.vram, d.cons[i], c);
  }

  lemma PrintOnView(d: Display, i: nat, c: Byte)
    requires DisplayInv(d) && i < CONSOLE_CNT && DisplayInv(PrintOn(d, i, c))
    ensures Owns(d.cons[i], i)
    ensures View(PrintOn(d, i, c), i) == (Printed(d.cons[i], c), Painted(d.vram, d.cons[i], c)[d.cons[i].memStart..d.cons[i].memEnd])
  {
    assert Owns(d.cons[i], i);
  }

  lemma SameSlice(v: seq<int>, w: seq<int>, con: Con, c: Byte)
    requires 0 <= con.memStart && ConInv(con) && con.memEnd <= |v| && con.memEnd <= |w|
    requires v[con.memStart..con.memEnd] == w[con.memStart..con.memEnd]
    ensures Painted(v, con, c)[con.memStart..con.memEnd] == Painted(w, con, c)[con.memStart..con.memEnd]
  {
    forall k | con.memStart <= k < con.memEnd ensures Painted(v, con, c)[k] == Painted(w, con, c)[k] {
      assert v[k] == v[con.memStart..con.memEnd][k - con.memStart];
      assert w[k] == w[con.memStart..con.memEnd][k - con.memStart];
    }
  }

  /** An operation on another console leaves this one's state and slice alone. */
  lemma OthersUntouched(d: Display, op: Op, j: nat)
    requires DisplayInv(d) && Proper(op) && j < CONSOLE_CNT && !Touches(op, j)
    ensures DisplayInv(Apply(d, op)) && View(Apply(d, op), j) == View(d, j)
  {
    ApplyKeeps(d, op);
    match op
    case Print(i, c) => PrintElsewhere(d, i, c, j);
    case Echo(i) =>
      var con := d.cons[i];
      if con.keys != [] {
        StoringKeeps(d, i, con.keys[1..]);
        PrintElsewhere(d.(cons := d.cons[i := con.(keys := con.keys[1..])]), i, con.keys[0], j);
      }
    case _ =>
  }

  /** An operation on this console depends on nothing else. */
  lemma OwnOnly(d: Display, e: Display, op: Op, j: nat)
    requires DisplayInv(d) && DisplayInv(e) && Proper(op) && j < CONSOLE_CNT && Touches(op, j)
    requires View(d, j) == View(e, j)
    ensures DisplayInv(Apply(d, op)) && DisplayInv(Apply(e, op))
    ensures View(Apply(d, op), j) == View(Apply(e, op), j)
  {
    ApplyKeeps(d, op);
    ApplyKeeps(e, op);
    match op
    case Print(i, c) => PrintHere(d, e, i, c);
    case Echo(i) =>
      var con := d.cons[i];
      if con.keys != [] {
        StoringKeeps(d, i, con.keys[1..]);
        StoringKeeps(e, i, con.keys[1..]);
        PrintHere(d.(cons := d.cons[i := con.(keys := con.keys[1..])]),
                  e.(cons := e.cons[i := con.(keys := con.keys[1..])]), i, con.keys[0]);
      }
    case _ =>
  }

  /** What a console shows after a run of operations on all of them is what it would show had it
      been alone. */
  lemma {:induction false} Isolation(d: Display, e: Display, ops: seq<Op>, j: nat)
    requires DisplayInv(d) && DisplayInv(e) && j < CONSOLE_CNT && View(d, j) == View(e, j)
    requires AllProper(ops)
    ensures View(ApplyAll(d, ops), j) == View(ApplyAll(e, On(ops, j)), j)
    decreases |ops|
  {
    if ops != [] {
      var op := ops[0];
      ApplyKeeps(d, op);
      if Touches(op, j) {
        OwnOnly(d, e, op, j);
        var mine := On(ops, j);
        assert mine[0] == op && mine[1..] == On(ops[1..], j);
        Isolation(Apply(d, op), Apply(e, op), ops[1..], j);
      } else {
        OthersUntouched(d, op, j);
        assert On(ops, j) == On(ops[1..], j);
        Isolation(Apply(d, op), e, ops[1..], j);
      }
    }
  }

  // ---------------------------------------------------------------- the console task's state

  function AtStart(i: int, position: nat): Con {
    Con(if i == 0 then position / 2 else i * SLICE + 3, i * SLICE, i * SLICE, (i + 1) * SLICE, [])
  }

  /** The console's number and a prompt at the start of its slice. */
  function WithPrompt(vram: seq<int>, i: nat): seq<int>
    requires i < CONSOLE_CNT && |vram| == VMEM
  {
    if i == 0 then vram
    else vram[i * SLICE := Cell(0x30 + i)][i * SLICE + 1 := Cell(0x23)][i * SLICE + 2 := Cell(0x20)]
  }

  function WithPrompts(vram: seq<int>, n: nat): (after: seq<int>)
    requires n <= CONSOLE_CNT && |vram| == VMEM
    ensures |after| == VMEM
  {
    if n == 0 then vram else WithPrompt(WithPrompts(vram, n - 1), n - 1)
  }

  class Screen {
    const console: array<Con>
    const vram: array<int>
    var current: nat
    var crtc: Crtc

    ghost function Abs(): Display
      reads this, console, vram
    {
      Display(console[..], vram[..], current, crtc)
    }

    ghost predicate Valid()
      reads this, console, vram
    {
      DisplayInv(Abs())
    }

    constructor (vmem: array<int>)
      ensures vram == vmem && fresh(console) && console.Length == CONSOLE_CNT && current == 0
    {
      vram := vmem;
      console := new Con[CONSOLE_CNT](_ => Con(0, 0, 0, 0, []));
      current, crtc := 0, Crtc(0, 0, 0, 0);
    }

    method SetCursor(pos: int)
      modifies this`crtc
      ensures crtc == old(crtc).(cursorHi := pos / 256 % 256, cursorLo := pos % 256)
    {
      crtc := crtc.(cursorHi := pos / 256 % 256);
      crtc := crtc.(cursorLo := pos % 256);
    }

    method SetStartAddress(addr: int)
      modifies this`crtc
      ensures crtc == old(crtc).(startHi := addr / 256 % 256, startLo := addr % 256)
    {
      crtc := crtc.(startHi := addr / 256 % 256);
      crtc := crtc.(startLo := addr % 256);
    }

    method ScrollConsole(i: nat, direction: int)
      requires i < console.Length
      modifies this`crtc, console
      ensures console[..] == old(console[..])[i := Scrolled(old(console[i]), direction)]
      ensures crtc == if i == current then Registers(console[i]) else old(crtc)
    {
      var con := console[i];
      if direction > 0 {
        if con.start > con.memStart {
          console[i] := con.(start := con.start - direction * WIDTH);
        }
      } else if direction < 0 {
        if con.start + SCREEN < con.memEnd {
          console[i] := con.(start := con.start - direction * WIDTH);
        }
      }
      if current == i {
        SetStartAddress(console[i].start);
        SetCursor(console[i].cursor);
      }
    }

    /** The window is moved down row by row until it holds the cursor. */
    method Follow(i: nat)
      requires i < console.Length && ConInv(console[i])
      modifies this`crtc, console
      ensures console[..] == old(console[..])[i := Following(old(console[i]))]
      ensures i != current ==> crtc == old(crtc)
    {
      ghost var con := console[i];
      ghost var rows := 0;
      while console[i].cursor >= console[i].start + SCREEN
        invariant rows >= 0
        invariant console[..] == old(console[..])[i := con.(start := con.start + WIDTH * rows)]
        invariant rows > 0 ==> con.start + WIDTH * (rows - 1) + SCREEN <= con.cursor
        invariant i != current ==> crtc == old(crtc)
        decreases console[i].cursor - console[i].start
      {
        ScrollConsole(i, -1);
        rows := rows + 1;
      }
    }

    method PrintCharacter(i: nat, c: Byte)
      requires i < console.Length && ConInv(console[i])
      requires 0 <= console[i].memStart && console[i].memEnd <= vram.Length
      modifies this`crtc, console, vram
      ensures console[..] == old(console[..])[i := Printed(old(console[i]), c)]
      ensures vram[..] == Painted(old(vram[..]), old(console[i]), c)
      ensures crtc == if i == current then Registers(console[i]) else old(crtc)
    {
      var con := console[i];
      if c == NEWLINE {
        if con.cursor < con.memEnd - WIDTH {
          console[i] := con.(cursor := con.memStart + WIDTH * ((con.cursor - con.memStart) / WIDTH + 1));
        }
      } else if c == BS {
        if con.cursor > con.memStart {
          console[i] := con.(cursor := con.cursor - 1);
          vram[con.cursor - 1] := Cell(0x20);
        }
      } else {
        if con.cursor < con.memEnd - 1 {
          vram[con.cursor] := Cell(c);
          console[i] := con.(cursor := con.cursor + 1);
        }
      }
      MovedKeeps(con, c);
      Follow(i);
      if current == i {
        SetCursor(console[i].cursor);
        SetStartAddress(console[i].start);
      }
    }

    /** The same with all three consoles set up. */
    method PrintTo(i: nat, c: Byte)
      requires Valid() && i < CONSOLE_CNT
      modifies this`crtc, console, vram
      ensures Valid() && Abs() == PrintOn(old(Abs()), i, c)
    {
      ghost var d := Abs();
      assert Owns(d.cons[i], i);
      PrintCharacter(i, c);
      PrintOnKeeps(d, i, c);
      assert Abs() == PrintOn(d, i, c);
    }

    /** One round of `init_consoles`: console 0 goes on where the boot messages ended, the others
        start with their number and a prompt. */
    method InitConsole(i: nat, position: nat)
      requires i < CONSOLE_CNT && console.Length == CONSOLE_CNT && vram.Length == VMEM && current == 0
      modifies this`crtc, console, vram
      ensures console[..] == old(console[..])[i := AtStart(i, position)]
      ensures vram[..] == WithPrompt(old(vram[..]), i)
    {
      var offset := VMEM / CONSOLE_CNT;
      console[i] := Con(i * offset, i * offset, i * offset, i * offset + offset, []);
      if i == 0 {
        console[i] := console[i].(cursor := position / 2);
      } else {
        ghost var con := console[i];
        PrintCharacter(i, 0x30 + i);
        assert console[i] == con.(cursor := con.cursor + 1);
        PrintCharacter(i, 0x23);
        assert console[i] == con.(cursor := con.cursor + 2);
        PrintCharacter(i, 0x20);
      }
    }

    /** `init_consoles` and `change_current_console(0)`. */
    method InitConsoles(position: nat)
      requires console.Length == CONSOLE_CNT && vram.Length == VMEM && current == 0
      modifies this`crtc, console, vram
      ensures Valid() <==> position / 2 < SLICE
      ensures forall i :: 0 <= i < CONSOLE_CNT ==> console[i] == AtStart(i, position)
      ensures vram[..] == WithPrompts(old(vram[..]), CONSOLE_CNT)
    {
      var i := 0;
      while i < CONSOLE_CNT
        invariant 0 <= i <= CONSOLE_CNT
        invariant forall k :: 0 <= k < i ==> console[k] == AtStart(k, position)
        invariant vram[..] == WithPrompts(old(vram[..]), i)
      {
        InitConsole(i, position);
        i := i + 1;
      }
      SetCursor(console[0].cursor);
      SetStartAddress(console[0].start);
      assert forall i :: 0 <= i < CONSOLE_CNT ==> console[i] == AtStart(i, position);
      assert forall i :: 1 <= i < CONSOLE_CNT ==> Owns(console[i], i);
      assert Owns(console[0], 0) <==> position / 2 < SLICE;
    }

    method ChangeCurrentConsole(i: nat)
      requires Valid()
      modifies this
      ensures Valid() && Abs() == ShowCon(old(Abs()), i)
    {
      if i >= CONSOLE_CNT {
        return;
      }
      current := i;
      SetCursor(console[i].cursor);
      SetStartAddress(console[i].start);
    }

    method StoreKeyInto(i: nat, c: Byte)
      requires Valid() && i < CONSOLE_CNT
      modifies console
      ensures Valid() && Abs() == StoreOn(old(Abs()), i, c)
    {
      ghost var d := Abs();
      if |console[i].keys| < BUF_LENGTH {
        console[i] := console[i].(keys := console[i].keys + [c]);
      }
      assert console[..] == d.cons[i := StoreKey(d.cons[i], c)];
      StoreOnKeeps(d, i, c);
    }

    method ScrollKey(i: nat, direction: int)
      requires Valid() && i < CONSOLE_CNT && (direction == 1 || direction == -1)
      modifies this`crtc, console
      ensures Valid() && Abs() == ScrollOn(old(Abs()), i, direction)
    {
      ghost var d := Abs();
      ScrollConsole(i, direction);
      ScrollOnKeeps(d, i, direction);
      assert Abs() == ScrollOn(d, i, direction);
    }

    /** `store_key_into_console`. */
    method StoreKeyIntoConsole(i: nat, key: nat)
      requires Valid() && i < CONSOLE_CNT
      modifies this, console
      ensures Valid() && Abs() == KeyOn(old(Abs()), i, key)
    {
      ExtBit(key);
      if key / FLAG_EXT % 2 == 0 {
        StoreKeyInto(i, key % 256);
      } else {
        FunctionKey(i, key);
      }
    }

    method FunctionKey(i: nat, key: nat)
      requires Valid() && i < CONSOLE_CNT && key % 0x200 >= 0x100
      modifies this, console
      ensures Valid() && Abs() == FunctionKeyOn(old(Abs()), i, key, key % 0x200)
    {
      var raw := key % 0x200;
      if raw == ENTER {
        StoreKeyInto(i, NEWLINE);
      } else if raw == BACKSPACE {
        StoreKeyInto(i, BS);
      } else if raw == UP {
        if ShiftKey(key) {
          ScrollKey(i, 1);
        }
      } else if raw == DOWN {
        if ShiftKey(key) {
          ScrollKey(i, -1);
        }
      } else if F1 <= raw <= F3 {
        if CtrlKey(key) {
          ChangeCurrentConsole(raw - F1);
        }
      }
    }

    /** `console_write_key`. */
    method ConsoleWriteKey(i: nat)
      requires Valid() && i < CONSOLE_CNT
      modifies this`crtc, console, vram
      ensures Valid() && Abs() == EchoOn(old(Abs()), i)
    {
      ghost var d := Abs();
      var con := console[i];
      if |con.keys| > 0 {
        var c := con.keys[0];
        console[i] := con.(keys := con.keys[1..]);
        assert Owns(d.cons[i], i);
        StoringKeeps(d, i, con.keys[1..]);
        assert Abs() == d.(cons := d.cons[i := con.(keys := con.keys[1..])]);
        PrintTo(i, c);
      }
    }

    /** `console_write`: one character after the other. */
    method ConsoleWrite(i: nat, buf: seq<Byte>)
      requires Valid() && i < CONSOLE_CNT
      modifies this`crtc, console, vram
      ensures Valid() && Abs() == WriteOn(old(Abs()), i, buf)
    {
      ghost var d := Abs();
      var k := 0;
      while k < |buf|
        invariant k <= |buf| && Valid()
        invariant WriteOn(Abs(), i, buf[k..]) == WriteOn(d, i, buf)
      {
        assert buf[k..][1..] == buf[k + 1..];
        PrintTo(i, buf[k]);
        k := k + 1;
      }
    }
  }

  function WriteOn(d: Display, i: nat, text: seq<Byte>): Display
    requires DisplayInv(d) && i < CONSOLE_CNT
    decreases |text|
  {
    if text == [] then d
    else
      PrintOnKeeps(d, i, text[0]);
      WriteOn(PrintOn(d, i, text[0]), i, text[1..])
  }

  /** Writing a text on a console is printing it there: its state, and the memory, are those of
      PrintedAll and PaintedAll, and the controller shows it when the console is the current one. */
  lemma {:induction false} WriteOnIsPrinting(d: Display, i: nat, text: seq<Byte>)
    requires DisplayInv(d) && i < CONSOLE_CNT
    ensures DisplayInv(WriteOn(d, i, text)) && Owns(d.cons[i], i)
    ensures WriteOn(d, i, text).cons == d.cons[i := PrintedAll(d.cons[i], text)]
    ensures WriteOn(d, i, text).vram == PaintedAll(d.vram, d.cons[i], text)
    decreases |text|
  {
    assert Owns(d.cons[i], i);
    if text != [] {
      PrintOnKeeps(d, i, text[0]);
      PrintedKeeps(d.cons[i], text[0]);
      MovedKeeps(d.cons[i], text[0]);
      WindowDoesNotPaint(Painted(d.vram, d.cons[i], text[0]), Moved(d.cons[i], text[0]),
                         Printed(d.cons[i], text[0]).start, text[1..]);
      WriteOnIsPrinting(PrintOn(d, i, text[0]), i, text[1..]);
    }
  }
}
