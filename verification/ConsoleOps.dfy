/** What each key and each echo does to a display, said of the cells, the windows and the console
    that is shown. */
module ConsoleOps {
  import opened Numbers
  import opened Keyboard
  import opened Console

  /** A cell is the character with its colour above it: white, and for an upper character the sign
      bits it brings along. */
  lemma CellShows(c: Byte)
    ensures Cell(c) % 256 == c && Cell(c) / 256 == if c < 128 then 0x0f else 0xff
  {
  }

  /** Nothing but console i is different. */
  predicate OnlyCon(d: Display, d': Display, i: nat)
    requires i < CONSOLE_CNT
  {
    && |d'.cons| == |d.cons| == CONSOLE_CNT && d'.vram == d.vram && d'.current == d.current
    && (forall j :: 0 <= j < CONSOLE_CNT && j != i ==> d'.cons[j] == d.cons[j])
  }

  predicate Held(key: nat, left: nat, right: nat)
    requires left > 0 && right > 0
  {
    key / left % 2 == 1 || key / right % 2 == 1
  }

  predicate ShiftHeld(key: nat) { Held(key, 0x200, 0x400) }

  predicate CtrlHeld(key: nat) { Held(key, 0x800, 0x1000) }

  /** The up arrow with shift shows the row above, if there is one in the slice; the down arrow the
      row below, if the slice goes on below the window. Without shift they do nothing. */
  lemma ArrowKeys(d: Display, i: nat, key: nat)
    requires DisplayInv(d) && i < CONSOLE_CNT && (key % 0x200 == 0x125 || key % 0x200 == 0x126)
    ensures OnlyCon(d, KeyOn(d, i, key), i)
    ensures var con := d.cons[i];
      KeyOn(d, i, key).cons[i] == con.(start :=
        if !ShiftHeld(key) then con.start
        else if key % 0x200 == 0x125 then if con.start == i * 5461 then con.start else con.start - 80
        else if con.start + 2000 < (i + 1) * 5461 then con.start + 80 else con.start)
  {
    assert Owns(d.cons[i], i);
  }

  /** F1 to F3 with ctrl show consoles 0 to 2; without it they do nothing. */
  lemma SwitchKeys(d: Display, i: nat, key: nat, n: nat)
    requires DisplayInv(d) && i < CONSOLE_CNT && n < 3 && key % 0x200 == 0x111 + n
    ensures var d' := KeyOn(d, i, key);
      && d'.cons == d.cons && d'.vram == d.vram && d'.current == (if CtrlHeld(key) then n else d.current)
  {
  }

  /** The character a key stores: its low byte, and for enter and backspace the control characters. */
  function CharacterOf(key: nat): int {
    if key % 0x200 < 0x100 then key % 0x100
    else if key % 0x200 == 0x103 then 10
    else if key % 0x200 == 0x104 then 8
    else -1
  }

  /** A key with a character puts it behind those waiting, if there is room; and no key but these,
      the arrows and F1 to F3 does anything. */
  lemma CharacterKeys(d: Display, i: nat, key: nat)
    requires DisplayInv(d) && i < CONSOLE_CNT
    ensures CharacterOf(key) >= 0 ==>
      && OnlyCon(d, KeyOn(d, i, key), i)
      && KeyOn(d, i, key).cons[i] ==
        d.cons[i].(keys := if |d.cons[i].keys| == 128 then d.cons[i].keys else d.cons[i].keys + [CharacterOf(key)])
    ensures CharacterOf(key) < 0 && !(0x111 <= key % 0x200 <= 0x113) && !(0x125 <= key % 0x200 <= 0x126) ==>
      KeyOn(d, i, key) == d
  {
    assert Owns(d.cons[i], i);
    assert key == 0x200 * (key / 0x200) + key % 0x200;
  }

  /** An echo takes the oldest waiting character, and a plain one appears in the cell under the
      cursor, which goes on by one; in the last cell of the slice it is lost. */
  lemma EchoShows(d: Display, i: nat)
    requires DisplayInv(d) && i < CONSOLE_CNT && d.cons[i].keys != []
    requires d.cons[i].keys[0] != NEWLINE && d.cons[i].keys[0] != BS
    ensures var con, d' := d.cons[i], EchoOn(d, i);
      && d'.cons[i].keys == con.keys[1..] && d'.current == d.current
      && (con.cursor < (i + 1) * 5461 - 1 ==>
        d'.cons[i].cursor == con.cursor + 1
        && 0 <= con.cursor < VMEM && d'.vram == d.vram[con.cursor := Cell(con.keys[0])])
      && (con.cursor == (i + 1) * 5461 - 1 ==> d'.cons[i].cursor == con.cursor && d'.vram == d.vram)
  {
    assert Owns(d.cons[i], i);
  }

  /** An echoed newline or backspace is a printed one. */
  lemma EchoPrints(d: Display, i: nat)
    requires DisplayInv(d) && i < CONSOLE_CNT && d.cons[i].keys != []
    ensures var con := d.cons[i];
      EchoOn(d, i).cons[i] == Printed(con, con.keys[0]).(keys := con.keys[1..])
      && 0 <= con.memStart && con.memEnd <= VMEM && ConInv(con) && EchoOn(d, i).vram == Painted(d.vram, con, con.keys[0])
  {
    assert Owns(d.cons[i], i);
  }

  /** Consoles 1 and 2 begin with their number, a hash sign and a blank; nothing else is written. */
  lemma Prompts(vram: seq<int>)
    requires |vram| == VMEM
    ensures var v := WithPrompts(vram, 3);
      && |v| == VMEM
      && v[5461] == Cell('1' as int) && v[5462] == Cell('#' as int) && v[5463] == Cell(' ' as int)
      && v[10922] == Cell('2' as int) && v[10923] == Cell('#' as int) && v[10924] == Cell(' ' as int)
      && forall k :: 0 <= k < VMEM && !(5461 <= k < 5464) && !(10922 <= k < 10925) ==> v[k] == vram[k]
  {
    assert WithPrompts(vram, 1) == vram;
  }

  /** The three slices lie one behind the other, each with its window at the start; console 0 goes
      on at the cell of the boot messages' position, the others behind their prompt. */
  lemma Slices(position: nat, i: nat)
    requires i < 3
    ensures var con := AtStart(i, position);
      && con.memStart == con.start == i * (VMEM / 3) && con.memEnd == (i + 1) * (VMEM / 3) && con.keys == []
      && con.cursor == if i == 0 then position / 2 else con.memStart + 3
  {
  }
}
