/** From the keyboard to the screen: what pressing one key does to the console it is typed on. */
module Typing {
  import opened Wrappers
  import opened Numbers
  import opened Keyboard
  import opened KeyboardKeys
  import opened Console
  import opened ConsoleOps

  /** One key event, read on console i. */
  function Typed(rows: KeyMap, st: State, item: Item, d: Display, i: nat): Display
    requires DisplayInv(d) && i < CONSOLE_CNT
  {
    var r := After(rows, st, item);
    if r.Read? && r.stored.Some? && r.stored.value >= 0 then KeyOn(d, i, r.stored.value) else d
  }

  /** The flags of a stored key tell the console what is held. */
  lemma HeldByFlags(key: nat, raw: int, s: Shifts, pad: bool)
    requires Carries(key, raw, s, pad)
    ensures ShiftHeld(key) <==> s.lShift || s.rShift
    ensures CtrlHeld(key) <==> s.lCtrl || s.rCtrl
    ensures key % 0x200 == raw
  {
    assert Bit(key, 0x200) <==> key / 0x200 % 2 == 1;
    assert Bit(key, 0x400) <==> key / 0x400 % 2 == 1;
    assert Bit(key, 0x800) <==> key / 0x800 % 2 == 1;
    assert Bit(key, 0x1000) <==> key / 0x1000 % 2 == 1;
  }

  /** The key of the console's own table that a key event stands for, pad keys read with num lock. */
  ghost predicate Stands(rows: KeyMap, st: State, item: Item, key: int) {
    || (Means(rows, st.shifts, item, key) && 0 <= key < 0x200 && !IsPadKey(key))
    || (exists raw: int :: Means(rows, st.shifts, item, raw) && IsPadKey(raw) && key == PadMeaning(raw, st.locks.num))
  }

  predicate IsModifier(key: int) { 0x108 <= key <= 0x10d }

  /** The console gets that key, and is told what is held. */
  lemma TypedKey(rows: KeyMap, st: State, item: Item, meant: int, d: Display, i: nat) returns (key: nat)
    requires DisplayInv(d) && i < CONSOLE_CNT && Stands(rows, st, item, meant) && !IsModifier(meant)
    ensures Typed(rows, st, item, d, i) == KeyOn(d, i, key)
    ensures key % 0x200 == meant
    ensures ShiftHeld(key) <==> st.shifts.lShift || st.shifts.rShift
    ensures CtrlHeld(key) <==> st.shifts.lCtrl || st.shifts.rCtrl
  {
    var raw: int :| Means(rows, st.shifts, item, raw) &&
               if IsPadKey(raw) then meant == PadMeaning(raw, st.locks.num) else 0 <= raw < 0x200 && meant == raw;
    if IsPadKey(raw) { PadKeyStored(rows, st, item, raw); } else { KeyStored(rows, st, item, raw); }
    ShiftsStay(rows, st, item, raw);
    var r := After(rows, st, item);
    key := r.stored.value;
    HeldByFlags(key, meant, r.st.shifts, IsPadKey(raw));
  }

  lemma ShiftsStay(rows: KeyMap, st: State, item: Item, raw: int)
    requires Means(rows, st.shifts, item, raw) && !IsModifier(raw)
    ensures After(rows, st, item).Read? && After(rows, st, item).st.shifts == st.shifts
  {
  }

  /** d' is d with one character in the cell under the cursor of console i, and the cursor behind it. */
  predicate Appears(d: Display, d': Display, i: nat, c: Byte) {
    && i < |d.cons| == |d'.cons| && 0 <= d.cons[i].cursor < |d.vram|
    && d'.vram == d.vram[d.cons[i].cursor := Cell(c)]
    && d'.cons[i].cursor == d.cons[i].cursor + 1 && d'.cons[i].keys == d.cons[i].keys
  }

  lemma WithCharacter(d: Display, e: Display, i: nat, c: Byte)
    requires DisplayInv(d) && DisplayInv(e) && i < CONSOLE_CNT && c != NEWLINE && c != BS && d.cons[i].keys == []
    requires e.vram == d.vram && e.cons[i] == d.cons[i].(keys := [c]) && d.cons[i].cursor < (i + 1) * 5461 - 1
    ensures Appears(d, EchoOn(e, i), i, c)
  {
    assert Owns(d.cons[i], i);
    EchoShows(e, i);
    assert |EchoOn(e, i).cons| == |e.cons|;
  }

  lemma LowByte(key: nat)
    ensures key % 0x200 < 0x100 ==> key % 0x100 == key % 0x200
  {
    assert key == 0x200 * (key / 0x200) + key % 0x200;
  }

  lemma OneWaits(d: Display, i: nat, key: nat, c: Byte)
    requires DisplayInv(d) && i < CONSOLE_CNT && d.cons[i].keys == [] && key % 0x200 == c
    ensures DisplayInv(KeyOn(d, i, key))
    ensures KeyOn(d, i, key).vram == d.vram && KeyOn(d, i, key).cons[i] == d.cons[i].(keys := [c])
  {
    LowByte(key);
    CharacterKeys(d, i, key);
    KeyOnKeeps(d, i, key);
    assert d.cons[i].keys + [c] == [c];
  }

  /** A character key typed on a console with nothing waiting appears, once it is echoed, in the cell
      under the cursor. */
  lemma TypedAppears(rows: KeyMap, st: State, item: Item, c: Byte, d: Display, i: nat)
    requires DisplayInv(d) && i < CONSOLE_CNT && d.cons[i].keys == []
    requires Stands(rows, st, item, c) && 32 <= c < 0x100
    requires d.cons[i].cursor < (i + 1) * 5461 - 1
    ensures var d' := Typed(rows, st, item, d, i); DisplayInv(d') && Appears(d, EchoOn(d', i), i, c)
  {
    var key := TypedKey(rows, st, item, c, d, i);
    OneWaits(d, i, key, c);
    WithCharacter(d, KeyOn(d, i, key), i, c);
  }

  /** Up or down, on the cursor block or on the pad without num lock, with a shift held moves the
      window by a row, as far as the slice goes; without, it does nothing. */
  lemma TypedArrow(rows: KeyMap, st: State, item: Item, up: bool, d: Display, i: nat)
    requires DisplayInv(d) && i < CONSOLE_CNT && Stands(rows, st, item, if up then UP else DOWN)
    ensures var con, d', shift := d.cons[i], Typed(rows, st, item, d, i), st.shifts.lShift || st.shifts.rShift;
      && OnlyCon(d, d', i)
      && d'.cons[i] == con.(start :=
        if !shift then con.start
        else if up then if con.start == i * 5461 then con.start else con.start - 80
        else if con.start + 2000 < (i + 1) * 5461 then con.start + 80 else con.start)
  {
    var key := TypedKey(rows, st, item, if up then UP else DOWN, d, i);
    ArrowKeys(d, i, key);
  }

  /** Ctrl with F1, F2 or F3 shows that console. */
  lemma TypedSwitch(rows: KeyMap, st: State, item: Item, n: nat, d: Display, i: nat)
    requires DisplayInv(d) && i < CONSOLE_CNT && n < 3 && Stands(rows, st, item, 0x111 + n)
    ensures var d', ctrl := Typed(rows, st, item, d, i), st.shifts.lCtrl || st.shifts.rCtrl;
      && d'.cons == d.cons && d'.vram == d.vram && d'.current == (if ctrl then n else d.current)
  {
    var key := TypedKey(rows, st, item, 0x111 + n, d, i);
    SwitchKeys(d, i, key, n);
  }
}
