/** What a key gives the console, said of the stored value itself: the character or key of the
    right column of the map, and the held modifiers bit by bit. */
module KeyboardKeys {
  import opened Wrappers
  import opened Numbers
  import opened Keyboard

  predicate Bit(k: nat, b: nat)
    requires b > 0
  {
    k / b % 2 == 1
  }

  /** k is the raw key with one bit for each held modifier and one for the pad. */
  predicate Carries(k: int, raw: int, s: Shifts, pad: bool) {
    && 0 <= k < 0x10000 && k % 0x200 == raw
    && (Bit(k, 0x200) <==> s.lShift) && (Bit(k, 0x400) <==> s.rShift)
    && (Bit(k, 0x800) <==> s.lCtrl) && (Bit(k, 0x1000) <==> s.rCtrl)
    && (Bit(k, 0x2000) <==> s.lAlt) && (Bit(k, 0x4000) <==> s.rAlt)
    && (Bit(k, 0x8000) <==> pad)
  }

  function One(b: bool): nat { if b then 1 else 0 }

  /** The seven bits of a number, lowest first. */
  function SevenBits(s: Shifts, pad: bool): nat {
    One(s.lShift) + 2 * (One(s.rShift) + 2 * (One(s.lCtrl) + 2 * (One(s.rCtrl) + 2 *
      (One(s.lAlt) + 2 * (One(s.rAlt) + 2 * One(pad))))))
  }

  lemma SevenBitsRead(s: Shifts, pad: bool)
    ensures var q := SevenBits(s, pad);
      && q < 128 && q % 2 == One(s.lShift) && q / 2 % 2 == One(s.rShift)
      && q / 4 % 2 == One(s.lCtrl) && q / 8 % 2 == One(s.rCtrl)
      && q / 16 % 2 == One(s.lAlt) && q / 32 % 2 == One(s.rAlt) && q / 64 == One(pad)
  {
  }

  lemma AboveTheKey(raw: nat, q: nat)
    requires raw < 0x200 && q < 128
    ensures var k := raw + 0x200 * q;
      && k % 0x200 == raw && k / 0x200 == q && k / 0x400 == q / 2 && k / 0x800 == q / 4
      && k / 0x1000 == q / 8 && k / 0x2000 == q / 16 && k / 0x4000 == q / 32 && k / 0x8000 == q / 64
  {
  }

  lemma FlagBits(st: State, raw: int, pad: bool)
    requires 0 <= raw < 0x200
    ensures Carries(raw + FlagsOf(st, pad), raw, st.shifts, pad)
  {
    SevenBitsRead(st.shifts, pad);
    AboveTheKey(raw, SevenBits(st.shifts, pad));
    assert FlagsOf(st, pad) == 0x200 * SevenBits(st.shifts, pad);
  }

  // ---------------------------------------------------------------- which column

  predicate IsLetter(key: int) { 0x61 <= key <= 0x7a }

  predicate IsPadKey(key: int) { PAD_SLASH <= key <= PAD_9 }

  /** The key an item means: of a plain code the first column, with shift the second; of an
      extended one the third. Letters are LetterCase's. */
  predicate Means(rows: KeyMap, s: Shifts, item: Item, raw: int) {
    match item
    case Plain(c) => c < 128 && !IsLetter(rows(c).0) && raw == if s.lShift || s.rShift then rows(c).1 else rows(c).0
    case Extended(c) => c < 128 && raw == rows(c).2
    case _ => false
  }

  /** A key that is not on the pad is stored as it is. */
  lemma KeyStored(rows: KeyMap, st: State, item: Item, raw: int)
    requires Means(rows, st.shifts, item, raw) && 0 <= raw < 0x200 && !IsPadKey(raw)
    ensures var r := After(rows, st, item);
      r.Read? && r.stored.Some? && Carries(r.stored.value, raw, r.st.shifts, false)
  {
    var r := After(rows, st, item);
    FlagBits(r.st, raw, false);
  }

  /** The cursor keys of the pad, from PAD_0 on; the middle one stays itself. */
  const CURSOR_KEYS: seq<int> :=
    [INSERT, END, DOWN, PAGEDOWN, LEFT, PAD_0 + 5, RIGHT, HOME, UP, PAGEUP]

  /** A key on the pad is stored as a sign, as enter, and as a digit or point with num lock and a
      cursor key without. */
  lemma PadKeyStored(rows: KeyMap, st: State, item: Item, raw: int)
    requires Means(rows, st.shifts, item, raw) && IsPadKey(raw)
    ensures var r := After(rows, st, item);
      && r.Read? && r.stored.Some?
      && Carries(r.stored.value, PadMeaning(raw, st.locks.num), r.st.shifts, true)
  {
    var r := After(rows, st, item);
    assert Column(st, rows(item.code), item.Extended?) == raw;
    assert r.stored == Some(Stored(r.st, raw)) && r.st.locks == st.locks;
    PadKeyMeans(raw, st.locks.num);
    FlagBits(r.st, PadMeaning(raw, st.locks.num), true);
  }

  lemma PadKeyMeans(raw: int, num: bool)
    requires IsPadKey(raw)
    ensures PadKey(raw, num) == PadMeaning(raw, num) && 0 <= PadMeaning(raw, num) < 0x200 && IsPad(raw)
  {
  }

  function PadMeaning(raw: int, num: bool): int
    requires IsPadKey(raw)
  {
    if raw < PAD_DOT then ['/' as int, '*' as int, '-' as int, '+' as int, ENTER][raw - PAD_SLASH]
    else if raw == PAD_DOT then if num then '.' as int else DELETE
    else if num then "0123456789"[raw - PAD_0] as int
    else CURSOR_KEYS[raw - PAD_0]
  }

  /** A release stores nothing. */
  lemma ReleaseStoresNothing(rows: KeyMap, st: State, item: Item)
    requires (item.Plain? || item.Extended?) && item.code >= 128
    ensures After(rows, st, item).stored == None
  {
  }

  /** A call that took `used` bytes and did what `other` did. */
  predicate Likewise(r: Reading, other: Reading, used: nat) {
    r.Read? && other.Read? && r.st == other.st && r.stored == other.stored && r.used == used
  }

  /** Sequences that only begin like PrintScreen are the extended key they begin with, and the bytes
      that did not fit are gone; one that only begins like Pause stores nothing. */
  lemma BrokenPrint(rows: KeyMap, st: State, second: Byte, rest: seq<Byte>)
    requires rest != [] && (second == 0x2a || second == 0xb7)
    ensures rest[0] != 0xe0 ==>
      Likewise(ReadOne(rows, st, [0xe0, second] + rest), After(rows, st, Extended(second)), 3)
    ensures |rest| > 1 && rest[0] == 0xe0 && rest[1] != (if second == 0x2a then 0x37 else 0xaa) ==>
      Likewise(ReadOne(rows, st, [0xe0, second] + rest), After(rows, st, Extended(second)), 4)
  {
    var bytes := [0xe0, second] + rest;
    assert bytes[0] == 0xe0 && bytes[1] == second && bytes[2] == rest[0];
    assert |rest| > 1 ==> bytes[3] == rest[1];
  }

  lemma BrokenPause(rows: KeyMap, st: State, bytes: seq<Byte>, x: nat)
    requires 1 <= x < 6 && x < |bytes| && (forall i :: 0 <= i < x ==> bytes[i] == PAUSE[i]) && bytes[x] != PAUSE[x]
    ensures var r := ReadOne(rows, st, bytes); r.Read? && r.used == x + 1 && r.stored == None
  {
    BrokenAt(bytes, x, 1);
  }

  lemma {:induction false} BrokenAt(bytes: seq<Byte>, x: nat, from: nat)
    requires 1 <= from <= x < 6 && x < |bytes| && (forall i :: 0 <= i < x ==> bytes[i] == PAUSE[i]) && bytes[x] != PAUSE[x]
    ensures FramePause(bytes, from) == Ordinary(0xe1, false, x + 1)
    decreases x - from
  {
    if from < x { BrokenAt(bytes, x, from + 1); }
  }

  // ---------------------------------------------------------------- the shipped map

  /** Every entry leaves the modifier bits free. */
  lemma RowRange(code: int)
    ensures 0 <= Row(code).0 < 0x200 && 0 <= Row(code).1 < 0x200 && 0 <= Row(code).2 < 0x200
  {
  }

  /** From this code on, the rows spell these characters, without and with shift. */
  predicate Spells(rows: KeyMap, code: int, plain: string, shifted: string) {
    |plain| == |shifted| && forall k :: 0 <= k < |plain| ==>
      rows(code + k).0 == plain[k] as int && rows(code + k).1 == shifted[k] as int
  }

  /** The rows of a US keyboard. */
  lemma DigitRow()
    ensures Spells(Row, 0x02, "1234567890-=", "!@#$%^&*()_+")
  {
  }

  lemma TopRow()
    ensures Spells(Row, 0x10, "qwertyuiop[]", "QWERTYUIOP{}")
  {
  }

  lemma HomeRow()
    ensures Spells(Row, 0x1e, "asdfghjkl;'`", "ASDFGHJKL:\"~")
  {
  }

  lemma BottomRow()
    ensures Spells(Row, 0x2b, "\\zxcvbnm,./", "|ZXCVBNM<>?")
    ensures Spells(Row, 0x37, "*", "*") && Spells(Row, 0x39, " ", " ")
  {
  }

  /** A key that is no letter types the character of its row, shifted or not, whatever the locks. */
  lemma Typed(rows: KeyMap, st: State, code: nat, plain: string, shifted: string, k: nat)
    requires Spells(rows, code, plain, shifted) && k < |plain| && code + k < 128
    requires !IsLetter(plain[k] as int) && plain[k] < 128 as char && shifted[k] < 128 as char
    ensures var r := After(rows, st, Plain(code + k));
      && r.Read? && r.stored.Some?
      && Carries(r.stored.value, TypedChar(st.shifts, plain[k], shifted[k]), r.st.shifts, false)
  {
    KeyStored(rows, st, Plain(code + k), TypedChar(st.shifts, plain[k], shifted[k]));
  }

  function TypedChar(s: Shifts, plain: char, shifted: char): int {
    (if s.lShift || s.rShift then shifted else plain) as int
  }

  /** A pad code: its own key without shift, what is on its cap with it and with num lock, and
      after 0xE0 the cursor key, if it has one. */
  predicate PadRow(code: int, cap: char, cursor: bool) {
    && Row(code).1 == cap as int && IsPadKey(Row(code).0)
    && PadMeaning(Row(code).0, true) == cap as int
    && Row(code).2 == if cursor then PadMeaning(Row(code).0, false) else 0
  }

  lemma UpperPadRows()
    ensures PadRow(0x47, '7', true) && PadRow(0x48, '8', true) && PadRow(0x49, '9', true)
  {
  }

  lemma MiddlePadRows()
    ensures PadRow(0x4b, '4', true) && PadRow(0x4c, '5', false) && PadRow(0x4d, '6', true)
  {
  }

  lemma LowerPadRows()
    ensures PadRow(0x4f, '1', true) && PadRow(0x50, '2', true) && PadRow(0x51, '3', true)
  {
  }

  lemma OuterPadRows()
    ensures PadRow(0x4a, '-', false) && PadRow(0x4e, '+', false)
    ensures PadRow(0x52, '0', true) && PadRow(0x53, '.', true)
  {
  }

  lemma FunctionRows()
    ensures forall code :: 0x3b <= code < 0x45 ==> Row(code) == (0x111 + code - 0x3b, 0x111 + code - 0x3b, 0)
    ensures Row(0x57) == (0x11b, 0x11b, 0) && Row(0x58) == (0x11c, 0x11c, 0)
  {
  }

  /** Enter, backspace, escape and tab, and the keys that only follow 0xE0. */
  lemma ControlRows()
    ensures Row(0x1c) == (ENTER, ENTER, PAD_ENTER) && Row(0x0e).0 == 0x104 && Row(0x01).0 == 0x101 && Row(0x0f).0 == 0x102
  {
  }

  lemma ExtendedRows()
    ensures Row(0x35).2 == PAD_SLASH && Row(0x5b).2 == 0x105 && Row(0x5c).2 == 0x106 && Row(0x5d).2 == 0x107
  {
  }

  /** So the digit keys type digits, and with shift the signs above them. */
  lemma DigitKeys(st: State, k: nat)
    requires k < 12
    ensures var r := After(Row, st, Plain(0x02 + k));
      && r.Read? && r.stored.Some?
      && Carries(r.stored.value, TypedChar(st.shifts, "1234567890-="[k], "!@#$%^&*()_+"[k]), r.st.shifts, false)
  {
    DigitRow();
    Typed(Row, st, 0x02, "1234567890-=", "!@#$%^&*()_+", k);
  }
}
