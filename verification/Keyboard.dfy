/** The keyboard decoder: scan codes framed into key events, the key map, modifier and lock
    state, and the key value handed to the console. */
module Keyboard {
  import opened Wrappers
  import opened Numbers

  // key values with FLAG_EXT, and the flags added to a stored key
  const ENTER := 0x103
  const SHIFT_L := 0x108
  const SHIFT_R := 0x109
  const CTRL_L := 0x10a
  const CTRL_R := 0x10b
  const ALT_L := 0x10c
  const ALT_R := 0x10d
  const CAPS_LOCK := 0x10e
  const NUM_LOCK := 0x10f
  const SCROLL_LOCK := 0x110
  const INSERT := 0x11f
  const DELETE := 0x120
  const HOME := 0x121
  const END := 0x122
  const PAGEUP := 0x123
  const PAGEDOWN := 0x124
  const UP := 0x125
  const DOWN := 0x126
  const LEFT := 0x127
  const RIGHT := 0x128
  const PAD_SLASH := 0x12c
  const PAD_STAR := 0x12d
  const PAD_MINUS := 0x12e
  const PAD_PLUS := 0x12f
  const PAD_ENTER := 0x130
  const PAD_DOT := 0x131
  const PAD_0 := 0x132
  const PAD_9 := 0x13b
  const FLAG_EXT := 0x100
  const FLAG_SHIFT_L := 0x200
  const FLAG_SHIFT_R := 0x400
  const FLAG_CTRL_L := 0x800
  const FLAG_CTRL_R := 0x1000
  const FLAG_ALT_L := 0x2000
  const FLAG_ALT_R := 0x4000
  const FLAG_PAD := 0x8000

  /** The three columns (plain, with shift, after 0xE0) of a scan code's row. */
  type KeyMap = int -> (int, int, int)

  /** `key_map`. */
  function Row(code: int): (int, int, int) {
    match code
    case 0x01 => (0x101, 0x101, 0x0)
    case 0x02 => (0x31, 0x21, 0x0)
    case 0x03 => (0x32, 0x40, 0x0)
    case 0x04 => (0x33, 0x23, 0x0)
    case 0x05 => (0x34, 0x24, 0x0)
    case 0x06 => (0x35, 0x25, 0x0)
    case 0x07 => (0x36, 0x5e, 0x0)
    case 0x08 => (0x37, 0x26, 0x0)
    case 0x09 => (0x38, 0x2a, 0x0)
    case 0x0a => (0x39, 0x28, 0x0)
    case 0x0b => (0x30, 0x29, 0x0)
    case 0x0c => (0x2d, 0x5f, 0x0)
    case 0x0d => (0x3d, 0x2b, 0x0)
    case 0x0e => (0x104, 0x104, 0x0)
    case 0x0f => (0x102, 0x102, 0x0)
    case 0x10 => (0x71, 0x51, 0x0)
    case 0x11 => (0x77, 0x57, 0x0)
    case 0x12 => (0x65, 0x45, 0x0)
    case 0x13 => (0x72, 0x52, 0x0)
    case 0x14 => (0x74, 0x54, 0x0)
    case 0x15 => (0x79, 0x59, 0x0)
    case 0x16 => (0x75, 0x55, 0x0)
    case 0x17 => (0x69, 0x49, 0x0)
    case 0x18 => (0x6f, 0x4f, 0x0)
    case 0x19 => (0x70, 0x50, 0x0)
    case 0x1a => (0x5b, 0x7b, 0x0)
    case 0x1b => (0x5d, 0x7d, 0x0)
    case 0x1c => (0x103, 0x103, 0x130)
    case 0x1d => (0x10a, 0x10a, 0x10b)
    case 0x1e => (0x61, 0x41, 0x0)
    case 0x1f => (0x73, 0x53, 0x0)
    case 0x20 => (0x64, 0x44, 0x0)
    case 0x21 => (0x66, 0x46, 0x0)
    case 0x22 => (0x67, 0x47, 0x0)
    case 0x23 => (0x68, 0x48, 0x0)
    case 0x24 => (0x6a, 0x4a, 0x0)
    case 0x25 => (0x6b, 0x4b, 0x0)
    case 0x26 => (0x6c, 0x4c, 0x0)
    case 0x27 => (0x3b, 0x3a, 0x0)
    case 0x28 => (0x27, 0x22, 0x0)
    case 0x29 => (0x60, 0x7e, 0x0)
    case 0x2a => (0x108, 0x108, 0x0)
    case 0x2b => (0x5c, 0x7c, 0x0)
    case 0x2c => (0x7a, 0x5a, 0x0)
    case 0x2d => (0x78, 0x58, 0x0)
    case 0x2e => (0x63, 0x43, 0x0)
    case 0x2f => (0x76, 0x56, 0x0)
    case 0x30 => (0x62, 0x42, 0x0)
    case 0x31 => (0x6e, 0x4e, 0x0)
    case 0x32 => (0x6d, 0x4d, 0x0)
    case 0x33 => (0x2c, 0x3c, 0x0)
    case 0x34 => (0x2e, 0x3e, 0x0)
    case 0x35 => (0x2f, 0x3f, 0x12c)
    case 0x36 => (0x109, 0x109, 0x0)
    case 0x37 => (0x2a, 0x2a, 0x0)
    case 0x38 => (0x10c, 0x10c, 0x10d)
    case 0x39 => (0x20, 0x20, 0x0)
    case 0x3a => (0x10e, 0x10e, 0x0)
    case 0x3b => (0x111, 0x111, 0x0)
    case 0x3c => (0x112, 0x112, 0x0)
    case 0x3d => (0x113, 0x113, 0x0)
    case 0x3e => (0x114, 0x114, 0x0)
    case 0x3f => (0x115, 0x115, 0x0)
    case 0x40 => (0x116, 0x116, 0x0)
    case 0x41 => (0x117, 0x117, 0x0)
    case 0x42 => (0x118, 0x118, 0x0)
    case 0x43 => (0x119, 0x119, 0x0)
    case 0x44 => (0x11a, 0x11a, 0x0)
    case 0x45 => (0x10f, 0x10f, 0x0)
    case 0x46 => (0x110, 0x110, 0x0)
    case 0x47 => (0x139, 0x37, 0x121)
    case 0x48 => (0x13a, 0x38, 0x125)
    case 0x49 => (0x13b, 0x39, 0x123)
    case 0x4a => (0x12e, 0x2d, 0x0)
    case 0x4b => (0x136, 0x34, 0x127)
    case 0x4c => (0x137, 0x35, 0x0)
    case 0x4d => (0x138, 0x36, 0x128)
    case 0x4e => (0x12f, 0x2b, 0x0)
    case 0x4f => (0x133, 0x31, 0x122)
    case 0x50 => (0x134, 0x32, 0x126)
    case 0x51 => (0x135, 0x33, 0x124)
    case 0x52 => (0x132, 0x30, 0x11f)
    case 0x53 => (0x131, 0x2e, 0x120)
    case 0x57 => (0x11b, 0x11b, 0x0)
    case 0x58 => (0x11c, 0x11c, 0x0)
    case 0x5b => (0x0, 0x0, 0x105)
    case 0x5c => (0x0, 0x0, 0x106)
    case 0x5d => (0x0, 0x0, 0x107)
    case _ => (0, 0, 0)
  }

  datatype Shifts = Shifts(lShift: bool, rShift: bool, lCtrl: bool, rCtrl: bool, lAlt: bool, rAlt: bool)

  datatype Locks = Locks(num: bool, caps: bool, scroll: bool)

  datatype State = State(shifts: Shifts, locks: Locks)

  /** `init_keyboard` and the static flags. */
  const INITIAL := State(Shifts(false, false, false, false, false, false), Locks(true, false, false))

  // ---------------------------------------------------------------- framing

  /** What one call of `read_keyboard` takes from the buffer: a PrintScreen or Pause sequence that
      means no ordinary key, or a scan code to look up, plain or after 0xE0. */
  datatype Frame = Waiting | Special(used: nat) | Ordinary(scan: Byte, e0: bool, used: nat)

  const PAUSE: seq<Byte> := [0xe1, 0x1d, 0x45, 0xe1, 0x9d, 0xc5]

  /** The comparison of the Pause bytes from position x on; a wrong byte has been taken too. */
  function FramePause(bytes: seq<Byte>, x: nat): Frame
    requires 1 <= x <= 6
    decreases 6 - x
  {
    if x == 6 then Special(6)
    else if |bytes| <= x then Waiting
    else if bytes[x] != PAUSE[x] then Ordinary(0xe1, false, x + 1)
    else FramePause(bytes, x + 1)
  }

  /** After 0xE0 and 0x2A (PrintScreen pressed) or 0xB7 (released): the source goes on to the
      third and fourth bytes only as long as they fit. */
  function FramePrint(bytes: seq<Byte>, last: Byte): Frame
    requires |bytes| >= 2
  {
    if |bytes| <= 2 then Waiting
    else if bytes[2] != 0xe0 then Ordinary(bytes[1], true, 3)
    else if |bytes| <= 3 then Waiting
    else if bytes[3] != last then Ordinary(bytes[1], true, 4)
    else Special(4)
  }

  function FrameOf(bytes: seq<Byte>): Frame {
    if bytes == [] then Waiting
    else if bytes[0] == 0xe1 then FramePause(bytes, 1)
    else if bytes[0] == 0xe0 then
      if |bytes| == 1 then Waiting
      else if bytes[1] == 0x2a then FramePrint(bytes, 0x37)
      else if bytes[1] == 0xb7 then FramePrint(bytes, 0xaa)
      else Ordinary(bytes[1], true, 2)
    else Ordinary(bytes[0], false, 1)
  }

  // ---------------------------------------------------------------- one key

  function Column(st: State, row: (int, int, int), e0: bool): int {
    var shifted := st.shifts.lShift || st.shifts.rShift;
    var caps := if st.locks.caps && 0x61 <= row.0 <= 0x7a then !shifted else shifted;
    if e0 then row.2 else if caps then row.1 else row.0
  }

  function KeyOf(rows: KeyMap, st: State, scan: Byte, e0: bool): int {
    Column(st, rows(scan % 128), e0)
  }

  function Switch(st: State, key: int, make: bool): State {
    State(SwitchShift(st.shifts, key, make), if make then Toggle(st.locks, key) else st.locks)
  }

  function SwitchShift(s: Shifts, key: int, make: bool): Shifts {
    if key == SHIFT_L then s.(lShift := make)
    else if key == SHIFT_R then s.(rShift := make)
    else if key == CTRL_L then s.(lCtrl := make)
    else if key == CTRL_R then s.(rCtrl := make)
    else if key == ALT_L then s.(lAlt := make)
    else if key == ALT_R then s.(rAlt := make)
    else s
  }

  function Toggle(l: Locks, key: int): Locks {
    if key == NUM_LOCK then l.(num := !l.num)
    else if key == CAPS_LOCK then l.(caps := !l.caps)
    else if key == SCROLL_LOCK then l.(scroll := !l.scroll)
    else l
  }

  predicate IsPad(key: int) { PAD_SLASH <= key <= PAD_9 }

  /** The key on the right-hand pad, read as a digit or as a cursor key. */
  function PadKey(key: int, numLock: bool): int {
    if key == PAD_SLASH then 0x2f
    else if key == PAD_STAR then 0x2a
    else if key == PAD_MINUS then 0x2d
    else if key == PAD_PLUS then 0x2b
    else if key == PAD_ENTER then ENTER
    else if numLock then
      if PAD_0 <= key <= PAD_9 then key - PAD_0 + 0x30
      else if key == PAD_DOT then 0x2e
      else key
    else
      match key - PAD_0
      case 0 => INSERT
      case 1 => END
      case 2 => DOWN
      case 3 => PAGEDOWN
      case 4 => LEFT
      case 6 => RIGHT
      case 7 => HOME
      case 8 => UP
      case 9 => PAGEUP
      case _ => if key == PAD_DOT then DELETE else key
  }

  /** The flags are bits above every key value, so or-ing them in is adding them. */
  function FlagsOf(st: State, pad: bool): int {
    (if st.shifts.lShift then FLAG_SHIFT_L else 0) + (if st.shifts.rShift then FLAG_SHIFT_R else 0)
    + (if st.shifts.lCtrl then FLAG_CTRL_L else 0) + (if st.shifts.rCtrl then FLAG_CTRL_R else 0)
    + (if st.shifts.lAlt then FLAG_ALT_L else 0) + (if st.shifts.rAlt then FLAG_ALT_R else 0)
    + (if pad then FLAG_PAD else 0)
  }

  datatype Reading = Blocks | Read(st: State, used: nat, stored: Option<int>)

  /** One ordinary key: the new state, and for a make code the key given to the console. */
  function Press(st: State, key: int, make: bool, used: nat): Reading {
    var st' := Switch(st, key, make);
    Read(st', used, if make then Some(Stored(st', key)) else None)
  }

  function Stored(st: State, key: int): int {
    (if IsPad(key) then PadKey(key, st.locks.num) else key) + FlagsOf(st, IsPad(key))
  }

  function ReadOne(rows: KeyMap, st: State, bytes: seq<Byte>): Reading {
    match FrameOf(bytes)
    case Waiting => Blocks
    case Special(used) => Read(st, used, None)
    case Ordinary(scan, e0, used) => Press(st, KeyOf(rows, st, scan, e0), scan < 128, used)
  }

  // ---------------------------------------------------------------- what a keyboard sends

  /** The sequences a keyboard sends: one per key event. */
  datatype Item =
    | Plain(code: Byte)
    | Extended(code: Byte)
    | PrintPressed
    | PrintReleased
    | PauseKey

  predicate Sent(item: Item) {
    match item
    case Plain(c) => c != 0xe0 && c != 0xe1
    case Extended(c) => c != 0x2a && c != 0xb7
    case _ => true
  }

  function BytesOf(item: Item): (bytes: seq<Byte>) {
    match item
    case Plain(c) => [c]
    case Extended(c) => [0xe0, c]
    case PrintPressed => [0xe0, 0x2a, 0xe0, 0x37]
    case PrintReleased => [0xe0, 0xb7, 0xe0, 0xaa]
    case PauseKey => PAUSE
  }

  /** The state after an item, and what it stores. */
  function After(rows: KeyMap, st: State, item: Item): Reading {
    match item
    case Plain(c) => Press(st, KeyOf(rows, st, c, false), c < 128, 1)
    case Extended(c) => Press(st, KeyOf(rows, st, c, true), c < 128, 2)
    case _ => Read(st, |BytesOf(item)|, None)
  }

  /** Each call takes exactly one item, whatever follows it. */
  lemma OneItemPerCall(rows: KeyMap, st: State, item: Item, rest: seq<Byte>)
    requires Sent(item)
    ensures ReadOne(rows, st, BytesOf(item) + rest) == After(rows, st, item)
    ensures After(rows, st, item).Read? && After(rows, st, item).used == |BytesOf(item)|
  {
    var bytes := BytesOf(item) + rest;
    match item
    case PauseKey =>
      assert forall x :: 0 <= x < 6 ==> bytes[x] == PAUSE[x];
      assert FramePause(bytes, 6) == FramePause(bytes, 5) == FramePause(bytes, 4);
      assert FramePause(bytes, 4) == FramePause(bytes, 3) == FramePause(bytes, 2) == FramePause(bytes, 1);
    case _ =>
  }

  /** A call never takes part of an item: on a proper prefix of one it waits. */
  lemma PrefixWaits(rows: KeyMap, st: State, item: Item, n: nat)
    requires Sent(item) && n < |BytesOf(item)|
    ensures ReadOne(rows, st, BytesOf(item)[..n]).Blocks?
  {
    var bytes := BytesOf(item)[..n];
    match item
    case PauseKey =>
      assert forall x :: 0 <= x < n ==> bytes[x] == PAUSE[x];
      if n > 0 { PausePrefix(bytes, n, 1); }
    case _ =>
  }

  lemma {:induction false} PausePrefix(bytes: seq<Byte>, n: nat, x: nat)
    requires n < 6 && |bytes| == n && 1 <= x <= n
    requires forall i :: 0 <= i < n ==> bytes[i] == PAUSE[i]
    ensures FramePause(bytes, x).Waiting?
    decreases n - x
  {
    if x < n { PausePrefix(bytes, n, x + 1); }
  }

  // ---------------------------------------------------------------- many keys

  function Stream(items: seq<Item>): seq<Byte> {
    if items == [] then [] else BytesOf(items[0]) + Stream(items[1..])
  }

  /** n calls in a row: the state after them, the bytes left, and the keys stored. */
  datatype Session = Session(st: State, bytes: seq<Byte>, keys: seq<int>)

  function Calls(rows: KeyMap, s: Session, n: nat): Session
    decreases n
  {
    if n == 0 then s
    else
      match ReadOne(rows, s.st, s.bytes)
      case Blocks => s
      case Read(st, used, stored) =>
        if used <= |s.bytes| then
          Calls(rows, Session(st, s.bytes[used..], s.keys + (if stored.Some? then [stored.value] else [])), n - 1)
        else s
  }

  /** The same items decoded one by one, without any framing. */
  function Items(rows: KeyMap, st: State, items: seq<Item>, keys: seq<int>): (State, seq<int>)
    decreases |items|
  {
    if items == [] then (st, keys)
    else
      var r := After(rows, st, items[0]);
      if r.Read? then Items(rows, r.st, items[1..], keys + (if r.stored.Some? then [r.stored.value] else []))
      else (st, keys)
  }

  /** Framing: on any concatenation of items, n calls decode exactly n items. */
  lemma {:induction false} Framing(rows: KeyMap, st: State, items: seq<Item>, keys: seq<int>)
    requires forall i :: 0 <= i < |items| ==> Sent(items[i])
    ensures var (st', keys') := Items(rows, st, items, keys);
      Calls(rows, Session(st, Stream(items), keys), |items|) == Session(st', [], keys')
    decreases |items|
  {
    if items != [] {
      var rest := Stream(items[1..]);
      OneItemPerCall(rows, st, items[0], rest);
      var r := After(rows, st, items[0]);
      assert (BytesOf(items[0]) + rest)[r.used..] == rest;
      Framing(rows, r.st, items[1..], keys + (if r.stored.Some? then [r.stored.value] else []));
    }
  }

  // ---------------------------------------------------------------- modifiers and locks

  datatype Modifier = LShift | RShift | LCtrl | RCtrl | LAlt | RAlt

  predicate Held(s: Shifts, m: Modifier) {
    match m
    case LShift => s.lShift
    case RShift => s.rShift
    case LCtrl => s.lCtrl
    case RCtrl => s.rCtrl
    case LAlt => s.lAlt
    case RAlt => s.rAlt
  }

  /** The scan code of a modifier, and whether it is sent after 0xE0. */
  function CodeOf(m: Modifier): (int, bool) {
    match m
    case LShift => (0x2a, false)
    case RShift => (0x36, false)
    case LCtrl => (0x1d, false)
    case RCtrl => (0x1d, true)
    case LAlt => (0x38, false)
    case RAlt => (0x38, true)
  }

  /** The item is the press or the release of the modifier. */
  predicate Concerns(item: Item, m: Modifier) {
    (item.Plain? && (item.code % 128, false) == CodeOf(m)) || (item.Extended? && (item.code % 128, true) == CodeOf(m))
  }

  /** Whether the last item that concerns m was its press; `held` when there is none. */
  function LastPress(items: seq<Item>, m: Modifier, held: bool): bool {
    if items == [] then held
    else LastPress(items[1..], m, if Concerns(items[0], m) then items[0].code < 128 else held)
  }

  function KeyFor(m: Modifier): int {
    match m
    case LShift => SHIFT_L
    case RShift => SHIFT_R
    case LCtrl => CTRL_L
    case RCtrl => CTRL_R
    case LAlt => ALT_L
    case RAlt => ALT_R
  }

  /** In the two columns a code without 0xE0 can come from, and in the third, `key` stands at the
      given place and at no other. */
  predicate OnlyAt(row: (int, int, int), key: int, here: bool, e0: bool) {
    && (row.0 == key <==> here && !e0)
    && (row.1 == key <==> here && !e0)
    && (row.2 == key <==> here && e0)
  }

  /** Modifiers and locks have one place each in the map, the same whether shift is held or not. */
  ghost predicate WellKeyed(rows: KeyMap) {
    forall code :: 0 <= code < 128 ==> ModifiersAt(rows(code), code) && LocksAt(rows(code), code)
  }

  ghost predicate ModifiersAt(row: (int, int, int), code: int) {
    forall m :: OnlyAt(row, KeyFor(m), code == CodeOf(m).0, CodeOf(m).1)
  }

  predicate LocksAt(row: (int, int, int), code: int) {
    && OnlyAt(row, CAPS_LOCK, code == 0x3a, false)
    && OnlyAt(row, NUM_LOCK, code == 0x45, false)
    && OnlyAt(row, SCROLL_LOCK, code == 0x46, false)
  }

  lemma LockRows(code: int)
    requires 0 <= code < 128
    ensures LocksAt(Row(code), code)
  {
  }

  lemma ModifierRows(code: int, m: Modifier)
    requires 0 <= code < 128
    ensures OnlyAt(Row(code), KeyFor(m), code == CodeOf(m).0, CodeOf(m).1)
  {
  }

  /** The shipped map is such a map. */
  lemma KeyMapIsWellKeyed()
    ensures WellKeyed(Row)
  {
    forall code | 0 <= code < 128 ensures ModifiersAt(Row(code), code) && LocksAt(Row(code), code) {
      LockRows(code);
      forall m ensures OnlyAt(Row(code), KeyFor(m), code == CodeOf(m).0, CodeOf(m).1) {
        ModifierRows(code, m);
      }
    }
  }

  lemma SwitchHeld(s: Shifts, key: int, make: bool, m: Modifier)
    ensures Held(SwitchShift(s, key, make), m) == if key == KeyFor(m) then make else Held(s, m)
  {
  }

  lemma ItemModifier(rows: KeyMap, st: State, item: Item, m: Modifier)
    requires WellKeyed(rows) && Sent(item)
    ensures var r := After(rows, st, item);
      r.Read? && Held(r.st.shifts, m) == if Concerns(item, m) then item.code < 128 else Held(st.shifts, m)
  {
    if item.Plain? || item.Extended? {
      var code := item.code % 128;
      assert ModifiersAt(rows(code), code) && OnlyAt(rows(code), KeyFor(m), code == CodeOf(m).0, CodeOf(m).1);
      SwitchHeld(st.shifts, KeyOf(rows, st, item.code, item.Extended?), item.code < 128, m);
    }
  }

  /** Whatever the shift and lock state in between, a modifier is held exactly when its last event
      was a press. */
  lemma {:induction false} ModifierIsLastPress(rows: KeyMap, st: State, items: seq<Item>, keys: seq<int>, m: Modifier)
    requires WellKeyed(rows)
    requires forall i :: 0 <= i < |items| ==> Sent(items[i])
    ensures Held(Items(rows, st, items, keys).0.shifts, m) == LastPress(items, m, Held(st.shifts, m))
    decreases |items|
  {
    if items != [] {
      ItemModifier(rows, st, items[0], m);
      var r := After(rows, st, items[0]);
      ModifierIsLastPress(rows, r.st, items[1..], keys + (if r.stored.Some? then [r.stored.value] else []), m);
    }
  }

  /** How often a lock key has been pressed. */
  function Presses(items: seq<Item>, code: Byte): nat {
    if items == [] then 0
    else (if items[0] == Plain(code) then 1 else 0) + Presses(items[1..], code)
  }

  predicate SameLocks(a: Locks, b: Locks, caps: bool, num: bool, scroll: bool) {
    && (a.caps == b.caps <==> caps)
    && (a.num == b.num <==> num)
    && (a.scroll == b.scroll <==> scroll)
  }

  lemma ItemLocks(rows: KeyMap, st: State, item: Item)
    requires WellKeyed(rows) && Sent(item)
    ensures var r := After(rows, st, item);
      r.Read? && SameLocks(r.st.locks, st.locks, item != Plain(0x3a), item != Plain(0x45), item != Plain(0x46))
  {
    if item.Plain? || item.Extended? {
      var code := item.code % 128;
      assert LocksAt(rows(code), code);
    }
  }

  /** A lock is switched by its presses alone: it ends where it began exactly after an even number
      of them. */
  lemma {:induction false} LocksArePressParity(rows: KeyMap, st: State, items: seq<Item>, keys: seq<int>)
    requires WellKeyed(rows)
    requires forall i :: 0 <= i < |items| ==> Sent(items[i])
    ensures SameLocks(Items(rows, st, items, keys).0.locks, st.locks,
                      Presses(items, 0x3a) % 2 == 0, Presses(items, 0x45) % 2 == 0, Presses(items, 0x46) % 2 == 0)
    decreases |items|
  {
    if items != [] {
      ItemLocks(rows, st, items[0]);
      var r := After(rows, st, items[0]);
      LocksArePressParity(rows, r.st, items[1..], keys + (if r.stored.Some? then [r.stored.value] else []));
    }
  }

  /** With the shipped map, from power-on: n items take n calls, which leave no byte behind, each
      modifier as its last event left it, num lock on after an even number of presses, and the other
      locks on after an odd one. */
  lemma WholeSession(items: seq<Item>, m: Modifier)
    requires forall i :: 0 <= i < |items| ==> Sent(items[i])
    ensures var s := Calls(Row, Session(INITIAL, Stream(items), []), |items|);
      && s.bytes == [] && Held(s.st.shifts, m) == LastPress(items, m, false)
      && (s.st.locks.num <==> Presses(items, 0x45) % 2 == 0)
      && (s.st.locks.caps <==> Presses(items, 0x3a) % 2 == 1)
      && (s.st.locks.scroll <==> Presses(items, 0x46) % 2 == 1)
  {
    KeyMapIsWellKeyed();
    Framing(Row, INITIAL, items, []);
    ModifierIsLastPress(Row, INITIAL, items, [], m);
    LocksArePressParity(Row, INITIAL, items, []);
  }

  /** The rows of letters: the capital stands in the shift column. */
  lemma LetterRows(code: int)
    requires 0 <= code < 128 && 0x61 <= Row(code).0 <= 0x7a
    ensures Row(code).1 == Row(code).0 - 0x20
  {
  }

  /** A letter is a capital exactly when one of shift and caps lock is on. */
  lemma LetterCase(rows: KeyMap, st: State, code: Byte)
    requires code < 128 && 0x61 <= rows(code).0 <= 0x7a && rows(code).1 == rows(code).0 - 0x20
    ensures After(rows, st, Plain(code)).stored ==
      Some(rows(code).0 - (if (st.shifts.lShift || st.shifts.rShift) != st.locks.caps then 0x20 else 0) + FlagsOf(st, false))
  {
  }

  /** The same with the shipped map, for every letter key. */
  lemma ShippedLetterCase(st: State, code: Byte)
    requires code < 128 && 0x61 <= Row(code).0 <= 0x7a
    ensures After(Row, st, Plain(code)).stored ==
      Some(Row(code).0 - (if (st.shifts.lShift || st.shifts.rShift) != st.locks.caps then 0x20 else 0) + FlagsOf(st, false))
  {
    LetterRows(code);
    LetterCase(Row, st, code);
  }

  // ---------------------------------------------------------------- the decoder

  class Decoder {
    var st: State
    // what the interrupt handler has put into the buffer and will put while a call waits
    var input: seq<Byte>

    constructor (bytes: seq<Byte>)
      ensures st == INITIAL && input == bytes
    {
      st, input := INITIAL, bytes;
    }

    /** `get_byte_from_kb_buf`. */
    method GetByte() returns (scan: Byte)
      requires input != []
      modifies this`input
      ensures [scan] + input == old(input)
    {
      scan := input[0];
      input := input[1..];
    }

    /** The rest of a Pause sequence, up to the first byte that does not fit. */
    method ReadPause() returns (fits: bool)
      requires !FramePause([0xe1] + input, 1).Waiting?
      modifies this`input
      ensures var frame := FramePause([0xe1] + old(input), 1);
        && frame == (if fits then Special(frame.used) else Ordinary(0xe1, false, frame.used))
        && 0 < frame.used <= |old(input)| + 1 && input == old(input)[frame.used - 1..]
    {
      var x := 1;
      fits := true;
      ghost var bytes: seq<Byte> := [0xe1] + input;
      while x < 6 && fits
        invariant 1 <= x <= 6 && x <= |bytes|
        invariant input == bytes[x..]
        invariant fits ==> FramePause(bytes, x) == FramePause(bytes, 1)
        invariant !fits ==> FramePause(bytes, 1) == Ordinary(0xe1, false, x)
        decreases 6 - x, fits
      {
        var b := GetByte();
        assert b == bytes[x];
        if b != PAUSE[x] {
          fits := false;
        }
        x := x + 1;
      }
    }

    /** The third and fourth bytes of a PrintScreen sequence, the fourth only after a third that
        fits. */
    method ReadPrint(second: Byte, last: Byte) returns (fits: bool)
      requires !FramePrint([0xe0, second] + input, last).Waiting?
      modifies this`input
      ensures var frame := FramePrint([0xe0, second] + old(input), last);
        && frame == (if fits then Special(frame.used) else Ordinary(second, true, frame.used))
        && 2 < frame.used <= |old(input)| + 2 && input == old(input)[frame.used - 2..]
    {
      fits := false;
      var b := GetByte();
      if b == 0xe0 {
        b := GetByte();
        fits := b == last;
      }
    }

    /** The decoding of an ordinary key. */
    method HandleKey(rows: KeyMap, scan: Byte, e0: bool) returns (stored: Option<int>)
      modifies this`st
      ensures Read(st, 0, stored) == Press(old(st), KeyOf(rows, old(st), scan, e0), scan < 128, 0)
    {
      var make := scan < 128;
      var row := rows(scan % 128);
      var caps := st.shifts.lShift || st.shifts.rShift;
      if st.locks.caps && 0x61 <= row.0 <= 0x7a {
        caps := !caps;
      }
      var key := if e0 then row.2 else if caps then row.1 else row.0;
      st := Switch(st, key, make);
      stored := None;
      if make {
        stored := Some(Stored(st, key));
      }
    }

    /** `read_keyboard`: one call does what ReadOne says of the bytes in front of it, and takes no
        more than they. */
    method ReadKeyboard(rows: KeyMap) returns (stored: Option<int>)
      requires input == [] || ReadOne(rows, st, input).Read?
      modifies this
      ensures old(input) == [] ==> input == [] && st == old(st) && stored == None
      ensures old(input) != [] ==>
        var r := ReadOne(rows, old(st), old(input));
        r.used <= |old(input)| && input == old(input)[r.used..] && r == Read(st, r.used, stored)
    {
      stored := None;
      if input != [] {
        ghost var bytes := input;
        var scan := GetByte();
        assert bytes == [scan] + input;
        var known, e0 := false, false;
        if scan == 0xe1 {
          known := ReadPause();
        } else if scan == 0xe0 {
          scan := GetByte();
          assert bytes == [0xe0, scan] + input;
          if scan == 0x2a {
            known := ReadPrint(scan, 0x37);
          }
          if scan == 0xb7 {
            known := ReadPrint(scan, 0xaa);
          }
          e0 := !known;
        }
        assert FrameOf(bytes) == if known then Special(FrameOf(bytes).used) else Ordinary(scan, e0, FrameOf(bytes).used);
        assert input == bytes[FrameOf(bytes).used..];
        if !known {
          stored := HandleKey(rows, scan, e0);
        }
      }
    }
  }
}
