/** The characters waiting at a console are the contents of its 128-character ring: what RingBuffer
    proves of the ring holds of what a console echoes. */
module ConsoleKeys {
  import opened Numbers
  import opened Sequences
  import opened Keyboard
  import opened Console
  import RingBuffer

  /** The character a key value stores, if it stores one. */
  function Characters(key: nat): seq<Byte> {
    if key % 0x200 < 0x100 then [key % 256]
    else if key % 0x200 == ENTER then [NEWLINE]
    else if key % 0x200 == BACKSPACE then [BS]
    else []
  }

  /** What an operation does to the ring of console j. */
  function RingOp(op: Op, j: nat): seq<RingBuffer.Op> {
    match op
    case Key(i, key) => if i == j && Characters(key) != [] then [RingBuffer.Put(Characters(key)[0])] else []
    case Echo(i) => if i == j then [RingBuffer.Get] else []
    case _ => []
  }

  function RingOps(ops: seq<Op>, j: nat): seq<RingBuffer.Op> {
    if ops == [] then [] else RingOp(ops[0], j) + RingOps(ops[1..], j)
  }

  function OnRing(f: RingBuffer.Fifo, ops: seq<RingBuffer.Op>): RingBuffer.Fifo {
    RingBuffer.ApplyAll(f, BUF_LENGTH, ops)
  }

  lemma {:induction false} RingCons(f: RingBuffer.Fifo, op: RingBuffer.Op, ops: seq<RingBuffer.Op>)
    ensures OnRing(f, [op] + ops) == OnRing(RingBuffer.Apply(f, BUF_LENGTH, op), ops)
    decreases |ops|
  {
    var all := [op] + ops;
    if ops == [] {
      assert all[..0] == [];
      assert OnRing(f, all[..0]) == f;
    } else {
      var front := ops[..|ops| - 1];
      assert all[..|all| - 1] == [op] + front;
      RingCons(f, op, front);
    }
  }

  /** The characters an operation echoes on console j. */
  function Echoed(d: Display, op: Op, j: nat): seq<Byte>
    requires DisplayInv(d) && j < CONSOLE_CNT
  {
    if op == Echo(j) && d.cons[j].keys != [] then [d.cons[j].keys[0]] else []
  }

  function EchoedAll(d: Display, ops: seq<Op>, j: nat): seq<Byte>
    requires DisplayInv(d) && AllProper(ops) && j < CONSOLE_CNT
    decreases |ops|
  {
    if ops == [] then []
    else
      ApplyKeeps(d, ops[0]);
      Echoed(d, ops[0], j) + EchoedAll(Apply(d, ops[0]), ops[1..], j)
  }

  /** One operation, on the console and on the ring. */
  lemma OneOp(d: Display, op: Op, j: nat, f: RingBuffer.Fifo)
    requires DisplayInv(d) && Proper(op) && j < CONSOLE_CNT && f.items == d.cons[j].keys
    ensures DisplayInv(Apply(d, op))
    ensures var g := OnRing(f, RingOp(op, j));
      g.items == Apply(d, op).cons[j].keys && g.taken == f.taken + Echoed(d, op, j)
  {
    ApplyKeeps(d, op);
    OneRingOp(f, op, j);
    KeysAfter(d, op, j);
    assert f.taken + [] == f.taken;
  }

  /** The waiting characters after one operation. */
  function Waiting(keys: seq<Byte>, op: Op, j: nat): seq<Byte> {
    if op.Key? && op.con == j && Characters(op.key) != [] && |keys| < BUF_LENGTH then keys + Characters(op.key)
    else if op == Echo(j) && keys != [] then keys[1..]
    else keys
  }

  lemma KeysAfter(d: Display, op: Op, j: nat)
    requires DisplayInv(d) && Proper(op) && j < CONSOLE_CNT
    ensures Apply(d, op).cons[j].keys == Waiting(d.cons[j].keys, op, j)
  {
    match op
    case Key(i, key) => KeyStores(d, i, key, j);
    case Echo(i) => EchoTakes(d, i, j);
    case _ =>
  }

  lemma KeyStores(d: Display, i: nat, key: nat, j: nat)
    requires DisplayInv(d) && i < CONSOLE_CNT && j < CONSOLE_CNT
    ensures KeyOn(d, i, key).cons[j].keys == Waiting(d.cons[j].keys, Key(i, key), j)
  {
  }

  /** At most one ring operation each. */
  lemma OneRingOp(f: RingBuffer.Fifo, op: Op, j: nat)
    ensures OnRing(f, RingOp(op, j)) ==
      if RingOp(op, j) == [] then f else RingBuffer.Apply(f, BUF_LENGTH, RingOp(op, j)[0])
  {
    var ops := RingOp(op, j);
    if ops != [] {
      assert ops[..0] == [];
      assert OnRing(f, ops[..0]) == f;
    }
  }

  lemma EchoTakes(d: Display, i: nat, j: nat)
    requires DisplayInv(d) && i < CONSOLE_CNT && j < CONSOLE_CNT
    ensures EchoOn(d, i).cons[j].keys == Waiting(d.cons[j].keys, Echo(i), j)
  {
  }

  /** Over any operations on all consoles, a console's waiting characters are what its ring holds,
      and what it echoes is what is taken out of the ring. */
  lemma {:induction false} KeysAreTheRing(d: Display, ops: seq<Op>, j: nat, f: RingBuffer.Fifo)
    requires DisplayInv(d) && AllProper(ops) && j < CONSOLE_CNT && f.items == d.cons[j].keys
    ensures var g := OnRing(f, RingOps(ops, j));
      g.items == ApplyAll(d, ops).cons[j].keys && g.taken == f.taken + EchoedAll(d, ops, j)
    decreases |ops|
  {
    if ops == [] {
      assert f.taken + [] == f.taken;
    } else {
      var op, rest := ops[0], ops[1..];
      OneOp(d, op, j, f);
      var g := OnRing(f, RingOp(op, j));
      KeysAreTheRing(Apply(d, op), rest, j, g);
      OnTheWay(Apply(d, op), rest, RingOp(op, j), Echoed(d, op, j), j, f, g);
    }
  }

  lemma OnTheWay(d: Display, rest: seq<Op>, first: seq<RingBuffer.Op>, echoed: seq<Byte>, j: nat,
                 f: RingBuffer.Fifo, g: RingBuffer.Fifo)
    requires DisplayInv(d) && AllProper(rest) && j < CONSOLE_CNT && |first| <= 1
    requires g == OnRing(f, first) && g.taken == f.taken + echoed
    requires OnRing(g, RingOps(rest, j)).taken == g.taken + EchoedAll(d, rest, j)
    ensures OnRing(f, first + RingOps(rest, j)) == OnRing(g, RingOps(rest, j))
    ensures OnRing(f, first + RingOps(rest, j)).taken == f.taken + (echoed + EchoedAll(d, rest, j))
  {
    Split(f, first, RingOps(rest, j));
    Regroup<int>(f.taken, echoed, EchoedAll(d, rest, j));
  }

  lemma Split(f: RingBuffer.Fifo, first: seq<RingBuffer.Op>, rest: seq<RingBuffer.Op>)
    requires |first| <= 1
    ensures OnRing(f, first + rest) == OnRing(OnRing(f, first), rest)
  {
    if first == [] {
      assert first + rest == rest;
    } else {
      assert first[..0] == [];
      assert OnRing(f, first[..0]) == f;
      assert first == [first[0]];
      RingCons(f, first[0], rest);
    }
  }

  /** So from empty rings on, a console echoes the characters stored for it, in order, as far as it
      has come; the rest, at most 128, waits. */
  lemma EchoInOrder(d: Display, ops: seq<Op>, j: nat)
    requires DisplayInv(d) && AllProper(ops) && j < CONSOLE_CNT && d.cons[j].keys == []
    ensures var f := OnRing(RingBuffer.Fifo([], [], []), RingOps(ops, j));
      && f.accepted == EchoedAll(d, ops, j) + ApplyAll(d, ops).cons[j].keys
      && |ApplyAll(d, ops).cons[j].keys| <= BUF_LENGTH
  {
    var empty := RingBuffer.Fifo([], [], []);
    KeysAreTheRing(d, ops, j, empty);
    RingBuffer.AnyInterleaving(BUF_LENGTH, RingOps(ops, j));
    assert [] + EchoedAll(d, ops, j) == EchoedAll(d, ops, j);
  }
}
