/** The ring buffer of the keyboard interrupt (`kb_in`, 32 bytes) and of each console (`in_buf`,
    128 characters): a producer that drops what does not fit and a consumer, sharing a count. */
module RingBuffer {

  // ---------------------------------------------------------------- the queue it stands for

  datatype Op = Put(x: int) | Get

  /** A bounded queue that drops the newest; taking from an empty one waits, that is, does nothing
      yet. */
  datatype Fifo = Fifo(items: seq<int>, accepted: seq<int>, taken: seq<int>)

  function Apply(f: Fifo, capacity: nat, op: Op): Fifo {
    match op
    case Put(x) => if |f.items| < capacity then Fifo(f.items + [x], f.accepted + [x], f.taken) else f
    case Get => if f.items == [] then f else Fifo(f.items[1..], f.accepted, f.taken + [f.items[0]])
  }

  function ApplyAll(f: Fifo, capacity: nat, ops: seq<Op>): Fifo {
    if ops == [] then f else Apply(ApplyAll(f, capacity, ops[..|ops| - 1]), capacity, ops[|ops| - 1])
  }

  ghost predicate InOrder(f: Fifo) {
    f.accepted == f.taken + f.items
  }

  lemma ApplyKeepsOrder(f: Fifo, capacity: nat, op: Op)
    requires InOrder(f)
    ensures InOrder(Apply(f, capacity, op))
  {
    assert f.items != [] ==> [f.items[0]] + f.items[1..] == f.items;
  }

  /** Under any interleaving of puts and gets, what has been taken is what was accepted, in order,
      as far as it goes; the rest is in the queue, never more than it holds. */
  lemma {:induction false} AnyInterleaving(capacity: nat, ops: seq<Op>)
    ensures var f := ApplyAll(Fifo([], [], []), capacity, ops);
      InOrder(f) && f.taken <= f.accepted && |f.items| <= capacity
  {
    if ops != [] {
      AnyInterleaving(capacity, ops[..|ops| - 1]);
      var f := ApplyAll(Fifo([], [], []), capacity, ops[..|ops| - 1]);
      ApplyKeepsOrder(f, capacity, ops[|ops| - 1]);
    }
  }

  // ---------------------------------------------------------------- the buffer

  function Wrap(i: nat, capacity: nat): nat {
    if i < capacity then i else i - capacity
  }

  /** What is in the ring: count entries from tail on, going round. */
  function ItemsOf(ring: seq<int>, tail: nat, count: nat): (items: seq<int>)
    requires tail < |ring| && count <= |ring|
    ensures |items| == count && forall i :: 0 <= i < count ==> items[i] == ring[Wrap(tail + i, |ring|)]
  {
    seq(count, i requires 0 <= i < count => ring[Wrap(tail + i, |ring|)])
  }

  lemma PutItem(ring: seq<int>, tail: nat, count: nat, x: int)
    requires tail < |ring| && count < |ring|
    ensures ItemsOf(ring[Wrap(tail + count, |ring|) := x], tail, count + 1) == ItemsOf(ring, tail, count) + [x]
  {
  }

  lemma GetItem(ring: seq<int>, tail: nat, count: nat)
    requires tail < |ring| && 0 < count <= |ring|
    ensures ItemsOf(ring, tail, count) == [ring[tail]] + ItemsOf(ring, Wrap(tail + 1, |ring|), count - 1)
  {
    var items, rest := ItemsOf(ring, tail, count), ItemsOf(ring, Wrap(tail + 1, |ring|), count - 1);
    forall i | 0 <= i < count - 1 ensures items[i + 1] == rest[i] {
      assert Wrap(tail + (i + 1), |ring|) == Wrap(Wrap(tail + 1, |ring|) + i, |ring|);
    }
  }

  class RingBuffer {
    const buf: array<int>
    var head: nat
    var tail: nat
    var count: nat
    ghost var accepted: seq<int>
    ghost var taken: seq<int>

    ghost predicate Valid()
      reads this, buf
    {
      && head < buf.Length && tail < buf.Length && count <= buf.Length
      && head == Wrap(tail + count, buf.Length)
      && InOrder(Abs())
    }

    ghost function Abs(): Fifo
      reads this, buf
      requires tail < buf.Length && count <= buf.Length
    {
      Fifo(ItemsOf(buf[..], tail, count), accepted, taken)
    }

    constructor (capacity: nat)
      requires 0 < capacity
      ensures Valid() && fresh(buf) && buf.Length == capacity && Abs() == Fifo([], [], [])
    {
      buf := new int[capacity];
      head, tail, count := 0, 0, 0;
      accepted, taken := [], [];
    }

    /** The producer: `keyboard_int_handler`, `store_key`. */
    method Put(x: int) returns (stored: bool)
      requires Valid()
      modifies this, buf
      ensures Valid() && Abs() == Apply(old(Abs()), buf.Length, Op.Put(x))
      ensures stored <==> old(count) < buf.Length
    {
      stored := count < buf.Length;
      if stored {
        ghost var f := Abs();
        PutItem(buf[..], tail, count, x);
        ApplyKeepsOrder(f, buf.Length, Op.Put(x));
        buf[head] := x;
        head := head + 1;
        if head == buf.Length {
          head := 0;
        }
        count := count + 1;
        accepted := accepted + [x];
        assert Abs() == Apply(f, buf.Length, Op.Put(x));
      }
    }

    /** The consumer, once there is something: `get_byte_from_kb_buf`, `console_write_key`. */
    method Get() returns (x: int)
      requires Valid() && 0 < count
      modifies this
      ensures Valid() && Abs() == Apply(old(Abs()), buf.Length, Op.Get)
      ensures x == old(Abs()).items[0]
    {
      ghost var f := Abs();
      GetItem(buf[..], tail, count);
      ApplyKeepsOrder(f, buf.Length, Op.Get);
      x := buf[tail];
      tail := tail + 1;
      if tail == buf.Length {
        tail := 0;
      }
      count := count - 1;
      taken := taken + [x];
      assert Abs() == Apply(f, buf.Length, Op.Get);
    }
  }
}
