/** The rendezvous state of the kernel as values: who is ready, who is blocked on whom, the
    queue of blocked senders of every process and the pending interrupt bits, with the effect of
    one send, one receive and one hardware interrupt on that state.

    Processes are numbered 0..N-1 for an arbitrary N (`proc_table` indices in the source). */
module Rendezvous {

  /** The `mess3` view of the message union: the widest one, and the one every task uses. */
  datatype Body = Body(i1: int, i2: int, i3: int, i4: int, l1: int, l2: int, p1: int, p2: int)

  const EMPTY_BODY := Body(0, 0, 0, 0, 0, 0, 0, 0)

  datatype Msg = Msg(source: int, kind: int, body: Body)

  const MSG_SOURCE_INTERRUPT := -10
  const MSG_HW_INTERRUPT := 1
  const MSG_GET_TICKS := 2

  /** Whom a receiver asked for: one task, P_ANY, or MSG_SOURCE_INTERRUPT. */
  datatype Source = Task(id: nat) | AnySource | Interrupt

  datatype Status =
    | Ready
    | Sending(dest: nat, msg: Msg)
    | Receiving(source: Source)

  datatype Net = Net(status: seq<Status>, pending: seq<bool>, queue: seq<seq<nat>>)
  {
    ghost predicate Shaped() {
      |pending| == |status| && |queue| == |status|
    }

    predicate SendsTo(p: nat, d: nat) {
      p < |status| && status[p].Sending? && status[p].dest == d
    }

    /** r is blocked in a receive that a message of s satisfies. */
    predicate WaitsFor(r: nat, s: nat) {
      r < |status| && status[r].Receiving? && (status[r].source == AnySource || status[r].source == Task(s))
    }

    /** t is blocked in a receive that a hardware interrupt satisfies. */
    predicate WaitsForInterrupt(t: nat) {
      t < |status| && status[t].Receiving? && (status[t].source == AnySource || status[t].source == Interrupt)
    }
  }

  /** q without its first x. */
  function Without(q: seq<nat>, x: nat): (r: seq<nat>)
    ensures x !in q ==> r == q
  {
    if q == [] then []
    else if q[0] == x then q[1..]
    else [q[0]] + Without(q[1..], x)
  }

  ghost predicate NoDuplicates(q: seq<nat>) {
    forall i, j :: 0 <= i < j < |q| ==> q[i] != q[j]
  }

  /** Unlinking the element at position k of a duplicate-free queue. */
  lemma {:induction false} WithoutAt(q: seq<nat>, k: nat)
    requires NoDuplicates(q) && k < |q|
    ensures Without(q, q[k]) == q[..k] + q[k + 1..]
  {
    if k > 0 {
      WithoutAt(q[1..], k - 1);
      assert q[1..][k - 1] == q[k];
      assert q[1..][..k - 1] == q[1..k];
      assert q[1..][k..] == q[k + 1..];
    }
  }

  lemma WithoutDuplicateFree(q: seq<nat>, x: nat)
    requires NoDuplicates(q)
    ensures NoDuplicates(Without(q, x))
    ensures forall y :: y in Without(q, x) <==> y in q && y != x
  {
    if x in q {
      var k :| 0 <= k < |q| && q[k] == x;
      WithoutAt(q, k);
      var r := q[..k] + q[k + 1..];
      forall y | y in q && y != x ensures y in r {
        var i :| 0 <= i < |q| && q[i] == y;
        assert y == if i < k then r[i] else r[i - 1];
      }
    }
  }

  /** What `msg_send` does once the deadlock check has passed: hand the message over when the
      receiver waits for it, else block the sender at the tail of the receiver's queue. */
  function SendNet(net: Net, p: nat, d: nat, m: Msg): Net
    requires net.Shaped() && p < |net.status| && d < |net.status|
  {
    if net.WaitsFor(d, p) then
      net.(status := net.status[d := Ready])
    else
      net.(status := net.status[p := Sending(d, m)],
           queue := net.queue[d := net.queue[d] + [p]])
  }

  /** What a receive finds. */
  datatype Found = Hardware | Sender(id: nat, msg: Msg) | Nothing

  ghost predicate QueuesInRange(net: Net) {
    && net.Shaped()
    && (forall d, p :: 0 <= d < |net.queue| && p in net.queue[d] ==> net.SendsTo(p, d))
  }

  function FindNet(net: Net, r: nat, src: Source): Found
    requires QueuesInRange(net) && r < |net.status|
  {
    if net.pending[r] && (src == AnySource || src == Interrupt) then Hardware
    else if src == AnySource then
      if net.queue[r] == [] then Nothing
      else
        assert net.queue[r][0] in net.queue[r];
        Sender(net.queue[r][0], net.status[net.queue[r][0]].msg)
    else if src.Task? && net.SendsTo(src.id, r) then Sender(src.id, net.status[src.id].msg)
    else Nothing
  }

  /** What `msg_recv` does to the state. */
  function RecvNet(net: Net, r: nat, src: Source): Net
    requires QueuesInRange(net) && r < |net.status|
  {
    match FindNet(net, r, src)
    case Hardware => net.(pending := net.pending[r := false])
    case Sender(s, _) =>
      assert net.SendsTo(s, r) by {
        if src == AnySource { assert net.queue[r][0] in net.queue[r]; }
      }
      net.(status := net.status[s := Ready], queue := net.queue[r := Without(net.queue[r], s)])
    case Nothing => net.(status := net.status[r := Receiving(src)])
  }

  /** What `deliver_int_to_proc` does to the state. */
  function RaiseNet(net: Net, t: nat): Net
    requires net.Shaped() && t < |net.status|
  {
    if net.WaitsForInterrupt(t) then
      net.(status := net.status[t := Ready], pending := net.pending[t := false])
    else
      net.(pending := net.pending[t := true])
  }
}
