/** What holds of the rendezvous state in every reachable state, and that a checked send, a
    receive and a hardware interrupt each keep it. */
module NetInvariant {
  import opened Rendezvous
  import opened WaitGraph

  /** The queue of d holds exactly the processes SENDING to d, each once. */
  ghost predicate QueuesExact(net: Net) {
    && net.Shaped()
    && (forall d, p :: 0 <= d < |net.queue| ==> (p in net.queue[d] <==> net.SendsTo(p, d)))
    && (forall d :: 0 <= d < |net.queue| ==> NoDuplicates(net.queue[d]))
    && (forall p :: 0 <= p < |net.status| && net.status[p].Sending? ==> net.status[p].dest < |net.status|)
  }

  /** Nobody is blocked sending to a process that is blocked waiting for that very message. */
  ghost predicate NoMissedRendezvous(net: Net) {
    forall s, r :: net.SendsTo(s, r) ==> !net.WaitsFor(r, s)
  }

  /** No pending interrupt at a process that is blocked waiting for one. */
  ghost predicate NoMissedInterrupt(net: Net) {
    forall t :: 0 <= t < |net.status| && 0 <= t < |net.pending| && net.pending[t] ==> !net.WaitsForInterrupt(t)
  }

  /** A blocked message names its sender. */
  ghost predicate HonestSources(net: Net) {
    forall p :: 0 <= p < |net.status| && net.status[p].Sending? ==> net.status[p].msg.source == p
  }

  ghost predicate Inv(net: Net) {
    && QueuesExact(net)
    && NoMissedRendezvous(net)
    && NoMissedInterrupt(net)
    && HonestSources(net)
    && Acyclic(net)
  }

  /** The state built by `init_process_main`: everybody ready, every queue empty. */
  function Initial(n: nat): Net {
    Net(seq(n, _ => Ready), seq(n, _ => false), seq(n, _ => []))
  }

  lemma InitialInv(n: nat)
    ensures Inv(Initial(n))
  {
    var net := Initial(n);
    forall w ensures Walk(net, w) && |w| > 1 ==> net.SendsTo(w[0], w[1]) {}
  }

  /** The deadlock check cannot fire on a receiver that is waiting. */
  lemma WaitingIsFree(net: Net, p: nat, d: nat)
    requires d < |net.status| && !net.status[d].Sending? && d != p
    ensures !Reaches(net, d, p)
  {
    assert Walk(net, [d]);
    Complete(net, [d], p);
  }

  lemma SendKeepsQueues(net: Net, p: nat, d: nat, m: Msg)
    requires Inv(net) && p < |net.status| && d < |net.status| && p != d && net.status[p].Ready?
    ensures QueuesExact(SendNet(net, p, d, m))
  {
    var net' := SendNet(net, p, d, m);
    forall e, q | 0 <= e < |net'.queue| ensures q in net'.queue[e] <==> net'.SendsTo(q, e) {
      assert q in net.queue[e] <==> net.SendsTo(q, e);
    }
    if !net.WaitsFor(d, p) {
      assert !net.SendsTo(p, d);
      assert p !in net.queue[d];
    }
  }

  /** The deadlock check is exact: a send keeps the wait-for graph acyclic if and only if the
      check does not fire. */
  lemma CheckIsExact(net: Net, p: nat, d: nat, m: Msg)
    requires Inv(net) && p < |net.status| && d < |net.status| && p != d && net.status[p].Ready?
    ensures Acyclic(SendNet(net, p, d, m)) <==> !Reaches(net, d, p)
  {
    var net' := SendNet(net, p, d, m);
    if net.WaitsFor(d, p) {
      WaitingIsFree(net, p, d);
      Fewer(net, net');
    } else if Reaches(net, d, p) {
      UncheckedEdge(net, net', p, d);
    } else {
      CheckedEdge(net, net', p, d);
    }
  }

  lemma SendKeeps(net: Net, p: nat, d: nat, m: Msg)
    requires Inv(net) && p < |net.status| && d < |net.status| && p != d && net.status[p].Ready?
    requires m.source == p
    requires !Reaches(net, d, p)
    ensures Inv(SendNet(net, p, d, m))
  {
    SendKeepsQueues(net, p, d, m);
    CheckIsExact(net, p, d, m);
    var net' := SendNet(net, p, d, m);
    forall s, r | net'.SendsTo(s, r) ensures !net'.WaitsFor(r, s) {
      if net.SendsTo(s, r) {
        assert !net.WaitsFor(r, s);
      }
    }
    forall t | 0 <= t < |net'.status| && net'.pending[t] ensures !net'.WaitsForInterrupt(t) {
      assert !net.WaitsForInterrupt(t);
    }
  }

  /** A receive that finds a sender finds one that is blocked on the receiver. */
  lemma FoundSender(net: Net, r: nat, src: Source)
    requires QueuesExact(net) && r < |net.status|
    ensures FindNet(net, r, src).Sender? ==>
      var f := FindNet(net, r, src);
      && net.SendsTo(f.id, r) && f.id in net.queue[r]
      && net.status[f.id] == Sending(r, f.msg)
      && (src == AnySource || src == Task(f.id))
  {
    if src == AnySource && net.queue[r] != [] {
      assert net.queue[r][0] in net.queue[r];
    }
  }

  /** What a receive that finds a sender leaves, and one that finds nothing. */
  lemma RecvLeaves(net: Net, r: nat, src: Source)
    requires QueuesExact(net) && r < |net.status|
    ensures match FindNet(net, r, src)
      case Hardware => RecvNet(net, r, src) == Net(net.status, net.pending[r := false], net.queue)
      case Sender(s, _) => s < |net.status| &&
        RecvNet(net, r, src) == Net(net.status[s := Ready], net.pending, net.queue[r := Without(net.queue[r], s)])
      case Nothing => RecvNet(net, r, src) == Net(net.status[r := Receiving(src)], net.pending, net.queue)
  {
    FoundSender(net, r, src);
  }

  lemma RecvKeepsQueues(net: Net, r: nat, src: Source)
    requires Inv(net) && r < |net.status| && net.status[r].Ready?
    ensures QueuesExact(RecvNet(net, r, src))
  {
    var net' := RecvNet(net, r, src);
    FoundSender(net, r, src);
    WithoutDuplicateFree(net.queue[r], if FindNet(net, r, src).Sender? then FindNet(net, r, src).id else 0);
    forall e, q | 0 <= e < |net'.queue| ensures q in net'.queue[e] <==> net'.SendsTo(q, e) {
      assert q in net.queue[e] <==> net.SendsTo(q, e);
    }
  }

  lemma RecvKeeps(net: Net, r: nat, src: Source)
    requires Inv(net) && r < |net.status| && net.status[r].Ready?
    ensures Inv(RecvNet(net, r, src))
  {
    RecvKeepsQueues(net, r, src);
    var net' := RecvNet(net, r, src);
    FoundSender(net, r, src);
    forall p, d | net'.SendsTo(p, d) ensures net.SendsTo(p, d) {}
    Fewer(net, net');
    forall s, x | net'.SendsTo(s, x) ensures !net'.WaitsFor(x, s) {
      assert !net.WaitsFor(x, s);
      assert x == r ==> s in net.queue[r];
    }
    forall t | 0 <= t < |net'.status| && net'.pending[t] ensures !net'.WaitsForInterrupt(t) {
      assert !net.WaitsForInterrupt(t);
    }
  }

  lemma RaiseKeeps(net: Net, t: nat)
    requires Inv(net) && t < |net.status|
    ensures Inv(RaiseNet(net, t))
  {
    var net' := RaiseNet(net, t);
    forall e, q | 0 <= e < |net'.queue| ensures q in net'.queue[e] <==> net'.SendsTo(q, e) {
      assert q in net.queue[e] <==> net.SendsTo(q, e);
    }
    forall p, d | net'.SendsTo(p, d) ensures net.SendsTo(p, d) {}
    Fewer(net, net');
    forall s, x | net'.SendsTo(s, x) ensures !net'.WaitsFor(x, s) {
      assert !net.WaitsFor(x, s);
    }
    forall x | 0 <= x < |net'.status| && net'.pending[x] ensures !net'.WaitsForInterrupt(x) {
      assert x != t ==> !net.WaitsForInterrupt(x);
    }
  }
}
