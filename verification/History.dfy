/** What a whole run has sent and delivered. Every property is an invariant of the log kept by
    one kernel entry, hence of every run. */
module History {
  import opened Sequences
  import opened Rendezvous
  import opened NetInvariant
  import opened Runs
  import opened KernelModel

  // ---------------------------------------------------------------- per pair of processes

  /** The messages s has sent to d, in order. */
  function SentBetween(log: seq<Event>, s: nat, d: nat): seq<Msg> {
    if log == [] then []
    else
      var before := SentBetween(log[..|log| - 1], s, d);
      match log[|log| - 1]
      case Sent(s', d', m) => if s' == s && d' == d then before + [m] else before
      case _ => before
  }

  /** The messages of s that d has got, in order. */
  function GotBetween(log: seq<Event>, s: nat, d: nat): seq<Msg> {
    if log == [] then []
    else
      var before := GotBetween(log[..|log| - 1], s, d);
      match log[|log| - 1]
      case Got(d', s', m) => if s' == s && d' == d then before + [m] else before
      case _ => before
  }

  /** The message s is blocked on, if it is blocked sending to d. */
  function InFlight(net: Net, s: nat, d: nat): seq<Msg> {
    if net.SendsTo(s, d) then [net.status[s].msg] else []
  }

  /** What s has sent to d is what d has got from s, in the same order and unchanged, plus the
      one message s is blocked on. */
  ghost predicate Conserved(s: Sys) {
    forall a, b :: 0 <= a < |s.net.status| && 0 <= b < |s.net.status| ==> Balanced(s.net, s.log, a, b)
  }

  ghost predicate Balanced(net: Net, log: seq<Event>, a: nat, b: nat) {
    SentBetween(log, a, b) == GotBetween(log, a, b) + InFlight(net, a, b)
  }

  lemma LogAppend(log: seq<Event>, e: Event, a: nat, b: nat)
    ensures SentBetween(log + [e], a, b) ==
      SentBetween(log, a, b) + (if e.Sent? && e.sender == a && e.dest == b then [e.msg] else [])
    ensures GotBetween(log + [e], a, b) ==
      GotBetween(log, a, b) + (if e.Got? && e.sender == a && e.receiver == b then [e.msg] else [])
  {
    assert (log + [e])[..|log + [e]| - 1] == log;
  }

  /** How one entry changes the rendezvous state and the log, scheduling left out. */
  ghost function NetAfter(s: Sys, req: Request): Net
    requires CoreInv(s) && req.InRange(|s.net.status|)
  {
    match req
    case SendTo(d, m) => SendNet(s.net, s.sched.running, d, m.(source := s.sched.running))
    case ReceiveFrom(src) => RecvNet(s.net, s.sched.running, src)
    case DeviceInterrupt(t) => RaiseNet(s.net, t)
    case ClockTick(_) => s.net
  }

  function SendEvents(net: Net, p: nat, d: nat, m: Msg): seq<Event> {
    if net.WaitsFor(d, p) then [Sent(p, d, m), Got(d, p, m)] else [Sent(p, d, m)]
  }

  function RaiseEvents(net: Net, t: nat): seq<Event> {
    if net.WaitsForInterrupt(t) then [Raised(t), GotInterrupt(t)] else [Raised(t)]
  }

  ghost function NewEvents(s: Sys, req: Request): seq<Event>
    requires CoreInv(s) && req.InRange(|s.net.status|)
  {
    var p := s.sched.running;
    match req
    case SendTo(d, m) => SendEvents(s.net, p, d, m.(source := p))
    case ReceiveFrom(src) => ReceiveEvents(p, FindNet(s.net, p, src))
    case DeviceInterrupt(t) => RaiseEvents(s.net, t)
    case ClockTick(_) => []
  }

  lemma StepParts(s: Sys, req: Request)
    requires CoreInv(s) && req.InRange(|s.net.status|) && Step(s, req).Returns?
    ensures Step(s, req).sys.net == NetAfter(s, req)
    ensures Step(s, req).sys.log == s.log + NewEvents(s, req)
    ensures req.SendTo? ==> req.dest != s.sched.running
    ensures req.ReceiveFrom? ==> req.source != Task(s.sched.running)
  {
    match req
    case SendTo(d, m) => Two(s.log, Sent(s.sched.running, d, m.(source := s.sched.running)),
                             Got(d, s.sched.running, m.(source := s.sched.running)));
    case ReceiveFrom(src) => assert s.log + [] == s.log;
    case DeviceInterrupt(t) =>
      Two(s.log, Raised(t), GotInterrupt(t));
      assert s.log + [Raised(t)] + [] == s.log + [Raised(t)];
    case ClockTick(_) => assert s.log + [] == s.log;
  }

  lemma Two(log: seq<Event>, e: Event, f: Event)
    ensures log + [e, f] == log + [e] + [f]
  {
  }

  lemma SendInFlight(net: Net, p: nat, d: nat, m: Msg, a: nat, b: nat)
    requires Inv(net) && p < |net.status| && d < |net.status| && net.status[p].Ready?
    ensures InFlight(SendNet(net, p, d, m), a, b) ==
      if !net.WaitsFor(d, p) && a == p && b == d then [m] else InFlight(net, a, b)
    ensures InFlight(net, p, b) == []
  {
  }

  lemma SendBalances(net: Net, log: seq<Event>, p: nat, d: nat, m: Msg, a: nat, b: nat)
    requires Inv(net) && p < |net.status| && d < |net.status| && net.status[p].Ready?
    requires Balanced(net, log, a, b)
    ensures Balanced(SendNet(net, p, d, m), log + SendEvents(net, p, d, m), a, b)
  {
    var sent, got := Sent(p, d, m), Got(d, p, m);
    Two(log, sent, got);
    LogAppend(log, sent, a, b);
    LogAppend(log + [sent], got, a, b);
    SendInFlight(net, p, d, m, a, b);
  }

  lemma ReceiveInFlight(net: Net, r: nat, src: Source, a: nat, b: nat)
    requires Inv(net) && r < |net.status| && net.status[r].Ready?
    ensures var found := FindNet(net, r, src);
      InFlight(net, a, b) ==
        (if found.Sender? && found.id == a && r == b then [found.msg] else []) + InFlight(RecvNet(net, r, src), a, b)
  {
    FoundSender(net, r, src);
  }

  lemma ReceiveLogged(log: seq<Event>, r: nat, found: Found, a: nat, b: nat)
    ensures var log' := log + ReceiveEvents(r, found);
      && SentBetween(log', a, b) == SentBetween(log, a, b)
      && GotBetween(log', a, b) ==
        GotBetween(log, a, b) + (if found.Sender? && found.id == a && r == b then [found.msg] else [])
  {
    match found
    case Hardware => LogAppend(log, GotInterrupt(r), a, b);
    case Sender(from, m) => LogAppend(log, Got(r, from, m), a, b);
    case Nothing => assert log + [] == log;
  }

  lemma ReceiveBalances(net: Net, log: seq<Event>, r: nat, src: Source, a: nat, b: nat)
    requires Inv(net) && r < |net.status| && net.status[r].Ready?
    requires Balanced(net, log, a, b)
    ensures Balanced(RecvNet(net, r, src), log + ReceiveEvents(r, FindNet(net, r, src)), a, b)
  {
    var found := FindNet(net, r, src);
    ReceiveInFlight(net, r, src, a, b);
    ReceiveLogged(log, r, found, a, b);
    Regroup(GotBetween(log, a, b), if found.Sender? && found.id == a && r == b then [found.msg] else [],
            InFlight(RecvNet(net, r, src), a, b));
  }

  lemma RaiseBalances(net: Net, log: seq<Event>, t: nat, a: nat, b: nat)
    requires Inv(net) && t < |net.status| && Balanced(net, log, a, b)
    ensures Balanced(RaiseNet(net, t), log + RaiseEvents(net, t), a, b)
  {
    Two(log, Raised(t), GotInterrupt(t));
    LogAppend(log, Raised(t), a, b);
    LogAppend(log + [Raised(t)], GotInterrupt(t), a, b);
  }

  lemma StepConserves(s: Sys, req: Request)
    requires CoreInv(s) && Conserved(s) && req.InRange(|s.net.status|) && Step(s, req).Returns?
    ensures Conserved(Step(s, req).sys)
  {
    StepParts(s, req);
    var p, n := s.sched.running, |s.net.status|;
    forall a: nat, b: nat | a < n && b < n
      ensures Balanced(NetAfter(s, req), s.log + NewEvents(s, req), a, b)
    {
      assert Balanced(s.net, s.log, a, b);
      match req
      case SendTo(d, m) => SendBalances(s.net, s.log, p, d, m.(source := p), a, b);
      case ReceiveFrom(src) => ReceiveBalances(s.net, s.log, p, src, a, b);
      case DeviceInterrupt(t) => RaiseBalances(s.net, s.log, t, a, b);
      case ClockTick(_) => assert s.log + [] == s.log;
    }
    StepKeeps(s, req);
  }

  /** Conservation over whole runs: per pair, sends minus deliveries is 1 while the sender is
      blocked on that receiver and 0 otherwise, and the k-th delivery is the k-th message sent. */
  lemma RunConserves(states: seq<Sys>, reqs: seq<Request>, k: nat)
    requires IsRun(states, reqs) && Conserved(states[0]) && k < |states|
    ensures Conserved(states[k])
  {
    forall s, req, s' | IsStep(s, req, s') && Conserved(s) ensures Conserved(s') {
      NextConserves(s, req, s');
    }
    Along(IsStep, Conserved, states, reqs, k);
  }

  lemma NextConserves(s: Sys, req: Request, s': Sys)
    requires IsStep(s, req, s') && Conserved(s)
    ensures Conserved(s')
  {
    StepConserves(s, req);
  }

  lemma BootConserved(priority: seq<int>)
    ensures Conserved(Boot(priority))
  {
  }

  /** The counting form of conservation, and every delivery names its sender. */
  lemma ConservedCounts(s: Sys, a: nat, b: nat)
    requires Conserved(s) && a < |s.net.status| && b < |s.net.status|
    ensures |SentBetween(s.log, a, b)| - |GotBetween(s.log, a, b)| == (if s.net.SendsTo(a, b) then 1 else 0)
    ensures GotBetween(s.log, a, b) == SentBetween(s.log, a, b)[..|GotBetween(s.log, a, b)|]
  {
    assert Balanced(s.net, s.log, a, b);
  }

  ghost predicate SourcesNamed(log: seq<Event>) {
    forall i :: 0 <= i < |log| ==>
      && (log[i].Got? ==> log[i].msg.source == log[i].sender)
      && (log[i].Sent? ==> log[i].msg.source == log[i].sender)
  }

  lemma StepNamesSources(s: Sys, req: Request)
    requires CoreInv(s) && req.InRange(|s.net.status|) && Step(s, req).Returns?
    requires SourcesNamed(s.log)
    ensures SourcesNamed(Step(s, req).sys.log)
  {
    StepParts(s, req);
    if req.ReceiveFrom? {
      FoundSender(s.net, s.sched.running, req.source);
    }
    assert forall e :: e in NewEvents(s, req) ==>
      (e.Got? ==> e.msg.source == e.sender) && (e.Sent? ==> e.msg.source == e.sender);
  }

  /** In every run, every message sent or delivered carries its sender's number. */
  lemma RunNamesSources(states: seq<Sys>, reqs: seq<Request>, k: nat)
    requires IsRun(states, reqs) && SourcesNamed(states[0].log) && k < |states|
    ensures SourcesNamed(states[k].log)
  {
    forall s, req, s' | IsStep(s, req, s') && SourcesNamed(s.log) ensures SourcesNamed(s'.log) {
      StepNamesSources(s, req);
    }
    Along(IsStep, (s: Sys) => SourcesNamed(s.log), states, reqs, k);
  }

  // ---------------------------------------------------------------- order at one receiver

  /** Everything sent to d, in send order, with the senders. */
  function SentTo(log: seq<Event>, d: nat): seq<(nat, Msg)> {
    if log == [] then []
    else
      var before := SentTo(log[..|log| - 1], d);
      match log[|log| - 1]
      case Sent(s, d', m) => if d' == d then before + [(s, m)] else before
      case _ => before
  }

  /** Everything d has got from other processes, in delivery order. */
  function GotBy(log: seq<Event>, d: nat): seq<(nat, Msg)> {
    if log == [] then []
    else
      var before := GotBy(log[..|log| - 1], d);
      match log[|log| - 1]
      case Got(d', s, m) => if d' == d then before + [(s, m)] else before
      case _ => before
  }

  ghost function Queued(net: Net, d: nat): seq<(nat, Msg)>
    requires QueuesExact(net) && d < |net.status|
  {
    seq(|net.queue[d]|, i requires 0 <= i < |net.queue[d]| =>
      (assert net.queue[d][i] in net.queue[d]; (net.queue[d][i], net.status[net.queue[d][i]].msg)))
  }

  /** d gets its messages in the order they were sent: those not yet delivered are exactly its
      queue, front first, and d never waits for one particular sender. */
  ghost predicate InOrder(s: Sys, d: nat)
    requires QueuesExact(s.net)
  {
    Ordered(s.net, s.log, d)
  }

  ghost predicate Ordered(net: Net, log: seq<Event>, d: nat)
    requires QueuesExact(net)
  {
    && d < |net.status|
    && (net.status[d].Receiving? ==> net.status[d].source == AnySource)
    && SentTo(log, d) == GotBy(log, d) + Queued(net, d)
  }

  lemma LogAppendTo(log: seq<Event>, e: Event, d: nat)
    ensures SentTo(log + [e], d) == SentTo(log, d) + (if e.Sent? && e.dest == d then [(e.sender, e.msg)] else [])
    ensures GotBy(log + [e], d) == GotBy(log, d) + (if e.Got? && e.receiver == d then [(e.sender, e.msg)] else [])
  {
    assert (log + [e])[..|log + [e]| - 1] == log;
  }

  /** The queue of a process waiting for anybody is empty. */
  lemma WaiterHasEmptyQueue(net: Net, d: nat)
    requires Inv(net) && d < |net.status|
    ensures net.status[d] == Receiving(AnySource) ==> net.queue[d] == []
  {
    if net.queue[d] != [] {
      var s := net.queue[d][0];
      assert s in net.queue[d];
      assert net.SendsTo(s, d) && !net.WaitsFor(d, s);
    }
  }

  /** Processes outside the queue of d do not matter to it. */
  lemma QueuedUnchanged(net: Net, net': Net, d: nat)
    requires QueuesExact(net) && QueuesExact(net') && d < |net.status| == |net'.status|
    requires net'.queue[d] == net.queue[d]
    requires forall q :: 0 <= q < |net.status| && net.SendsTo(q, d) ==> net'.status[q] == net.status[q]
    ensures Queued(net', d) == Queued(net, d)
  {
    forall i | 0 <= i < |net.queue[d]|
      ensures net.SendsTo(net.queue[d][i], d) && net'.SendsTo(net.queue[d][i], d)
    {
      assert net.queue[d][i] in net.queue[d];
      assert net'.queue[d][i] in net'.queue[d];
    }
  }

  lemma SendQueued(net: Net, p: nat, e: nat, m: Msg, d: nat)
    requires Inv(net) && p < |net.status| && e < |net.status| && d < |net.status| && net.status[p].Ready? && p != e
    ensures QueuesExact(SendNet(net, p, e, m))
    ensures Queued(SendNet(net, p, e, m), d) ==
      Queued(net, d) + (if !net.WaitsFor(e, p) && e == d then [(p, m)] else [])
  {
    SendKeepsQueues(net, p, e, m);
    var net' := SendNet(net, p, e, m);
    if !net.WaitsFor(e, p) && e == d {
      forall i | 0 <= i < |net.queue[d]| ensures net.SendsTo(net.queue[d][i], d) {
        assert net.queue[d][i] in net.queue[d];
      }
      forall i | 0 <= i < |net.queue[d]| ensures Queued(net', d)[i] == Queued(net, d)[i] {}
    } else {
      QueuedUnchanged(net, net', d);
    }
  }

  lemma ReceiveQueued(net: Net, r: nat, src: Source, d: nat)
    requires Inv(net) && r < |net.status| && d < |net.status| && net.status[r].Ready?
    requires r == d ==> src == AnySource
    ensures QueuesExact(RecvNet(net, r, src))
    ensures Queued(net, d) ==
      (if r == d && FindNet(net, r, src).Sender? then [(FindNet(net, r, src).id, FindNet(net, r, src).msg)] else [])
      + Queued(RecvNet(net, r, src), d)
  {
    RecvKeepsQueues(net, r, src);
    FoundSender(net, r, src);
    var net' := RecvNet(net, r, src);
    if r == d && FindNet(net, r, src).Sender? {
      forall i | 0 <= i < |net'.queue[d]| ensures Queued(net', d)[i] == Queued(net, d)[i + 1] {
        assert net'.queue[d][i] in net'.queue[d];
      }
    } else {
      QueuedUnchanged(net, net', d);
    }
  }

  lemma SendAppends(net: Net, log: seq<Event>, p: nat, e: nat, m: Msg, d: nat)
    ensures var log', x := log + SendEvents(net, p, e, m), if e == d then [(p, m)] else [];
      && SentTo(log', d) == SentTo(log, d) + x
      && GotBy(log', d) == GotBy(log, d) + if net.WaitsFor(e, p) then x else []
  {
    var sent, got := Sent(p, e, m), Got(e, p, m);
    Two(log, sent, got);
    LogAppendTo(log, sent, d);
    LogAppendTo(log + [sent], got, d);
  }

  lemma SendOrders(net: Net, log: seq<Event>, p: nat, e: nat, m: Msg, d: nat)
    requires Inv(net) && p < |net.status| && e < |net.status| && net.status[p].Ready? && p != e
    requires Ordered(net, log, d)
    ensures QueuesExact(SendNet(net, p, e, m))
    ensures Ordered(SendNet(net, p, e, m), log + SendEvents(net, p, e, m), d)
  {
    SendAppends(net, log, p, e, m, d);
    SendQueued(net, p, e, m, d);
    WaiterHasEmptyQueue(net, d);
    Regroup(GotBy(log, d), Queued(net, d), if e == d then [(p, m)] else []);
    Regroup(GotBy(log, d), [], []);
  }

  lemma ReceiveAppends(log: seq<Event>, r: nat, found: Found, d: nat)
    ensures var log' := log + ReceiveEvents(r, found);
      && SentTo(log', d) == SentTo(log, d)
      && GotBy(log', d) == GotBy(log, d) + if r == d && found.Sender? then [(found.id, found.msg)] else []
  {
    match found
    case Hardware => LogAppendTo(log, GotInterrupt(r), d);
    case Sender(from, m) => LogAppendTo(log, Got(r, from, m), d);
    case Nothing => assert log + [] == log;
  }

  lemma ReceiveOrders(net: Net, log: seq<Event>, r: nat, src: Source, d: nat)
    requires Inv(net) && r < |net.status| && net.status[r].Ready?
    requires Ordered(net, log, d) && (r == d ==> src == AnySource)
    ensures QueuesExact(RecvNet(net, r, src))
    ensures Ordered(RecvNet(net, r, src), log + ReceiveEvents(r, FindNet(net, r, src)), d)
  {
    var found := FindNet(net, r, src);
    ReceiveQueued(net, r, src, d);
    ReceiveAppends(log, r, found, d);
    Regroup(GotBy(log, d), if r == d && found.Sender? then [(found.id, found.msg)] else [], Queued(RecvNet(net, r, src), d));
  }

  lemma RaiseOrders(net: Net, log: seq<Event>, t: nat, d: nat)
    requires Inv(net) && t < |net.status| && Ordered(net, log, d)
    ensures QueuesExact(RaiseNet(net, t)) && Ordered(RaiseNet(net, t), log + RaiseEvents(net, t), d)
  {
    RaiseKeeps(net, t);
    Two(log, Raised(t), GotInterrupt(t));
    LogAppendTo(log, Raised(t), d);
    LogAppendTo(log + [Raised(t)], GotInterrupt(t), d);
    QueuedUnchanged(net, RaiseNet(net, t), d);
  }

  lemma StepInOrder(s: Sys, req: Request, d: nat)
    requires CoreInv(s) && req.InRange(|s.net.status|) && Step(s, req).Returns?
    requires InOrder(s, d) && (req.ReceiveFrom? && s.sched.running == d ==> req.source == AnySource)
    ensures CoreInv(Step(s, req).sys) && InOrder(Step(s, req).sys, d)
  {
    StepKeeps(s, req);
    StepParts(s, req);
    var p := s.sched.running;
    match req
    case SendTo(e, m) => SendOrders(s.net, s.log, p, e, m.(source := p), d);
    case ReceiveFrom(src) => ReceiveOrders(s.net, s.log, p, src, d);
    case DeviceInterrupt(t) => RaiseOrders(s.net, s.log, t, d);
    case ClockTick(_) => assert s.log + [] == s.log;
  }

  /** Every receive d makes in the run is from anybody. */
  ghost predicate OnlyAny(states: seq<Sys>, reqs: seq<Request>, d: nat)
    requires |states| == |reqs| + 1
  {
    forall i :: 0 <= i < |reqs| && reqs[i].ReceiveFrom? && states[i].sched.running == d ==> reqs[i].source == AnySource
  }

  /** A process that only receives from anybody gets messages in send order, over every run. */
  lemma RunInOrder(states: seq<Sys>, reqs: seq<Request>, d: nat, k: nat)
    requires IsRun(states, reqs) && InOrder(states[0], d) && OnlyAny(states, reqs, d) && k < |states|
    ensures CoreInv(states[k]) && InOrder(states[k], d)
  {
    forall s, req, s' | IsOpenStep(s, req, s', d) && GoodOrder(s, d) ensures GoodOrder(s', d) {
      StepInOrder(s, req, d);
    }
    Along((s, req, s') => IsOpenStep(s, req, s', d), s => GoodOrder(s, d), states, reqs, k);
  }

  ghost predicate IsOpenStep(s: Sys, req: Request, s': Sys, d: nat) {
    IsStep(s, req, s') && (req.ReceiveFrom? && s.sched.running == d ==> req.source == AnySource)
  }

  ghost predicate GoodOrder(s: Sys, d: nat) {
    CoreInv(s) && InOrder(s, d)
  }

  // ---------------------------------------------------------------- interrupts

  /** Has an interrupt been raised for t since t last got one? */
  predicate Outstanding(log: seq<Event>, t: nat) {
    if log == [] then false
    else
      match log[|log| - 1]
      case Raised(u) => u == t || Outstanding(log[..|log| - 1], t)
      case GotInterrupt(u) => u != t && Outstanding(log[..|log| - 1], t)
      case _ => Outstanding(log[..|log| - 1], t)
  }

  function RaisedCount(log: seq<Event>, t: nat): nat {
    if log == [] then 0
    else RaisedCount(log[..|log| - 1], t) + (if log[|log| - 1] == Raised(t) then 1 else 0)
  }

  function GotCount(log: seq<Event>, t: nat): nat {
    if log == [] then 0
    else GotCount(log[..|log| - 1], t) + (if log[|log| - 1] == GotInterrupt(t) then 1 else 0)
  }

  /** Every interrupt message to t answers at least one interrupt raised since the one before. */
  ghost predicate OneEach(log: seq<Event>, t: nat) {
    forall i :: 0 <= i < |log| && log[i] == GotInterrupt(t) ==> Outstanding(log[..i], t)
  }

  /** Interrupts are coalesced but never lost: the pending bit of t says exactly whether an
      interrupt is still owed, and no interrupt message comes out of nothing. */
  ghost predicate Coalesced(s: Sys, t: nat) {
    Owing(s.net, s.log, t)
  }

  ghost predicate Owing(net: Net, log: seq<Event>, t: nat) {
    && t < |net.pending|
    && (net.pending[t] <==> Outstanding(log, t))
    && OneEach(log, t)
  }

  lemma LogAppendInterrupt(log: seq<Event>, e: Event, t: nat)
    requires OneEach(log, t) && (e == GotInterrupt(t) ==> Outstanding(log, t))
    ensures OneEach(log + [e], t)
    ensures Outstanding(log + [e], t) <==> (e == Raised(t) || (e != GotInterrupt(t) && Outstanding(log, t)))
  {
    var log' := log + [e];
    assert log'[..|log'| - 1] == log;
    forall i | 0 <= i < |log'| && log'[i] == GotInterrupt(t) ensures Outstanding(log'[..i], t) {
      assert log'[..i] == log[..i];
      if i == |log| { assert log[..i] == log; }
    }
  }

  lemma SendCoalesces(net: Net, log: seq<Event>, p: nat, d: nat, m: Msg, t: nat)
    requires net.Shaped() && p < |net.status| && d < |net.status| && Owing(net, log, t)
    ensures Owing(SendNet(net, p, d, m), log + SendEvents(net, p, d, m), t)
  {
    Two(log, Sent(p, d, m), Got(d, p, m));
    LogAppendInterrupt(log, Sent(p, d, m), t);
    LogAppendInterrupt(log + [Sent(p, d, m)], Got(d, p, m), t);
  }

  lemma ReceiveCoalesces(net: Net, log: seq<Event>, r: nat, src: Source, t: nat)
    requires Inv(net) && r < |net.status| && Owing(net, log, t)
    ensures Owing(RecvNet(net, r, src), log + ReceiveEvents(r, FindNet(net, r, src)), t)
  {
    match FindNet(net, r, src)
    case Hardware => LogAppendInterrupt(log, GotInterrupt(r), t);
    case Sender(from, m) => LogAppendInterrupt(log, Got(r, from, m), t);
    case Nothing => assert log + [] == log;
  }

  lemma RaiseCoalesces(net: Net, log: seq<Event>, u: nat, t: nat)
    requires Inv(net) && u < |net.status| && Owing(net, log, t)
    ensures Owing(RaiseNet(net, u), log + RaiseEvents(net, u), t)
  {
    Two(log, Raised(u), GotInterrupt(u));
    LogAppendInterrupt(log, Raised(u), t);
    if net.WaitsForInterrupt(u) {
      LogAppendInterrupt(log + [Raised(u)], GotInterrupt(u), t);
    }
  }

  lemma StepCoalesces(s: Sys, req: Request, t: nat)
    requires CoreInv(s) && req.InRange(|s.net.status|) && Step(s, req).Returns?
    requires Coalesced(s, t)
    ensures Coalesced(Step(s, req).sys, t)
  {
    StepParts(s, req);
    var p := s.sched.running;
    match req
    case SendTo(d, m) => SendCoalesces(s.net, s.log, p, d, m.(source := p), t);
    case ReceiveFrom(src) => ReceiveCoalesces(s.net, s.log, p, src, t);
    case DeviceInterrupt(u) => RaiseCoalesces(s.net, s.log, u, t);
    case ClockTick(_) => assert s.log + [] == s.log;
  }

  lemma RunCoalesces(states: seq<Sys>, reqs: seq<Request>, t: nat, k: nat)
    requires IsRun(states, reqs) && Coalesced(states[0], t) && k < |states|
    ensures Coalesced(states[k], t)
  {
    forall s, req, s' | IsStep(s, req, s') && Coalesced(s, t) ensures Coalesced(s', t) {
      NextCoalesces(s, req, s', t);
    }
    Along(IsStep, s => Coalesced(s, t), states, reqs, k);
  }

  lemma NextCoalesces(s: Sys, req: Request, s': Sys, t: nat)
    requires IsStep(s, req, s') && Coalesced(s, t)
    ensures Coalesced(s', t)
  {
    StepCoalesces(s, req, t);
  }

  /** So t never gets more interrupt messages than interrupts were raised for it. */
  lemma {:induction false} NeverMoreThanRaised(log: seq<Event>, t: nat)
    requires OneEach(log, t)
    ensures GotCount(log, t) + (if Outstanding(log, t) then 1 else 0) <= RaisedCount(log, t)
  {
    if log != [] {
      var before := log[..|log| - 1];
      forall i | 0 <= i < |before| && before[i] == GotInterrupt(t) ensures Outstanding(before[..i], t) {
        assert before[..i] == log[..i];
      }
      NeverMoreThanRaised(before, t);
    }
  }

  /** An owed interrupt is what the next receive that accepts one gets, at once; and one raised
      while t waits for it is delivered at once. */
  lemma OwedIsDelivered(s: Sys, src: Source)
    requires CoreInv(s) && Coalesced(s, s.sched.running)
    requires src == AnySource || src == Interrupt
    requires Outstanding(s.log, s.sched.running)
    ensures ReceiveStep(s, src).Returns?
    ensures ReceiveStep(s, src).sys.log == s.log + [GotInterrupt(s.sched.running)]
    ensures !Outstanding(ReceiveStep(s, src).sys.log, s.sched.running)
  {
    LogAppendInterrupt(s.log, GotInterrupt(s.sched.running), s.sched.running);
  }

  lemma BootHistory(priority: seq<int>, t: nat)
    requires |priority| > 0 && t < |priority|
    ensures CoreInv(Boot(priority)) && Conserved(Boot(priority)) && SourcesNamed(Boot(priority).log)
    ensures InOrder(Boot(priority), t) && Coalesced(Boot(priority), t)
  {
    BootInv(priority);
    BootConserved(priority);
  }

  /** All of it for a run from power-on. */
  lemma FromPowerOn(states: seq<Sys>, reqs: seq<Request>, priority: seq<int>, k: nat, t: nat)
    requires |priority| > 0 && IsRun(states, reqs) && states[0] == Boot(priority) && k < |states| && t < |priority|
    ensures CoreInv(states[k]) && Conserved(states[k]) && SourcesNamed(states[k].log)
    ensures Coalesced(states[k], t) && GotCount(states[k].log, t) <= RaisedCount(states[k].log, t)
    ensures OnlyAny(states, reqs, t) ==> InOrder(states[k], t)
  {
    BootHistory(priority, t);
    RunKeeps(states, reqs, k);
    RunConserves(states, reqs, k);
    RunNamesSources(states, reqs, k);
    RunCoalesces(states, reqs, t, k);
    NeverMoreThanRaised(states[k].log, t);
    if OnlyAny(states, reqs, t) { RunInOrder(states, reqs, t, k); }
  }
}
