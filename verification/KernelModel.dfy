/** The whole kernel state as one value, the effect of one atomic kernel entry on it (a system
    call of the running process, a device interrupt, a clock tick), and runs of such entries. */
module KernelModel {
  import opened Rendezvous
  import opened WaitGraph
  import opened NetInvariant
  import opened Runs
  import opened Scheduler

  /** What has happened, oldest first. */
  datatype Event =
    | Sent(sender: nat, dest: nat, msg: Msg)
    | Got(receiver: nat, sender: nat, msg: Msg)
    | Raised(task: nat)
    | GotInterrupt(task: nat)

  datatype Sys = Sys(net: Net, sched: Sched, clock: int, log: seq<Event>)
  {
    ghost predicate Shaped() {
      net.Shaped() && sched.Shaped(|net.status|)
    }
  }

  datatype Request =
    | SendTo(dest: nat, msg: Msg)
    | ReceiveFrom(source: Source)
    | DeviceInterrupt(task: nat)
    | ClockTick(reentrant: bool)
  {
    /** Process numbers are in range: the check the source leaves to its callers. */
    predicate InRange(n: nat) {
      match this
      case SendTo(d, _) => d < n
      case ReceiveFrom(src) => src.Task? ==> src.id < n
      case DeviceInterrupt(t) => t < n
      case ClockTick(_) => true
    }
  }

  /** How a kernel entry ends: it returns; a failed ASSERT or a CRITICAL stops the machine; or
      `process_schedule` goes round for ever because nobody is left to run. */
  datatype Outcome = Returns(sys: Sys) | AssertFails | Critical | Spins

  function ReadyOf(net: Net): (r: seq<bool>)
    ensures |r| == |net.status|
  {
    seq(|net.status|, i requires 0 <= i < |net.status| => net.status[i].Ready?)
  }

  function Block(s: Sys): Outcome
    requires s.Shaped()
  {
    match Schedule(ReadyOf(s.net), s.sched)
    case None => Spins
    case Some(sched) => Returns(s.(sched := sched))
  }

  ghost function SendStep(s: Sys, d: nat, msg: Msg): Outcome
    requires s.Shaped() && Inv(s.net) && s.net.status[s.sched.running].Ready? && d < |s.net.status|
  {
    var p := s.sched.running;
    var m := msg.(source := p);
    if d == p then AssertFails
    else if Reaches(s.net, d, p) then Critical
    else
      var sent := s.(net := SendNet(s.net, p, d, m), log := s.log + [Sent(p, d, m)]);
      if s.net.WaitsFor(d, p) then Returns(sent.(log := sent.log + [Got(d, p, m)]))
      else Block(sent)
  }

  ghost function ReceiveStep(s: Sys, src: Source): Outcome
    requires s.Shaped() && Inv(s.net) && s.net.status[s.sched.running].Ready?
  {
    var r := s.sched.running;
    if src == Task(r) then AssertFails
    else
      var s' := s.(net := RecvNet(s.net, r, src));
      match FindNet(s.net, r, src)
      case Hardware => Returns(s'.(log := s.log + [GotInterrupt(r)]))
      case Sender(from, m) => Returns(s'.(log := s.log + [Got(r, from, m)]))
      case Nothing => Block(s')
  }

  function InterruptStep(s: Sys, t: nat): Sys
    requires s.Shaped() && t < |s.net.status|
  {
    s.(net := RaiseNet(s.net, t),
       log := s.log + [Raised(t)] + if s.net.WaitsForInterrupt(t) then [GotInterrupt(t)] else [])
  }

  function ClockStep(s: Sys, reentrant: bool): Outcome
    requires s.Shaped()
  {
    match Tick(ReadyOf(s.net), s.sched, reentrant)
    case None => Spins
    case Some(sched) => Returns(s.(sched := sched, clock := s.clock + 1))
  }

  /** The rendezvous state is good and the running process can run. */
  ghost predicate CoreInv(s: Sys) {
    && s.Shaped()
    && Inv(s.net)
    && s.net.status[s.sched.running].Ready?
  }

  ghost function Step(s: Sys, req: Request): Outcome
    requires CoreInv(s) && req.InRange(|s.net.status|)
  {
    match req
    case SendTo(d, m) => SendStep(s, d, m)
    case ReceiveFrom(src) => ReceiveStep(s, src)
    case DeviceInterrupt(t) => Returns(InterruptStep(s, t))
    case ClockTick(reentrant) => ClockStep(s, reentrant)
  }

  lemma BlockRunsSomebodyReady(s: Sys)
    requires s.Shaped() && Block(s).Returns?
    ensures var s' := Block(s).sys; s' == s.(sched := s'.sched) && s'.Shaped() && s'.net.status[s'.sched.running].Ready?
  {
    PickIsChosen(ReadyOf(s.net), s.sched.ticks);
    PickIsChosen(ReadyOf(s.net), Refill(ReadyOf(s.net), s.sched.ticks, s.sched.priority));
  }

  lemma SendStepKeeps(s: Sys, d: nat, m: Msg)
    requires CoreInv(s) && d < |s.net.status| && SendStep(s, d, m).Returns?
    ensures CoreInv(SendStep(s, d, m).sys)
  {
    var p := s.sched.running;
    var m' := m.(source := p);
    SendKeeps(s.net, p, d, m');
    if !s.net.WaitsFor(d, p) {
      BlockRunsSomebodyReady(s.(net := SendNet(s.net, p, d, m'), log := s.log + [Sent(p, d, m')]));
    }
  }

  lemma ReceiveStepKeeps(s: Sys, src: Source)
    requires CoreInv(s) && ReceiveStep(s, src).Returns?
    ensures CoreInv(ReceiveStep(s, src).sys)
  {
    var r := s.sched.running;
    RecvKeeps(s.net, r, src);
    FoundSender(s.net, r, src);
    if FindNet(s.net, r, src).Nothing? {
      BlockRunsSomebodyReady(s.(net := RecvNet(s.net, r, src)));
    }
  }

  lemma ClockStepKeeps(s: Sys, reentrant: bool)
    requires CoreInv(s) && ClockStep(s, reentrant).Returns?
    ensures CoreInv(ClockStep(s, reentrant).sys)
  {
    var left := s.sched.ticks[s.sched.running := s.sched.ticks[s.sched.running] - 1];
    var ready := ReadyOf(s.net);
    PickIsChosen(ready, left);
    PickIsChosen(ready, Refill(ready, left, s.sched.priority));
  }

  /** Every kernel entry that returns keeps the core invariant. */
  lemma StepKeeps(s: Sys, req: Request)
    requires CoreInv(s) && req.InRange(|s.net.status|) && Step(s, req).Returns?
    ensures CoreInv(Step(s, req).sys)
    ensures |Step(s, req).sys.net.status| == |s.net.status|
    ensures Step(s, req).sys.sched.priority == s.sched.priority
  {
    match req
    case SendTo(d, m) => SendStepKeeps(s, d, m);
    case ReceiveFrom(src) => ReceiveStepKeeps(s, src);
    case DeviceInterrupt(t) => RaiseKeeps(s.net, t);
    case ClockTick(reentrant) => ClockStepKeeps(s, reentrant);
  }

  ghost predicate Ends(o: Outcome, net: Net, sched: Sched, clock: int, log: seq<Event>) {
    o.Returns? && CoreInv(o.sys) && o.sys.net == net && o.sys.sched == sched && o.sys.clock == clock && o.sys.log == log
  }

  /** `msg_send` spelled out, with the state each branch leaves. */
  lemma SendOutcome(s: Sys, d: nat, m: Msg)
    requires CoreInv(s) && d < |s.net.status| && d != s.sched.running && m.source == s.sched.running
    ensures var p, o := s.sched.running, SendStep(s, d, m);
      var net, sent := SendNet(s.net, p, d, m), s.log + [Sent(p, d, m)];
      if Reaches(s.net, d, p) then o == Critical
      else if s.net.WaitsFor(d, p) then Ends(o, net, s.sched, s.clock, sent + [Got(d, p, m)])
      else if Schedule(ReadyOf(net), s.sched).None? then o == Spins
      else Ends(o, net, Schedule(ReadyOf(net), s.sched).value, s.clock, sent)
  {
    assert m.(source := s.sched.running) == m;
    if SendStep(s, d, m).Returns? {
      SendStepKeeps(s, d, m);
    }
  }

  function ReceiveEvents(r: nat, found: Found): seq<Event> {
    match found
    case Hardware => [GotInterrupt(r)]
    case Sender(from, m) => [Got(r, from, m)]
    case Nothing => []
  }

  /** `msg_recv` spelled out. */
  lemma ReceiveOutcome(s: Sys, src: Source)
    requires CoreInv(s) && src != Task(s.sched.running)
    ensures var r, o := s.sched.running, ReceiveStep(s, src);
      var net, found := RecvNet(s.net, r, src), FindNet(s.net, r, src);
      if found.Nothing? && Schedule(ReadyOf(net), s.sched).None? then o == Spins
      else
        Ends(o, net, if found.Nothing? then Schedule(ReadyOf(net), s.sched).value else s.sched,
          s.clock, s.log + ReceiveEvents(r, found))
  {
    assert s.log + [] == s.log;
    if ReceiveStep(s, src).Returns? {
      ReceiveStepKeeps(s, src);
    }
  }

  // ---------------------------------------------------------------- runs

  /** The state `init_process_main` builds for the given priorities. */
  function Boot(priority: seq<int>): Sys {
    Sys(Initial(|priority|), Sched(priority, priority, 0), 0, [])
  }

  lemma BootInv(priority: seq<int>)
    requires |priority| > 0
    ensures CoreInv(Boot(priority))
  {
    InitialInv(|priority|);
  }

  /** The states a run goes through, first to last. */
  ghost predicate IsRun(states: seq<Sys>, reqs: seq<Request>) {
    && |states| == |reqs| + 1
    && CoreInv(states[0])
    && (forall i {:trigger reqs[i]} :: 0 <= i < |reqs| ==> IsStep(states[i], reqs[i], states[i + 1]))
  }

  ghost predicate IsStep(s: Sys, req: Request, s': Sys) {
    CoreInv(s) && req.InRange(|s.net.status|) && Step(s, req) == Returns(s')
  }

  ghost predicate Kept(s: Sys, n: nat, priority: seq<int>) {
    CoreInv(s) && |s.net.status| == n && s.sched.priority == priority
  }

  lemma NextKeeps(s: Sys, req: Request, s': Sys, n: nat, priority: seq<int>)
    requires IsStep(s, req, s') && Kept(s, n, priority)
    ensures Kept(s', n, priority)
  {
    StepKeeps(s, req);
  }

  /** Every state of every run keeps the core invariant. */
  lemma RunKeeps(states: seq<Sys>, reqs: seq<Request>, k: nat)
    requires IsRun(states, reqs) && k < |states|
    ensures CoreInv(states[k]) && |states[k].net.status| == |states[0].net.status|
    ensures states[k].sched.priority == states[0].sched.priority
  {
    var n, priority := |states[0].net.status|, states[0].sched.priority;
    forall s, req, s' | IsStep(s, req, s') && Kept(s, n, priority) ensures Kept(s', n, priority) {
      NextKeeps(s, req, s', n, priority);
    }
    Along(IsStep, s => Kept(s, n, priority), states, reqs, k);
  }

  // ---------------------------------------------------------------- when the running process changes

  /** The scheduler is called only when the caller blocks: a send or receive that goes through, and
      a device interrupt, leave the running process and all ticks alone; one that blocks leaves a
      ready process with the most ticks running. */
  lemma RunsOnUnlessBlocked(s: Sys, req: Request)
    requires CoreInv(s) && req.InRange(|s.net.status|) && Step(s, req).Returns? && !req.ClockTick?
    ensures var s', p := Step(s, req).sys, s.sched.running;
      && (req.DeviceInterrupt? || s'.net.status[p].Ready? ==> s'.sched == s.sched)
      && (!s'.net.status[p].Ready? ==> Chosen(ReadyOf(s'.net), s'.sched.ticks, s'.sched.running))
  {
    var p := s.sched.running;
    match req
    case SendTo(d, m) =>
      var net := SendNet(s.net, p, d, m.(source := p));
      if !s.net.WaitsFor(d, p) { ScheduleChooses(ReadyOf(net), s.sched); }
    case ReceiveFrom(src) =>
      FoundSender(s.net, p, src);
      if FindNet(s.net, p, src).Nothing? { ScheduleChooses(ReadyOf(RecvNet(s.net, p, src)), s.sched); }
    case DeviceInterrupt(t) =>
  }

  lemma ScheduleChooses(ready: seq<bool>, s: Sched)
    requires s.Shaped(|ready|) && Schedule(ready, s).Some?
    ensures Chosen(ready, Schedule(ready, s).value.ticks, Schedule(ready, s).value.running)
  {
    PickIsChosen(ready, s.ticks);
    PickIsChosen(ready, Refill(ready, s.ticks, s.priority));
  }

  /** Whoever is blocked after a kernel entry has the ticks it had before. */
  lemma StepSparesBlocked(s: Sys, req: Request, i: nat)
    requires CoreInv(s) && req.InRange(|s.net.status|) && Step(s, req).Returns? && i < |s.net.status|
    requires i < |Step(s, req).sys.net.status| && !Step(s, req).sys.net.status[i].Ready?
    ensures i < |Step(s, req).sys.sched.ticks| && Step(s, req).sys.sched.ticks[i] == s.sched.ticks[i]
  {
    var p := s.sched.running;
    match req
    case SendTo(d, m) =>
      if !s.net.WaitsFor(d, p) { ScheduleTicks(ReadyOf(SendNet(s.net, p, d, m.(source := p))), s.sched); }
    case ReceiveFrom(src) =>
      if FindNet(s.net, p, src).Nothing? { ScheduleTicks(ReadyOf(RecvNet(s.net, p, src)), s.sched); }
    case DeviceInterrupt(t) =>
    case ClockTick(reentrant) => TickSpends(ReadyOf(s.net), s.sched, reentrant);
  }

  ghost predicate BlockedStep(s: Sys, req: Request, s': Sys, i: nat) {
    IsStep(s, req, s') && i < |s'.net.status| && !s'.net.status[i].Ready?
  }

  ghost predicate HasTicks(s: Sys, i: nat, ticks: int) {
    CoreInv(s) && i < |s.sched.ticks| && s.sched.ticks[i] == ticks
  }

  lemma BlockedAt(states: seq<Sys>, reqs: seq<Request>, l: nat, i: nat)
    requires IsRun(states, reqs) && l < |reqs| && i < |states[l + 1].net.status| && !states[l + 1].net.status[i].Ready?
    ensures BlockedStep(states[l], reqs[l], states[l + 1], i)
  {
    assert IsStep(states[l], reqs[l], states[l + 1]);
  }

  lemma NextHasTicks(s: Sys, req: Request, s': Sys, i: nat, ticks: int)
    requires BlockedStep(s, req, s', i) && HasTicks(s, i, ticks)
    ensures HasTicks(s', i, ticks)
  {
    StepKeeps(s, req);
    StepSparesBlocked(s, req, i);
  }

  /** Over every run: the ticks of a process do not change while it is blocked. */
  lemma BlockedKeepsTicks(states: seq<Sys>, reqs: seq<Request>, k: nat, j: nat, i: nat)
    requires IsRun(states, reqs) && k <= j < |states| && i < |states[0].net.status|
    requires forall l :: k < l <= j ==> i < |states[l].net.status| && !states[l].net.status[i].Ready?
    ensures CoreInv(states[k]) && CoreInv(states[j]) && i < |states[k].sched.ticks| && i < |states[j].sched.ticks|
    ensures states[j].sched.ticks[i] == states[k].sched.ticks[i]
  {
    RunKeeps(states, reqs, k);
    var ticks := states[k].sched.ticks[i];
    forall l {:trigger reqs[l]} | k <= l < j ensures BlockedStep(states[l], reqs[l], states[l + 1], i) {
      BlockedAt(states, reqs, l, i);
    }
    forall s, req, s' | BlockedStep(s, req, s', i) && HasTicks(s, i, ticks) ensures HasTicks(s', i, ticks) {
      NextHasTicks(s, req, s', i, ticks);
    }
    Between((s, req, s') => BlockedStep(s, req, s', i), s => HasTicks(s, i, ticks), states, reqs, k, j);
  }

  // ---------------------------------------------------------------- scheduling over runs

  ghost predicate TimeInv(s: Sys) {
    s.Shaped() && SchedInv(ReadyOf(s.net), s.sched)
  }

  lemma MoreReady(a: seq<bool>, b: seq<bool>, s: Sched)
    requires SchedInv(a, s) && |a| == |b| && b[s.running]
    ensures SchedInv(b, s)
  {
  }

  lemma BlockKeepsTime(s: Sys)
    requires s.Shaped() && TicksInRange(s.sched) && Block(s).Returns?
    ensures TimeInv(Block(s).sys)
  {
    ScheduleEstablishes(ReadyOf(s.net), s.sched);
  }

  /** With non-re-entrant clock ticks, the running process always has ticks left and everybody's
      ticks stay between 0 and the priority. */
  lemma StepKeepsTime(s: Sys, req: Request)
    requires CoreInv(s) && TimeInv(s) && req.InRange(|s.net.status|) && Step(s, req).Returns?
    requires req != ClockTick(true)
    ensures TimeInv(Step(s, req).sys)
  {
    StepKeeps(s, req);
    var s' := Step(s, req).sys;
    match req
    case SendTo(d, m) =>
      var p := s.sched.running;
      var m' := m.(source := p);
      SendKeepsQueues(s.net, p, d, m');
      if s.net.WaitsFor(d, p) {
        MoreReady(ReadyOf(s.net), ReadyOf(s'.net), s.sched);
      } else {
        BlockKeepsTime(s.(net := SendNet(s.net, p, d, m'), log := s.log + [Sent(p, d, m')]));
      }
    case ReceiveFrom(src) =>
      RecvKeepsQueues(s.net, s.sched.running, src);
      if FindNet(s.net, s.sched.running, src).Nothing? {
        BlockKeepsTime(s.(net := RecvNet(s.net, s.sched.running, src)));
      } else {
        MoreReady(ReadyOf(s.net), ReadyOf(s'.net), s.sched);
      }
    case DeviceInterrupt(t) => MoreReady(ReadyOf(s.net), ReadyOf(s'.net), s.sched);
    case ClockTick(_) => TickKeeps(ReadyOf(s.net), s.sched);
  }

  lemma BootTime(priority: seq<int>)
    requires |priority| > 0 && priority[0] > 0
    requires forall i :: 0 <= i < |priority| ==> 0 <= priority[i]
    ensures TimeInv(Boot(priority))
  {
    InitialInv(|priority|);
  }

  ghost predicate NoReentrantTicks(reqs: seq<Request>) {
    forall i :: 0 <= i < |reqs| ==> reqs[i] != ClockTick(true)
  }

  ghost predicate IsTimedStep(s: Sys, req: Request, s': Sys) {
    IsStep(s, req, s') && req != ClockTick(true)
  }

  ghost predicate Timed(s: Sys) {
    CoreInv(s) && TimeInv(s)
  }

  lemma RunKeepsTime(states: seq<Sys>, reqs: seq<Request>, k: nat)
    requires IsRun(states, reqs) && TimeInv(states[0]) && NoReentrantTicks(reqs) && k < |states|
    ensures CoreInv(states[k]) && TimeInv(states[k])
  {
    forall s, req, s' | IsTimedStep(s, req, s') && Timed(s) ensures Timed(s') {
      NextKeepsTime(s, req, s');
    }
    Along(IsTimedStep, Timed, states, reqs, k);
  }

  lemma NextKeepsTime(s: Sys, req: Request, s': Sys)
    requires IsStep(s, req, s') && TimeInv(s) && req != ClockTick(true)
    ensures CoreInv(s') && TimeInv(s')
  {
    StepKeeps(s, req);
    StepKeepsTime(s, req);
  }

  function ClockTicks(reqs: seq<Request>, k: nat): nat
    requires k <= |reqs|
  {
    if k == 0 then 0 else ClockTicks(reqs, k - 1) + (if reqs[k - 1].ClockTick? then 1 else 0)
  }

  /** p is ready but somebody else runs. */
  ghost predicate Waits(s: Sys, p: nat) {
    p < |s.net.status| && s.net.status[p].Ready? && s.sched.running != p
  }

  /** One kernel entry costs a waiting process no patience, and a clock tick gains it some. */
  lemma StepPatience(s: Sys, req: Request, p: nat)
    requires CoreInv(s) && TimeInv(s) && req.InRange(|s.net.status|) && Step(s, req).Returns?
    requires req != ClockTick(true)
    requires Waits(s, p) && s.sched.priority[p] > 0 && Step(s, req).sys.net.status[p].Ready?
    ensures p < |Step(s, req).sys.sched.ticks|
    ensures Patience(Step(s, req).sys.sched, p) <= Patience(s.sched, p) - (if req.ClockTick? then 1 else 0)
  {
    var r := s.sched.running;
    match req
    case SendTo(d, m) =>
      var m' := m.(source := r);
      SendKeepsQueues(s.net, r, d, m');
      if !s.net.WaitsFor(d, r) {
        var net := SendNet(s.net, r, d, m');
        SchedulePatience(ReadyOf(net), s.sched, p);
      }
    case ReceiveFrom(src) =>
      RecvKeepsQueues(s.net, r, src);
      if FindNet(s.net, r, src).Nothing? {
        SchedulePatience(ReadyOf(RecvNet(s.net, r, src)), s.sched, p);
      }
    case DeviceInterrupt(t) =>
    case ClockTick(_) => TickPatience(ReadyOf(s.net), s.sched, p);
  }

  ghost function PatienceIn(s: Sys, p: nat): int {
    if p < |s.sched.ticks| then Patience(s.sched, p) else 0
  }

  lemma PatienceOfStep(states: seq<Sys>, reqs: seq<Request>, p: nat, i: nat)
    requires IsRun(states, reqs) && TimeInv(states[0]) && NoReentrantTicks(reqs) && i < |reqs|
    requires Waits(states[i], p) && Waits(states[i + 1], p)
    requires p < |states[0].sched.priority| && states[0].sched.priority[p] > 0
    ensures PatienceIn(states[i + 1], p) <= PatienceIn(states[i], p) - (if reqs[i].ClockTick? then 1 else 0)
  {
    RunKeepsTime(states, reqs, i);
    RunKeeps(states, reqs, i);
    assert IsStep(states[i], reqs[i], states[i + 1]);
    StepPatience(states[i], reqs[i], p);
  }

  /** Patience only goes down, by at least one for every clock tick. */
  ghost predicate PatienceSpent(patience: seq<int>, reqs: seq<Request>) {
    && |patience| == |reqs| + 1
    && (forall i {:trigger reqs[i]} :: 0 <= i < |reqs| ==> patience[i + 1] <= patience[i] - (if reqs[i].ClockTick? then 1 else 0))
  }

  lemma {:induction false} PatienceRunsOut(patience: seq<int>, reqs: seq<Request>, k: nat)
    requires PatienceSpent(patience, reqs) && k <= |reqs|
    ensures patience[k] <= patience[0] - ClockTicks(reqs, k)
  {
    if k > 0 {
      PatienceRunsOut(patience, reqs, k - 1);
    }
  }

  /** Bounded waiting: while p stays ready without being run, at most twice the sum of the other
      priorities clock ticks go by. */
  lemma BoundedWaiting(states: seq<Sys>, reqs: seq<Request>, p: nat)
    requires IsRun(states, reqs) && TimeInv(states[0]) && NoReentrantTicks(reqs)
    requires forall i :: 0 <= i < |states| ==> Waits(states[i], p)
    requires p < |states[0].sched.priority| && states[0].sched.priority[p] > 0
    ensures ClockTicks(reqs, |reqs|) <= 2 * Others(states[0].sched, p)
  {
    var patience := PatienceAlong(states, p);
    forall i | 0 <= i < |reqs|
      ensures patience[i + 1] <= patience[i] - (if reqs[i].ClockTick? then 1 else 0)
    {
      PatienceOfStep(states, reqs, p, i);
    }
    PatienceRunsOut(patience, reqs, |reqs|);
    LastPatience(states, reqs, p);
    PatienceBound(states[0].sched, p);
  }

  ghost function PatienceAlong(states: seq<Sys>, p: nat): (patience: seq<int>)
    ensures |patience| == |states| && forall i :: 0 <= i < |states| ==> patience[i] == PatienceIn(states[i], p)
  {
    seq(|states|, i requires 0 <= i < |states| => PatienceIn(states[i], p))
  }

  lemma LastPatience(states: seq<Sys>, reqs: seq<Request>, p: nat)
    requires IsRun(states, reqs) && TimeInv(states[0]) && NoReentrantTicks(reqs)
    ensures 0 <= PatienceIn(states[|reqs|], p)
  {
    RunKeepsTime(states, reqs, |reqs|);
    if p < |states[|reqs|].sched.ticks| {
      PatienceBound(states[|reqs|].sched, p);
    }
  }

  /** So a process that stays ready is run before one more tick than that has gone by. */
  lemma EventuallyRuns(states: seq<Sys>, reqs: seq<Request>, p: nat)
    requires IsRun(states, reqs) && TimeInv(states[0]) && NoReentrantTicks(reqs)
    requires forall i :: 0 <= i < |states| ==> p < |states[i].net.status| && states[i].net.status[p].Ready?
    requires p < |states[0].sched.priority| && states[0].sched.priority[p] > 0
    requires ClockTicks(reqs, |reqs|) > 2 * Others(states[0].sched, p)
    ensures exists i :: 0 <= i < |states| && states[i].sched.running == p
  {
    if forall i :: 0 <= i < |states| ==> Waits(states[i], p) {
      BoundedWaiting(states, reqs, p);
      assert false;
    } else {
      var i :| 0 <= i < |states| && !Waits(states[i], p);
      assert states[i].sched.running == p;
    }
  }
}
