/** The closed system on the kernel itself: every kernel call of a task is the step of KernelModel
    that the kernel makes when the task is running, and the clock ticks in between. So the ticks a
    caller is told are those of a moment between its request and its answer. */
module ClosedKernel {
  import opened Wrappers
  import opened Rendezvous
  import opened WaitGraph
  import opened NetInvariant
  import opened Scheduler
  import opened KernelModel
  import opened History
  import opened Runs
  import opened ClosedSystem
  import opened ClosedInvariant

  // ---------------------------------------------------------------- a move is a kernel step

  /** Inside a task, without the kernel. */
  predicate Inside(move: Move) { move.ReadTicks? || move.Begin? || move.Command? }

  /** The task that makes the move; the disk's own is nobody's. */
  function Mover(move: Move): nat {
    match move
    case Ask(p, _, _, _) => p
    case CollectReply(p) => p
    case Listen(s) => s
    case ReadTicks(_) => SYSTEM_TASK
    case Reply(s, _) => s
    case _ => HDD_TASK
  }

  /** The kernel entry of a move. */
  function EntryOf(w: World, move: Move): Request
    requires Shaped(w) && Enabled(w, move)
  {
    match move
    case Ask(p, s, kind, body) => SendTo(s, Msg(p, kind, body))
    case CollectReply(p) => ReceiveFrom(Task(w.pc[p].server))
    case Listen(s) => ReceiveFrom(AnySource)
    case Reply(s, body) => SendTo(w.pc[s].client, ReplyMsg(s, w.pc[s], body))
    case Poll(body) => SendTo(SYSTEM_TASK, Msg(HDD_TASK, MSG_GET_TICKS, body))
    case CollectPoll => ReceiveFrom(Task(SYSTEM_TASK))
    case AwaitDevice => ReceiveFrom(Interrupt)
    case _ => DeviceInterrupt(HDD_TASK)
  }

  /** The kernel is where the tasks think it is, and the mover is running. */
  ghost predicate Running(w: World, s: Sys, move: Move) {
    CoreInv(s) && s.net == w.net && (move.DeviceRaises? || s.sched.running == Mover(move))
  }

  lemma EntryInRange(w: World, move: Move)
    requires WorldInv(w) && Enabled(w, move)
    ensures EntryOf(w, move).InRange(|w.net.status|)
    ensures EntryOf(w, move).SendTo? ==> EntryOf(w, move).dest != Mover(move)
    ensures EntryOf(w, move).ReceiveFrom? ==> EntryOf(w, move).source != Task(Mover(move))
    ensures EntryOf(w, move).SendTo? ==> EntryOf(w, move).msg.source == Mover(move)
    ensures EntryOf(w, move).SendTo? && !Inside(move) ==> !Reaches(w.net, EntryOf(w, move).dest, Mover(move))
  {
    NoDeadlock(w, move);
    match move
    case Ask(p, _, _, _) => assert LocalOk(p, w.pc[p], w.net.status[p]);
    case CollectReply(p) => assert LocalOk(p, w.pc[p], w.net.status[p]);
    case Reply(s, _) => ReplyIsSafe(w, s);
    case _ =>
  }

  /** The kernel neither asserts nor stops at the call of a task, and when it returns it has done
      to the rendezvous state what the move says. */
  lemma MoveIsStep(w: World, s: Sys, move: Move)
    requires WorldInv(w) && Enabled(w, move) && Running(w, s, move) && !Inside(move)
    ensures EntryOf(w, move).InRange(|s.net.status|)
    ensures Step(s, EntryOf(w, move)).Returns? || Step(s, EntryOf(w, move)).Spins?
    ensures Step(s, EntryOf(w, move)).Returns? ==>
      Step(s, EntryOf(w, move)).sys.net == Apply(w, move).net && CoreInv(Step(s, EntryOf(w, move)).sys)
  {
    EntryInRange(w, move);
    NoStop(s, EntryOf(w, move));
    if Step(s, EntryOf(w, move)).Returns? {
      StepFollows(w, s, move);
    }
  }

  /** A call that names another process and passes the deadlock check returns, or spins. */
  lemma NoStop(s: Sys, req: Request)
    requires CoreInv(s) && req.InRange(|s.net.status|)
    requires req.SendTo? ==> req.dest != s.sched.running && !Reaches(s.net, req.dest, s.sched.running)
    requires req.ReceiveFrom? ==> req.source != Task(s.sched.running)
    ensures Step(s, req).Returns? || Step(s, req).Spins?
  {
  }

  lemma StepFollows(w: World, s: Sys, move: Move)
    requires WorldInv(w) && Enabled(w, move) && Running(w, s, move) && !Inside(move)
    requires EntryOf(w, move).InRange(|s.net.status|) && Step(s, EntryOf(w, move)).Returns?
    requires EntryOf(w, move).SendTo? ==> EntryOf(w, move).msg.source == Mover(move)
    ensures Step(s, EntryOf(w, move)).sys.net == Apply(w, move).net && CoreInv(Step(s, EntryOf(w, move)).sys)
  {
    StepParts(s, EntryOf(w, move));
    StepKeeps(s, EntryOf(w, move));
    NetOfMove(w, s, move);
  }

  lemma NetOfMove(w: World, s: Sys, move: Move)
    requires WorldInv(w) && Enabled(w, move) && Running(w, s, move) && !Inside(move)
    requires EntryOf(w, move).InRange(|s.net.status|)
    requires EntryOf(w, move).SendTo? ==> EntryOf(w, move).msg.source == Mover(move)
    ensures NetAfter(s, EntryOf(w, move)) == Apply(w, move).net
  {
    var p := s.sched.running;
    match EntryOf(w, move)
    case SendTo(d, m) =>
      assert m.(source := p) == m;
      assert Apply(w, move).net == SendNet(w.net, p, d, m);
    case ReceiveFrom(src) => ReceiveNet(w, p, src);
    case _ =>
  }

  lemma ReceiveNet(w: World, r: nat, src: Source)
    requires Shaped(w) && QueuesExact(w.net) && r < |w.pc|
    ensures forall stuck :: ReceiveMove(w, r, src, stuck).net == RecvNet(w.net, r, src)
  {
    FoundSender(w.net, r, src);
  }

  // ---------------------------------------------------------------- tasks, kernel and clock together

  /** A finished get_ticks: who asked, when, what it was told, and when it was told. */
  datatype Call = Call(task: nat, asked: int, value: int, answered: int)

  datatype Joint = Joint(w: World, s: Sys, since: seq<int>, calls: seq<Call>)

  datatype JointMove = TaskMove(move: Move) | Tick(reentrant: bool)

  /** The answer of the system task that reaches its caller with this move. */
  function Told(w: World, move: Move): Option<(nat, int)>
    requires Shaped(w) && QueuesInRange(w.net) && Enabled(w, move)
  {
    match move
    case CollectReply(p) => Received(FindNet(w.net, p, Task(w.pc[p].server)), p)
    case CollectPoll => Received(FindNet(w.net, HDD_TASK, Task(SYSTEM_TASK)), HDD_TASK)
    case Reply(s, body) =>
      if s == SYSTEM_TASK && w.net.WaitsFor(w.pc[s].client, s) then Some((w.pc[s].client, body.i1)) else None
    case _ => None
  }

  function Received(f: Found, p: nat): Option<(nat, int)> {
    if f.Sender? && f.id == SYSTEM_TASK then Some((p, f.msg.body.i1)) else None
  }

  /** When a task asks, the time is noted. */
  function Noted(since: seq<int>, move: Move, now: int): seq<int> {
    if (move.Ask? || move.Poll?) && Mover(move) < |since| then since[Mover(move) := now] else since
  }

  function Logged(calls: seq<Call>, since: seq<int>, told: Option<(nat, int)>, now: int): seq<Call> {
    if told.Some? && told.value.0 < |since|
    then calls + [Call(told.value.0, since[told.value.0], told.value.1, now)] else calls
  }

  ghost predicate JointStep(j: Joint, jm: JointMove, j': Joint) {
    && Shaped(j.w) && QueuesInRange(j.w.net) && CoreInv(j.s) && j.s.net == j.w.net
    && match jm
       case Tick(reentrant) => Step(j.s, ClockTick(reentrant)) == Returns(j'.s) && j' == j.(s := j'.s)
       case TaskMove(move) =>
         && Enabled(j.w, move) && Clean(move) && Running(j.w, j.s, move)
         && j'.w == Apply(j.w, move)
         && j'.since == Noted(j.since, move, j.s.clock)
         && j'.calls == Logged(j.calls, j.since, Told(j.w, move), j.s.clock)
         && (if Inside(move) then j'.s == j.s && (move.ReadTicks? ==> move.value == j.s.clock)
             else EntryOf(j.w, move).InRange(|j.s.net.status|) && Step(j.s, EntryOf(j.w, move)) == Returns(j'.s))
  }

  /** The ticks the system task has read and not yet delivered, and for whom. */
  function Held(w: World): Option<(nat, int)>
    requires Shaped(w)
  {
    match w.pc[SYSTEM_TASK]
    case Answering(c, value) => Some((c, value))
    case Replying(c) =>
      if w.net.status[SYSTEM_TASK].Sending? then Some((c, w.net.status[SYSTEM_TASK].msg.body.i1)) else None
    case _ => None
  }

  ghost predicate Timely(call: Call) {
    call.asked <= call.value <= call.answered
  }

  ghost predicate HeldInTime(held: Option<(nat, int)>, since: seq<int>, now: int) {
    held.Some? ==> held.value.0 < |since| && since[held.value.0] <= held.value.1 <= now
  }

  ghost predicate JointInv(j: Joint) {
    && WorldInv(j.w) && CoreInv(j.s) && j.s.net == j.w.net && |j.since| == |j.w.pc|
    && (forall p :: 0 <= p < |j.since| ==> j.since[p] <= j.s.clock)
    && HeldInTime(Held(j.w), j.since, j.s.clock)
    && (forall i :: 0 <= i < |j.calls| ==> Timely(j.calls[i]))
  }

  // ---------------------------------------------------------------- what the system task holds

  /** What is delivered is what was held. */
  lemma ToldWasHeld(w: World, move: Move)
    requires WorldInv(w) && Enabled(w, move) && Told(w, move).Some?
    ensures Told(w, move) == Held(w)
  {
    match move
    case CollectReply(p) =>
      assert LocalOk(p, w.pc[p], w.net.status[p]);
      CollectHolds(w, p, w.pc[p].server, Awaiting(w.pc[p].server));
      FoundSender(w.net, p, Task(w.pc[p].server));
      assert LocalOk(SYSTEM_TASK, w.pc[SYSTEM_TASK], w.net.status[SYSTEM_TASK]);
    case CollectPoll =>
      CollectHolds(w, HDD_TASK, SYSTEM_TASK, PollAwaiting(w.pc[HDD_TASK].client, w.pc[HDD_TASK].kind, w.pc[HDD_TASK].plan));
      FoundSender(w.net, HDD_TASK, Task(SYSTEM_TASK));
      assert LocalOk(SYSTEM_TASK, w.pc[SYSTEM_TASK], w.net.status[SYSTEM_TASK]);
    case Reply(s, body) =>
  }

  /** What is held stays held, is delivered, or has just been read for the task being served. */
  ghost predicate Passes(w: World, move: Move, w': World)
    requires Shaped(w) && Shaped(w')
  {
    || Held(w').None?
    || Held(w') == Held(w)
    || (move.ReadTicks? && w.pc[SYSTEM_TASK].Serving? && Held(w') == Some((w.pc[SYSTEM_TASK].client, move.value)))
  }

  /** The system task's side of the state. */
  function HeldIn(s: Side): Option<(nat, int)> {
    match s.pc
    case Answering(c, value) => Some((c, value))
    case Replying(c) => if s.st.Sending? then Some((c, s.st.msg.body.i1)) else None
    case _ => None
  }

  lemma HeldElsewhere(w: World, w': World, a: nat, sa: Side, b: nat, sb: Side)
    requires Becomes(w, w', a, sa, b, sb)
    ensures Held(w') == if a == SYSTEM_TASK then HeldIn(sa) else if b == SYSTEM_TASK then HeldIn(sb) else Held(w)
  {
    assert SideOf(w', SYSTEM_TASK) == if a == SYSTEM_TASK then sa else if b == SYSTEM_TASK then sb else SideOf(w, SYSTEM_TASK);
  }

  lemma RequestPasses(w: World, p: nat, s: nat, m: Msg, next: Pc)
    requires Tasks(w) && IsRequest(w, p, s, m, next)
    ensures var w' := RequestMove(w, p, s, m, next); Shaped(w') && (Held(w').None? || Held(w') == Held(w))
  {
    assert LocalOk(p, w.pc[p], w.net.status[p]);
    RequestMoved(w, p, s, m, next);
    HeldElsewhere(w, RequestMove(w, p, s, m, next), p, Asked(w, p, s, m, next), s, AskedBy(w, p, s, m));
  }

  lemma ReplyPasses(w: World, s: nat, c: nat, m: Msg)
    requires Tasks(w) && IsReply(w, s, c) && (w.pc[s].Answering? ==> m.body.i1 == w.pc[s].value)
    requires s == SYSTEM_TASK ==> w.pc[s].Answering?
    ensures var w' := SendMove(w, s, c, m, Listening, Replying(c)); Shaped(w') && (Held(w').None? || Held(w') == Held(w))
  {
    ReplyMoved(w, s, c, m);
    assert LocalOk(c, w.pc[c], w.net.status[c]);
    HeldElsewhere(w, SendMove(w, s, c, m, Listening, Replying(c)), s, Replied(w, s, c, m), c, RepliedTo(w, s, c, m));
  }

  lemma CollectPasses(w: World, p: nat, s: nat, stuck: Pc)
    requires Tasks(w) && QueuesExact(w.net) && IsCollect(w, p, s, stuck)
    ensures var w' := ReceiveMove(w, p, Task(s), stuck); Shaped(w') && (Held(w').None? || Held(w') == Held(w))
  {
    assert LocalOk(p, w.pc[p], w.net.status[p]);
    CollectHolds(w, p, s, stuck);
    CollectMoved(w, p, s, stuck);
    HeldElsewhere(w, ReceiveMove(w, p, Task(s), stuck), p, Collected(w, p, s, stuck), s, CollectedFrom(w, p, s));
  }

  lemma ListenPasses(w: World, s: nat)
    requires WorldInv(w) && s < |w.pc| && w.pc[s].Listening? && w.net.status[s].Ready?
    ensures var w' := ReceiveMove(w, s, AnySource, Listening); Shaped(w') && (Held(w').None? || Held(w') == Held(w))
  {
    ListenFinds(w, s);
    var q := Heard(w, s);
    ListenMoved(w, s, q);
    assert LocalOk(q, w.pc[q], w.net.status[q]);
    HeldElsewhere(w, ReceiveMove(w, s, AnySource, Listening), s, Listened(w, s), q, ListenedTo(w, s, q));
  }

  lemma AlonePasses(w: World, move: Move)
    requires WorldInv(w) && Enabled(w, move) && (Inside(move) || move.AwaitDevice? || move.DeviceRaises?)
    ensures Shaped(Apply(w, move)) && Passes(w, move, Apply(w, move))
  {
  }

  lemma MovePasses(w: World, move: Move)
    requires WorldInv(w) && Enabled(w, move) && Clean(move)
    ensures Shaped(Apply(w, move)) && Passes(w, move, Apply(w, move))
  {
    match move
    case Ask(p, s, kind, body) => RequestPasses(w, p, s, Msg(p, kind, body), Asking(s));
    case CollectReply(p) => CollectPasses(w, p, w.pc[p].server, Awaiting(w.pc[p].server));
    case Listen(s) => ListenPasses(w, s);
    case Reply(s, body) => ReplyPassesOn(w, s, body);
    case Poll(body) => PollPasses(w, body);
    case CollectPoll =>
      CollectPasses(w, HDD_TASK, SYSTEM_TASK, PollAwaiting(w.pc[HDD_TASK].client, w.pc[HDD_TASK].kind, w.pc[HDD_TASK].plan));
    case _ => AlonePasses(w, move);
  }

  lemma PollPasses(w: World, body: Body)
    requires WorldInv(w) && Enabled(w, Poll(body))
    ensures Shaped(Apply(w, Poll(body))) && Passes(w, Poll(body), Apply(w, Poll(body)))
  {
    var h := w.pc[HDD_TASK];
    RequestPasses(w, HDD_TASK, SYSTEM_TASK, Msg(HDD_TASK, MSG_GET_TICKS, body), PollAsking(h.client, h.kind, h.plan[1..]));
  }

  lemma ReplyPassesOn(w: World, s: nat, body: Body)
    requires WorldInv(w) && Enabled(w, Reply(s, body))
    ensures Shaped(Apply(w, Reply(s, body))) && Passes(w, Reply(s, body), Apply(w, Reply(s, body)))
  {
    ReplyIsSafe(w, s);
    assert LocalOk(s, w.pc[s], w.net.status[s]);
    ReplyPasses(w, s, w.pc[s].client, ReplyMsg(s, w.pc[s], body));
  }

  /** Nobody asks anew while the system task holds its ticks. */
  lemma HolderKeepsTime(w: World, move: Move, c: nat)
    requires WorldInv(w) && Enabled(w, move) && ClientOf(w.pc[SYSTEM_TASK]) == Some(c)
    requires move.Ask? || move.Poll?
    ensures Mover(move) != c
  {
    assert HeldOk(w, SYSTEM_TASK, c);
  }

  // ---------------------------------------------------------------- every joint step

  lemma HeldStaysInTime(j: Joint, move: Move, j': Joint)
    requires JointInv(j) && JointStep(j, TaskMove(move), j')
    ensures Shaped(j'.w) && HeldInTime(Held(j'.w), j'.since, j.s.clock)
  {
    MovePasses(j.w, move);
    var held := Held(j'.w);
    if held.Some? {
      var c := held.value.0;
      assert ClientOf(j.w.pc[SYSTEM_TASK]) == Some(c);
      assert HeldOk(j.w, SYSTEM_TASK, c);
      if move.Ask? || move.Poll? { HolderKeepsTime(j.w, move, c); }
      assert j'.since[c] == j.since[c];
    }
  }

  lemma CallsStayTimely(j: Joint, move: Move, j': Joint)
    requires JointInv(j) && JointStep(j, TaskMove(move), j')
    ensures forall i :: 0 <= i < |j'.calls| ==> Timely(j'.calls[i])
  {
    if Told(j.w, move).Some? { ToldWasHeld(j.w, move); }
  }

  /** The kernel's part of a step. */
  lemma KernelFollows(j: Joint, move: Move, j': Joint)
    requires JointInv(j) && JointStep(j, TaskMove(move), j')
    ensures CoreInv(j'.s) && j'.s.net == j'.w.net && j'.s.clock == j.s.clock
  {
    if !Inside(move) {
      MoveIsStep(j.w, j.s, move);
      ClockStays(j.s, EntryOf(j.w, move));
    }
  }

  lemma SinceStays(j: Joint, move: Move, j': Joint)
    requires JointInv(j) && JointStep(j, TaskMove(move), j')
    ensures |j'.since| == |j'.w.pc| && forall p :: 0 <= p < |j'.since| ==> j'.since[p] <= j.s.clock
  {
    SizeStays(j.w, move);
  }

  lemma TaskStepKeeps(j: Joint, move: Move, j': Joint)
    requires JointInv(j) && JointStep(j, TaskMove(move), j')
    ensures JointInv(j')
  {
    HeldStaysInTime(j, move, j');
    CallsStayTimely(j, move, j');
    KernelFollows(j, move, j');
    SinceStays(j, move, j');
    MoveKeeps(j.w, move);
  }

  lemma SizeStays(w: World, move: Move)
    requires Shaped(w) && QueuesInRange(w.net) && Enabled(w, move)
    ensures |Apply(w, move).pc| == |w.pc|
  {
  }

  lemma ClockStays(s: Sys, req: Request)
    requires CoreInv(s) && req.InRange(|s.net.status|) && Step(s, req).Returns?
    ensures Step(s, req).sys.clock == s.clock + if req.ClockTick? then 1 else 0
  {
  }

  lemma TickKeepsJoint(j: Joint, reentrant: bool, j': Joint)
    requires JointInv(j) && JointStep(j, Tick(reentrant), j')
    ensures JointInv(j')
  {
    StepKeeps(j.s, ClockTick(reentrant));
    StepParts(j.s, ClockTick(reentrant));
    ClockStays(j.s, ClockTick(reentrant));
  }

  // ---------------------------------------------------------------- no call spins

  /** c computes and has a positive priority. */
  ghost predicate Spare(w: World, s: Sys, c: nat) {
    WorldInv(w) && CoreInv(s) && s.net == w.net && c < |w.pc| && w.pc[c].Idle? && s.sched.priority[c] > 0
  }

  lemma BlockReturns(s: Sys, c: nat)
    requires s.Shaped() && c < |s.net.status| && s.net.status[c].Ready? && s.sched.priority[c] > 0
    ensures Block(s).Returns?
  {
    ScheduleTerminates(ReadyOf(s.net), s.sched);
    assert ReadyOf(s.net)[c];
  }

  lemma SendReturns(s: Sys, d: nat, m: Msg, c: nat)
    requires CoreInv(s) && d < |s.net.status| && (SendStep(s, d, m).Returns? || SendStep(s, d, m).Spins?)
    requires c < |s.net.status| && s.net.status[c].Ready? && c != s.sched.running && s.sched.priority[c] > 0
    ensures SendStep(s, d, m).Returns?
  {
    var p := s.sched.running;
    var m' := m.(source := p);
    if !s.net.WaitsFor(d, p) {
      BlockReturns(s.(net := SendNet(s.net, p, d, m'), log := s.log + [Sent(p, d, m')]), c);
    }
  }

  lemma ReceiveReturns(s: Sys, src: Source, c: nat)
    requires CoreInv(s) && (ReceiveStep(s, src).Returns? || ReceiveStep(s, src).Spins?)
    requires c < |s.net.status| && s.net.status[c].Ready? && c != s.sched.running && s.sched.priority[c] > 0
    ensures ReceiveStep(s, src).Returns?
  {
    if FindNet(s.net, s.sched.running, src).Nothing? {
      BlockReturns(s.(net := RecvNet(s.net, s.sched.running, src)), c);
    }
  }

  /** As long as some other client computes, the scheduler finds somebody after every call. */
  lemma CallReturns(w: World, s: Sys, move: Move, c: nat)
    requires Spare(w, s, c) && Enabled(w, move) && Running(w, s, move) && !Inside(move) && c != Mover(move)
    ensures EntryOf(w, move).InRange(|s.net.status|) && Step(s, EntryOf(w, move)).Returns?
  {
    MoveIsStep(w, s, move);
    assert LocalOk(c, w.pc[c], w.net.status[c]);
    match EntryOf(w, move)
    case SendTo(d, m) => SendReturns(s, d, m, c);
    case ReceiveFrom(src) => ReceiveReturns(s, src, c);
    case _ =>
  }

  lemma TickSome(ready: seq<bool>, s: Sched, reentrant: bool, c: nat)
    requires s.Shaped(|ready|) && c < |ready| && ready[c] && s.priority[c] > 0
    ensures Scheduler.Tick(ready, s, reentrant).Some?
  {
    ScheduleTerminates(ready, s.(ticks := s.ticks[s.running := s.ticks[s.running] - 1]));
  }

  /** And after every clock interrupt. */
  lemma TickReturns(w: World, s: Sys, reentrant: bool, c: nat)
    requires Spare(w, s, c)
    ensures Step(s, ClockTick(reentrant)).Returns?
  {
    assert LocalOk(c, w.pc[c], w.net.status[c]);
    TickSome(ReadyOf(s.net), s.sched, reentrant, c);
  }

  lemma JointKeeps(j: Joint, jm: JointMove, j': Joint)
    requires JointInv(j) && JointStep(j, jm, j')
    ensures JointInv(j')
  {
    match jm
    case TaskMove(move) => TaskStepKeeps(j, move, j');
    case Tick(reentrant) => TickKeepsJoint(j, reentrant, j');
  }

  // ---------------------------------------------------------------- joint runs

  /** Power-on: the kernel as `init_process_main` leaves it, the tasks at their starts. */
  function JointStart(priority: seq<int>): Joint
    requires HDD_TASK < |priority|
  {
    Joint(Start(|priority|), Boot(priority), seq(|priority|, _ => 0), [])
  }

  ghost predicate JointRun(states: seq<Joint>, moves: seq<JointMove>, priority: seq<int>) {
    && HDD_TASK < |priority| && |states| == |moves| + 1 && states[0] == JointStart(priority)
    && (forall i {:trigger moves[i]} :: 0 <= i < |moves| ==> JointStep(states[i], moves[i], states[i + 1]))
  }

  lemma JointStartInv(priority: seq<int>)
    requires HDD_TASK < |priority|
    ensures JointInv(JointStart(priority))
  {
    StartInv(|priority|);
    BootInv(priority);
  }

  /** In every run of tasks and kernel together, under any scheduling: task states and kernel state
      agree, the kernel's invariant and the tasks' hold, no kernel call asserts or stops, and every
      caller of get_ticks is told a time between its request and its answer. */
  lemma JointRunKeeps(states: seq<Joint>, moves: seq<JointMove>, priority: seq<int>, k: nat)
    requires JointRun(states, moves, priority) && k < |states|
    ensures WorldInv(states[k].w) && CoreInv(states[k].s) && states[k].s.net == states[k].w.net
    ensures forall call :: call in states[k].calls ==> call.asked <= call.value <= call.answered
    ensures forall move :: Enabled(states[k].w, move) && Running(states[k].w, states[k].s, move) && !Inside(move) ==>
      && EntryOf(states[k].w, move).InRange(|states[k].s.net.status|)
      && var o := Step(states[k].s, EntryOf(states[k].w, move)); o.Returns? || o.Spins?
  {
    JointStartInv(priority);
    forall j, jm, j' | JointStep(j, jm, j') && JointInv(j) ensures JointInv(j') {
      JointKeeps(j, jm, j');
    }
    Along(JointStep, JointInv, states, moves, k);
    var w, s := states[k].w, states[k].s;
    forall move | Enabled(w, move) && Running(w, s, move) && !Inside(move)
      ensures EntryOf(w, move).InRange(|s.net.status|)
      ensures Step(s, EntryOf(w, move)).Returns? || Step(s, EntryOf(w, move)).Spins?
    {
      MoveIsStep(w, s, move);
    }
    assert forall i :: 0 <= i < |states[k].calls| ==> Timely(states[k].calls[i]);
  }

  /** A kernel call that another task than c can make now. */
  ghost predicate CallOf(j: Joint, move: Move, c: nat) {
    Shaped(j.w) && Enabled(j.w, move) && Running(j.w, j.s, move) && !Inside(move) && c != Mover(move)
  }

  /** While a client with a positive priority computes, no call of another task and no clock
      interrupt leaves the scheduler spinning. */
  lemma JointRunNeverSpins(states: seq<Joint>, moves: seq<JointMove>, priority: seq<int>, k: nat, c: nat)
    requires JointRun(states, moves, priority) && k < |states| && c < |states[k].w.pc| && states[k].w.pc[c].Idle?
    requires c < |states[k].s.sched.priority| && states[k].s.sched.priority[c] > 0
    ensures CoreInv(states[k].s)
    ensures forall move :: CallOf(states[k], move, c) ==>
      && EntryOf(states[k].w, move).InRange(|states[k].s.net.status|)
      && Step(states[k].s, EntryOf(states[k].w, move)).Returns?
    ensures forall reentrant :: Step(states[k].s, ClockTick(reentrant)).Returns?
  {
    JointRunKeeps(states, moves, priority, k);
    var w, s := states[k].w, states[k].s;
    forall move | CallOf(states[k], move, c)
      ensures EntryOf(w, move).InRange(|s.net.status|) && Step(s, EntryOf(w, move)).Returns?
    {
      CallReturns(w, s, move, c);
    }
    forall reentrant ensures Step(s, ClockTick(reentrant)).Returns? {
      TickReturns(w, s, reentrant, c);
    }
  }
}
