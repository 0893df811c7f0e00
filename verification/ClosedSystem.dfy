/** The shipped tasks run together: client tasks that ask the system task for the ticks or the
    disk task for a device operation, the two servers, and the disk raising an interrupt for a
    command. Every task is the program text seen as a state machine over its kernel calls; the
    kernel is the rendezvous state of Rendezvous. Any ready task may move, so what is proved holds
    whatever the scheduler picks. */
module ClosedSystem {
  import opened Wrappers
  import opened Rendezvous
  import opened WaitGraph
  import opened NetInvariant

  const SYSTEM_TASK: nat := 1
  const HDD_TASK: nat := 2
  const MSG_DEV_OPEN := 1001
  const MSG_DEV_CLOSE := 1002
  const MSG_DEV_READ := 1003
  const MSG_DEV_WRITE := 1004
  const MSG_DEV_IO_CONTROL := 1005

  predicate IsServer(p: nat) { p == SYSTEM_TASK || p == HDD_TASK }

  /** The kinds a server's switch knows; any other kind is its CRITICAL branch. */
  predicate Known(server: nat, kind: int) {
    if server == SYSTEM_TASK then kind == MSG_GET_TICKS
    else MSG_DEV_OPEN <= kind <= MSG_DEV_IO_CONTROL
  }

  /** A transfer gives the disk a command and never receives its interrupt: `hdd_interrupt_wait`
      is empty. */
  predicate Transfers(kind: int) { kind == MSG_DEV_READ || kind == MSG_DEV_WRITE }

  predicate Wanted(server: nat, kind: int) { Known(server, kind) && !Transfers(kind) }

  /** What the disk task does between taking a request and replying: calls of get_ticks, by which
      `get_status` measures time, and commands to the disk. */
  datatype DiskStep = AskTicks | GiveCommand

  /** Before every command the status is read until the disk is free: one call of get_ticks for the
      start time and at least one more. */
  predicate Spaced(plan: seq<DiskStep>) {
    forall i :: 0 <= i < |plan| && plan[i].GiveCommand? ==> i >= 2 && plan[i - 1].AskTicks? && plan[i - 2].AskTicks?
  }

  /** The work a request can take. An open identifies the disk and may read partition tables, each
      with a command, the last thing it does; a transfer gives one command, and a write goes on
      reading the status; the other two leave the disk alone. */
  predicate PlanFor(kind: int, plan: seq<DiskStep>) {
    Spaced(plan) &&
    if kind == MSG_DEV_OPEN then plan != [] && plan[|plan| - 1].GiveCommand?
    else if Transfers(kind) then
      && (exists k :: 0 <= k < |plan| && plan[k].GiveCommand?)
      && (forall i, k :: 0 <= i < k < |plan| ==> !(plan[i].GiveCommand? && plan[k].GiveCommand?))
      && (kind == MSG_DEV_READ ==> plan[|plan| - 1].GiveCommand?)
    else plan == []
  }

  /** Where a task is between two kernel calls, or in one. */
  datatype Pc =
    | Idle                           // a client computing
    | Asking(server: nat)            // request on its way; the next call receives the reply
    | Awaiting(server: nat)          // blocked receiving the reply
    | Listening                      // a server at, or blocked in, its receive from anybody
    | Serving(client: nat, kind: int)         // a server that has taken a request
    | Answering(client: nat, value: int)      // the system task with the ticks in its message
    | Replying(client: nat)                   // a server blocked sending its reply
    // the disk task, with what is left of its plan:
    | Working(client: nat, kind: int, plan: seq<DiskStep>)
    | PollAsking(client: nat, kind: int, plan: seq<DiskStep>)    // calling get_ticks
    | PollAwaiting(client: nat, kind: int, plan: seq<DiskStep>)
    | Commanded(client: nat, plan: seq<DiskStep>)        // an open that next awaits the interrupt
    | AwaitingDevice(client: nat, plan: seq<DiskStep>)   // blocked in that call
    | Failed                         // CRITICAL

  datatype World = World(net: Net, pc: seq<Pc>, armed: bool, asked: seq<nat>, answered: seq<nat>)

  /** The server a task has a request out with. */
  function ServerOf(pc: Pc): Option<nat> {
    match pc
    case Asking(s) => Some(s)
    case Awaiting(s) => Some(s)
    case PollAsking(_, _, _) => Some(SYSTEM_TASK)
    case PollAwaiting(_, _, _) => Some(SYSTEM_TASK)
    case _ => None
  }

  /** The task whose request a server has taken and not yet answered. */
  function ClientOf(pc: Pc): Option<nat> {
    match pc
    case Serving(c, _) => Some(c)
    case Answering(c, _) => Some(c)
    case Replying(c) => Some(c)
    case Working(c, _, _) => Some(c)
    case PollAsking(c, _, _) => Some(c)
    case PollAwaiting(c, _, _) => Some(c)
    case Commanded(c, _) => Some(c)
    case AwaitingDevice(c, _) => Some(c)
    case _ => None
  }

  predicate SendsRequest(st: Status, server: nat) {
    st.Sending? && st.dest == server && Wanted(server, st.msg.kind)
  }

  /** A task's place in its program agrees with what the kernel says of it. */
  predicate LocalOk(p: nat, pc: Pc, st: Status) {
    match pc
    case Idle => !IsServer(p) && st.Ready?
    case Asking(s) => !IsServer(p) && IsServer(s) && (st.Ready? || SendsRequest(st, s))
    case Awaiting(s) => !IsServer(p) && IsServer(s) && st == Receiving(Task(s))
    case Listening => IsServer(p) && (st.Ready? || st == Receiving(AnySource))
    case Serving(_, kind) => IsServer(p) && Wanted(p, kind) && st.Ready?
    case Answering(_, _) => p == SYSTEM_TASK && st.Ready?
    case Replying(c) => IsServer(p) && st.Sending? && st.dest == c
    case Working(_, kind, plan) =>
      p == HDD_TASK && st.Ready? && if plan == [] then Wanted(p, kind) else kind == MSG_DEV_OPEN
    case PollAsking(_, kind, _) => p == HDD_TASK && kind == MSG_DEV_OPEN && (st.Ready? || SendsRequest(st, SYSTEM_TASK))
    case PollAwaiting(_, kind, _) => p == HDD_TASK && kind == MSG_DEV_OPEN && st == Receiving(Task(SYSTEM_TASK))
    case Commanded(_, _) => p == HDD_TASK && st.Ready?
    case AwaitingDevice(_, _) => p == HDD_TASK && st == Receiving(Interrupt)
    case Failed => false
  }

  predicate DeviceOk(pc: Pc, armed: bool, pending: bool) {
    match pc
    case Commanded(_, _) => armed != pending
    case AwaitingDevice(_, _) => armed && !pending
    case _ => !armed && !pending
  }

  ghost predicate Shaped(w: World) {
    && w.net.Shaped()
    && |w.pc| == |w.asked| == |w.answered| == |w.net.status|
    && HDD_TASK < |w.pc|
  }

  /** A request is with its sender or with the server, never lost and never twice: a server holds
      only requests that are out, and every request that is out and not still being sent is held
      by the server asked. */
  ghost predicate Matched(w: World)
    requires Shaped(w)
  {
    && (forall s :: 0 <= s < |w.pc| && ClientOf(w.pc[s]).Some? ==> HeldOk(w, s, ClientOf(w.pc[s]).value))
    && (forall p :: 0 <= p < |w.pc| && ServerOf(w.pc[p]).Some? && !w.net.status[p].Sending? ==>
          OutOk(w, p, ServerOf(w.pc[p]).value))
  }

  /** The request of p that s holds is out, and p is past sending it. */
  ghost predicate HeldOk(w: World, s: nat, p: nat)
    requires Shaped(w)
  {
    p < |w.pc| && ServerOf(w.pc[p]) == Some(s) && !w.net.status[p].Sending?
  }

  ghost predicate OutOk(w: World, p: nat, s: nat)
    requires Shaped(w)
  {
    s < |w.pc| && ClientOf(w.pc[s]) == Some(p)
  }

  ghost predicate Counted(w: World)
    requires Shaped(w)
  {
    forall p :: 0 <= p < |w.pc| ==> CountOk(w, p)
  }

  predicate CountOk(w: World, p: nat)
    requires p < |w.pc| && p < |w.asked| && p < |w.answered|
  {
    w.asked[p] == w.answered[p] + (if ServerOf(w.pc[p]).Some? then 1 else 0)
  }

  ghost predicate AllLocal(w: World)
    requires Shaped(w)
  {
    forall p :: 0 <= p < |w.pc| ==> LocalOk(p, w.pc[p], w.net.status[p])
  }

  ghost predicate Disk(w: World)
    requires Shaped(w)
  {
    && (forall p :: 0 <= p < |w.pc| && p != HDD_TASK ==> !w.net.pending[p])
    && DeviceOk(w.pc[HDD_TASK], w.armed, w.net.pending[HDD_TASK])
  }

  ghost predicate Tasks(w: World) {
    Shaped(w) && AllLocal(w) && Matched(w) && Counted(w) && Disk(w)
  }

  ghost predicate WorldInv(w: World) {
    Tasks(w) && Inv(w.net)
  }

  // ---------------------------------------------------------------- moves

  datatype Move =
    | Ask(client: nat, server: nat, kind: int, body: Body)
    | CollectReply(client: nat)
    | Listen(server: nat)
    | ReadTicks(value: int)
    | Begin(plan: seq<DiskStep>)
    | Reply(server: nat, body: Body)
    | Poll(body: Body)
    | CollectPoll
    | Command
    | AwaitDevice
    | DeviceRaises

  /** Where a task goes when a message reaches it. */
  function AfterMessage(p: nat, pc: Pc, m: Msg): Pc {
    match pc
    case Awaiting(_) => Idle
    case Asking(_) => Idle
    case PollAwaiting(c, kind, plan) => Working(c, kind, plan)
    case PollAsking(c, kind, plan) => Working(c, kind, plan)
    case Listening => if m.source >= 0 && Known(p, m.kind) then Serving(m.source, m.kind) else Failed
    case _ => Failed
  }

  /** The number of answers p has got, after a message reaches it. */
  function AfterAnswer(pc: Pc, answered: nat): nat {
    if ServerOf(pc).Some? then answered + 1 else answered
  }

  /** Where the disk task goes when an interrupt message reaches it. */
  function AfterInterrupt(pc: Pc): Pc {
    match pc
    case Commanded(c, plan) => Working(c, MSG_DEV_OPEN, plan)
    case AwaitingDevice(c, plan) => Working(c, MSG_DEV_OPEN, plan)
    case _ => Failed
  }

  /** A command of an open is followed by the receive of its interrupt; one of a transfer is not. */
  function AfterCommand(pc: Pc): Pc {
    if !NextIs(pc, GiveCommand) then pc
    else if Transfers(pc.kind) then Working(pc.client, pc.kind, pc.plan[1..])
    else Commanded(pc.client, pc.plan[1..])
  }

  /** The system task sends the ticks it has read; the disk task sends its message back when its
      plan is done. */
  predicate MayReply(s: nat, pc: Pc, body: Body) {
    if s == SYSTEM_TASK then pc.Answering? && body.i1 == pc.value else pc.Working? && pc.plan == []
  }

  /** The disk task's next step. */
  predicate NextIs(pc: Pc, step: DiskStep) {
    pc.Working? && pc.plan != [] && pc.plan[0] == step
  }

  /** A reply is the request's message sent back. */
  function ReplyMsg(s: nat, pc: Pc, body: Body): Msg {
    Msg(s, if pc.Working? then pc.kind else MSG_GET_TICKS, body)
  }

  predicate Enabled(w: World, move: Move)
    requires |w.pc| == |w.net.status| && HDD_TASK < |w.pc|
  {
    match move
    case Ask(p, s, _, _) => p < |w.pc| && w.pc[p].Idle? && w.net.status[p].Ready? && IsServer(s)
    case CollectReply(p) => p < |w.pc| && w.pc[p].Asking? && w.net.status[p].Ready?
    case Listen(s) => s < |w.pc| && w.pc[s].Listening? && w.net.status[s].Ready?
    case ReadTicks(_) => w.pc[SYSTEM_TASK].Serving? && w.net.status[SYSTEM_TASK].Ready?
    case Reply(s, body) => s < |w.pc| && MayReply(s, w.pc[s], body) && w.net.status[s].Ready?
    case Begin(plan) =>
      w.pc[HDD_TASK].Serving? && w.net.status[HDD_TASK].Ready? && PlanFor(w.pc[HDD_TASK].kind, plan)
    case Poll(_) => NextIs(w.pc[HDD_TASK], AskTicks) && w.net.status[HDD_TASK].Ready?
    case CollectPoll => w.pc[HDD_TASK].PollAsking? && w.net.status[HDD_TASK].Ready?
    case Command => NextIs(w.pc[HDD_TASK], GiveCommand) && w.net.status[HDD_TASK].Ready?
    case AwaitDevice => w.pc[HDD_TASK].Commanded? && w.net.status[HDD_TASK].Ready?
    case DeviceRaises => w.armed
  }

  /** p sends m to d; `here` is p's next place when the message is taken at once, `stuck` when p
      blocks. */
  function SendMove(w: World, p: nat, d: nat, m: Msg, here: Pc, stuck: Pc): World
    requires Shaped(w) && p < |w.pc| && d < |w.pc|
  {
    if w.net.WaitsFor(d, p) then
      w.(net := SendNet(w.net, p, d, m),
         pc := w.pc[p := here][d := AfterMessage(d, w.pc[d], m)],
         answered := w.answered[d := AfterAnswer(w.pc[d], w.answered[d])])
    else
      w.(net := SendNet(w.net, p, d, m), pc := w.pc[p := stuck])
  }

  /** p asks s; wherever the message goes, p's next call receives the reply. */
  function RequestMove(w: World, p: nat, s: nat, m: Msg, next: Pc): World
    requires Shaped(w) && p < |w.pc| && s < |w.pc|
  {
    SendMove(w.(asked := w.asked[p := w.asked[p] + 1]), p, s, m, next, next)
  }

  /** Where the sender of a message goes when it is taken from its queue. */
  function AfterTaken(pc: Pc): Pc {
    if pc.Replying? then Listening else pc
  }

  /** r receives from src; `stuck` is its place while it blocks. */
  function ReceiveMove(w: World, r: nat, src: Source, stuck: Pc): World
    requires Shaped(w) && QueuesInRange(w.net) && r < |w.pc|
  {
    var net := RecvNet(w.net, r, src);
    match FindNet(w.net, r, src)
    case Hardware => w.(net := net, pc := w.pc[r := AfterInterrupt(w.pc[r])])
    case Sender(s, m) =>
      if s < |w.pc| then
        w.(net := net,
           pc := w.pc[s := AfterTaken(w.pc[s])][r := AfterMessage(r, w.pc[r], m)],
           answered := w.answered[r := AfterAnswer(w.pc[r], w.answered[r])])
      else w
    case Nothing => w.(net := net, pc := w.pc[r := stuck])
  }

  function Apply(w: World, move: Move): World
    requires Shaped(w) && QueuesInRange(w.net) && Enabled(w, move)
  {
    match move
    case Ask(p, s, kind, body) =>
      RequestMove(w, p, s, Msg(p, kind, body), Asking(s))
    case CollectReply(p) => ReceiveMove(w, p, Task(w.pc[p].server), Awaiting(w.pc[p].server))
    case Listen(s) => ReceiveMove(w, s, AnySource, Listening)
    case ReadTicks(value) => w.(pc := w.pc[SYSTEM_TASK := Answering(w.pc[SYSTEM_TASK].client, value)])
    case Begin(plan) =>
      var pc := w.pc[HDD_TASK];
      w.(pc := w.pc[HDD_TASK := Working(pc.client, pc.kind, plan)])
    case Reply(s, body) =>
      var c := w.pc[s].client;
      if c < |w.pc| then SendMove(w, s, c, ReplyMsg(s, w.pc[s], body), Listening, Replying(c)) else w
    case Poll(body) =>
      var pc := w.pc[HDD_TASK];
      RequestMove(w, HDD_TASK, SYSTEM_TASK, Msg(HDD_TASK, MSG_GET_TICKS, body), PollAsking(pc.client, pc.kind, pc.plan[1..]))
    case CollectPoll =>
      var pc := w.pc[HDD_TASK];
      ReceiveMove(w, HDD_TASK, Task(SYSTEM_TASK), PollAwaiting(pc.client, pc.kind, pc.plan))
    case Command =>
      var pc := w.pc[HDD_TASK];
      w.(pc := w.pc[HDD_TASK := AfterCommand(pc)], armed := true)
    case AwaitDevice =>
      var pc := w.pc[HDD_TASK];
      ReceiveMove(w, HDD_TASK, Interrupt, AwaitingDevice(pc.client, pc.plan))
    case DeviceRaises =>
      w.(net := RaiseNet(w.net, HDD_TASK), armed := false,
         pc := if w.net.WaitsForInterrupt(HDD_TASK) then w.pc[HDD_TASK := AfterInterrupt(w.pc[HDD_TASK])] else w.pc)
  }

  /** The deadlock check of the kernel fires on this move. */
  ghost predicate DeadlockFires(w: World, move: Move)
    requires |w.pc| == |w.net.status| && HDD_TASK < |w.pc| && Enabled(w, move)
  {
    match move
    case Ask(p, s, _, _) => Reaches(w.net, s, p)
    case Reply(s, _) => Reaches(w.net, w.pc[s].client, s)
    case Poll(_) => Reaches(w.net, SYSTEM_TASK, HDD_TASK)
    case _ => false
  }

  /** The move asks a server for nothing but what it can do and survive. */
  predicate Clean(move: Move) {
    move.Ask? ==> Wanted(move.server, move.kind)
  }

  // ---------------------------------------------------------------- runs

  /** All tasks at the start of their programs. */
  function Start(n: nat): World
    requires HDD_TASK < n
  {
    World(Initial(n), seq(n, i requires 0 <= i < n => if IsServer(i) then Listening else Idle), false, seq(n, _ => 0), seq(n, _ => 0))
  }

  ghost predicate Run(states: seq<World>, moves: seq<Move>) {
    && |states| == |moves| + 1
    && HDD_TASK < |states[0].pc| && states[0] == Start(|states[0].pc|)
    && (forall i {:trigger moves[i]} :: 0 <= i < |moves| ==> OneMove(states[i], moves[i], states[i + 1]))
  }

  ghost predicate OneMove(w: World, move: Move, w': World) {
    Shaped(w) && QueuesInRange(w.net) && Enabled(w, move) && w' == Apply(w, move)
  }
}
