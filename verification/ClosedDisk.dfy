/** What the disk task does between taking a request and replying to it, read off a run from
    outside: its place in the program before and after each move, and the moves themselves. */
module ClosedDisk {
  import opened Wrappers
  import opened Rendezvous
  import opened NetInvariant
  import opened Runs
  import opened ClosedSystem
  import opened ClosedInvariant

  // ---------------------------------------------------------------- an observer

  /** Since the request in hand was taken: its kind, the calls of get_ticks that were answered, all
      of them and those since the last command, the commands, the interrupts the disk raised, and
      those the task received; and whether every command came after two answered calls. */
  datatype Tally = Tally(kind: int, polls: nat, recent: nat, commands: nat, raised: nat, received: nat, spaced: bool)

  /** A request taken: the task was listening and now serves. */
  predicate Takes(h: Pc, h': Pc) { h.Listening? && h'.Serving? }

  /** A call of get_ticks answered. */
  predicate PollAnswered(h: Pc, h': Pc) { (h.PollAsking? || h.PollAwaiting?) && !h'.PollAsking? && !h'.PollAwaiting? }

  /** An awaited interrupt received. */
  predicate InterruptReceived(h: Pc, h': Pc) {
    (h.Commanded? || h.AwaitingDevice?) && !h'.Commanded? && !h'.AwaitingDevice?
  }

  /** The kind of the request that is taken: that of the message just sent, or of the one its sender
      was blocked on. */
  function TakenKind(w: World, move: Move, h': Pc): int {
    if move.Ask? then move.kind
    else if h'.Serving? && h'.client < |w.net.status| && w.net.status[h'.client].Sending? then w.net.status[h'.client].msg.kind
    else 0
  }

  function Count(t: Tally, h: Pc, move: Move, h': Pc, kind: int): Tally {
    if Takes(h, h') then Tally(kind, 0, 0, 0, 0, 0, true)
    else
      var answered := if PollAnswered(h, h') then 1 else 0;
      t.(polls := t.polls + answered,
         recent := if move.Command? then 0 else t.recent + answered,
         commands := t.commands + (if move.Command? then 1 else 0),
         raised := t.raised + (if move.DeviceRaises? then 1 else 0),
         received := t.received + (if InterruptReceived(h, h') then 1 else 0),
         spaced := t.spaced && (move.Command? ==> t.recent >= 2))
  }

  datatype Watched = Watched(w: World, t: Tally)

  ghost predicate WatchedStep(v: Watched, move: Move, v': Watched) {
    && CleanStep(v.w, move, v'.w) && HDD_TASK < |v.w.pc| && HDD_TASK < |v'.w.pc|
    && v'.t == Count(v.t, v.w.pc[HDD_TASK], move, v'.w.pc[HDD_TASK], TakenKind(v.w, move, v'.w.pc[HDD_TASK]))
  }

  const NOTHING := Tally(MSG_DEV_CLOSE, 0, 0, 0, 0, 0, true)

  ghost predicate WatchedRun(states: seq<Watched>, moves: seq<Move>) {
    && |states| == |moves| + 1
    && HDD_TASK < |states[0].w.pc| && states[0] == Watched(Start(|states[0].w.pc|), NOTHING)
    && (forall i {:trigger moves[i]} :: 0 <= i < |moves| ==> WatchedStep(states[i], moves[i], states[i + 1]))
  }

  // ---------------------------------------------------------------- the plan and the tally agree

  /** Every command left in the plan has two polls before it, counting those already answered. */
  predicate SpacedAfter(plan: seq<DiskStep>, recent: nat) {
    forall i :: 0 <= i < |plan| && plan[i].GiveCommand? ==>
      && (i >= 1 ==> plan[i - 1].AskTicks?) && (i >= 2 ==> plan[i - 2].AskTicks?) && i + recent >= 2
  }

  predicate EndsWithCommand(plan: seq<DiskStep>) {
    plan != [] ==> plan[|plan| - 1].GiveCommand?
  }

  /** All commands given so far have been answered by an interrupt that the task received. */
  predicate Settled(t: Tally) {
    t.commands == t.raised == t.received
  }

  predicate OpenOk(plan: seq<DiskStep>, recent: nat, t: Tally) {
    t.kind == MSG_DEV_OPEN && SpacedAfter(plan, recent) && EndsWithCommand(plan) && (plan == [] ==> t.commands > 0)
  }

  predicate Idle(t: Tally) {
    t.commands == 0 && t.polls == 0 && t.recent == 0 && Settled(t)
  }

  /** The tally against the place of the disk task. */
  predicate TallyOk(h: Pc, t: Tally, pending: bool) {
    && t.spaced && 2 * t.commands + t.recent <= t.polls
    && match h
       case Serving(_, kind) => t.kind == kind && Idle(t)
       case Working(_, kind, plan) =>
         t.kind == kind && Settled(t) && if kind == MSG_DEV_OPEN then OpenOk(plan, t.recent, t) else plan == [] && Idle(t)
       case PollAsking(_, kind, plan) => Settled(t) && OpenOk(plan, t.recent + 1, t) && kind == MSG_DEV_OPEN && plan != []
       case PollAwaiting(_, kind, plan) => Settled(t) && OpenOk(plan, t.recent + 1, t) && kind == MSG_DEV_OPEN && plan != []
       case Commanded(_, plan) =>
         OpenOk(plan, 0, t) && t.recent == 0 && t.commands == t.received + 1 && t.raised == t.received + if pending then 1 else 0
       case AwaitingDevice(_, plan) =>
         OpenOk(plan, 0, t) && t.recent == 0 && t.commands == t.received + 1 && t.raised == t.received
       case _ => Settled(t)
  }

  ghost predicate WatchedInv(v: Watched) {
    WorldInv(v.w) && TallyOk(v.w.pc[HDD_TASK], v.t, v.w.net.pending[HDD_TASK])
  }

  // ---------------------------------------------------------------- what a move does to the disk task

  /** Moves of others: the disk task stays where it is, or is given what it waits for. */
  predicate Elsewise(h: Pc, h': Pc) {
    || h' == h
    || (h.Listening? && h'.Serving?)
    || (h.PollAwaiting? && h' == Working(h.client, h.kind, h.plan))
    || (h.Replying? && h'.Listening?)
  }

  lemma TwoElsewise(w: World, w': World, a: nat, sa: Side, b: nat, sb: Side)
    requires Becomes(w, w', a, sa, b, sb)
    ensures w'.pc[HDD_TASK] == if a == HDD_TASK then sa.pc else if b == HDD_TASK then sb.pc else w.pc[HDD_TASK]
    ensures w'.net.pending == w.net.pending
  {
    assert SideOf(w', HDD_TASK) == if a == HDD_TASK then sa else if b == HDD_TASK then sb else SideOf(w, HDD_TASK);
  }

  lemma AskDisk(w: World, p: nat, s: nat, m: Msg)
    requires Tasks(w) && IsRequest(w, p, s, m, Asking(s)) && w.pc[p].Idle?
    ensures var w' := RequestMove(w, p, s, m, Asking(s));
      Shaped(w') && Elsewise(w.pc[HDD_TASK], w'.pc[HDD_TASK]) && w'.net.pending == w.net.pending
    ensures var h' := RequestMove(w, p, s, m, Asking(s)).pc[HDD_TASK]; Takes(w.pc[HDD_TASK], h') ==> h'.kind == m.kind
  {
    assert LocalOk(p, w.pc[p], w.net.status[p]);
    RequestMoved(w, p, s, m, Asking(s));
    TwoElsewise(w, RequestMove(w, p, s, m, Asking(s)), p, Asked(w, p, s, m, Asking(s)), s, AskedBy(w, p, s, m));
  }

  lemma PollDisk(w: World, m: Msg, next: Pc)
    requires Tasks(w) && IsRequest(w, HDD_TASK, SYSTEM_TASK, m, next) && !w.pc[HDD_TASK].Idle?
    ensures var w' := RequestMove(w, HDD_TASK, SYSTEM_TASK, m, next);
      Shaped(w') && w'.pc[HDD_TASK] == next && w'.net.pending == w.net.pending
  {
    RequestMoved(w, HDD_TASK, SYSTEM_TASK, m, next);
    TwoElsewise(w, RequestMove(w, HDD_TASK, SYSTEM_TASK, m, next), HDD_TASK, Asked(w, HDD_TASK, SYSTEM_TASK, m, next),
                SYSTEM_TASK, AskedBy(w, HDD_TASK, SYSTEM_TASK, m));
  }

  lemma ReplyDisk(w: World, s: nat, c: nat, m: Msg)
    requires Tasks(w) && IsReply(w, s, c)
    ensures var w', h := SendMove(w, s, c, m, Listening, Replying(c)), w.pc[HDD_TASK];
      && Shaped(w') && w'.net.pending == w.net.pending
      && if s == HDD_TASK then w'.pc[HDD_TASK].Listening? || w'.pc[HDD_TASK].Replying? else Elsewise(h, w'.pc[HDD_TASK])
    ensures !Takes(w.pc[HDD_TASK], SendMove(w, s, c, m, Listening, Replying(c)).pc[HDD_TASK])
  {
    ReplyMoved(w, s, c, m);
    assert LocalOk(s, w.pc[s], w.net.status[s]) && LocalOk(c, w.pc[c], w.net.status[c]);
    TwoElsewise(w, SendMove(w, s, c, m, Listening, Replying(c)), s, Replied(w, s, c, m), c, RepliedTo(w, s, c, m));
  }

  lemma CollectDisk(w: World, p: nat, s: nat, stuck: Pc)
    requires Tasks(w) && QueuesExact(w.net) && IsCollect(w, p, s, stuck)
    ensures var w', h := ReceiveMove(w, p, Task(s), stuck), w.pc[HDD_TASK];
      && Shaped(w') && w'.net.pending == w.net.pending
      && if p == HDD_TASK then h.PollAsking? && (w'.pc[HDD_TASK] == stuck || w'.pc[HDD_TASK] == Working(h.client, h.kind, h.plan))
         else Elsewise(h, w'.pc[HDD_TASK])
    ensures !Takes(w.pc[HDD_TASK], ReceiveMove(w, p, Task(s), stuck).pc[HDD_TASK])
  {
    assert LocalOk(p, w.pc[p], w.net.status[p]);
    CollectHolds(w, p, s, stuck);
    CollectMoved(w, p, s, stuck);
    TwoElsewise(w, ReceiveMove(w, p, Task(s), stuck), p, Collected(w, p, s, stuck), s, CollectedFrom(w, p, s));
  }

  /** Task q is blocked on a request of this kind. */
  predicate Asks(w: World, q: nat, kind: int) {
    q < |w.net.status| && w.net.status[q].Sending? && w.net.status[q].msg.kind == kind
  }

  lemma ListenDisk(w: World, s: nat)
    requires WorldInv(w) && s < |w.pc| && w.pc[s].Listening? && w.net.status[s].Ready?
    ensures var w' := ReceiveMove(w, s, AnySource, Listening);
      Shaped(w') && Elsewise(w.pc[HDD_TASK], w'.pc[HDD_TASK]) && w'.net.pending == w.net.pending
    ensures var h' := ReceiveMove(w, s, AnySource, Listening).pc[HDD_TASK];
      Takes(w.pc[HDD_TASK], h') ==> Asks(w, h'.client, h'.kind)
  {
    ListenFinds(w, s);
    var q := Heard(w, s);
    ListenMoved(w, s, q);
    TwoElsewise(w, ReceiveMove(w, s, AnySource, Listening), s, Listened(w, s), q, ListenedTo(w, s, q));
  }

  // ---------------------------------------------------------------- the tally through a move

  /** A move by which the disk task only goes on or is given what it waits for. */
  lemma ElsewiseCounts(h: Pc, h': Pc, t: Tally, move: Move, pending: bool, kind: int)
    requires TallyOk(h, t, pending) && Elsewise(h, h') && !move.Command? && !move.DeviceRaises?
    requires Takes(h, h') ==> kind == h'.kind
    ensures TallyOk(h', Count(t, h, move, h', kind), pending)
  {
  }

  lemma PollCounts(h: Pc, t: Tally, move: Move, pending: bool, kind: int)
    requires TallyOk(h, t, pending) && NextIs(h, AskTicks) && h.kind == MSG_DEV_OPEN && move.Poll?
    ensures var h' := PollAsking(h.client, h.kind, h.plan[1..]); TallyOk(h', Count(t, h, move, h', kind), pending)
  {
    var plan := h.plan[1..];
    assert forall i :: 0 <= i < |plan| ==> plan[i] == h.plan[i + 1];
    assert plan != [] by { assert h.plan[|h.plan| - 1].GiveCommand?; }
    forall i | 0 <= i < |plan| && plan[i].GiveCommand?
      ensures (i >= 1 ==> plan[i - 1].AskTicks?) && (i >= 2 ==> plan[i - 2].AskTicks?) && i + (t.recent + 1) >= 2
    {
      assert h.plan[i + 1].GiveCommand?;
    }
  }

  lemma CommandCounts(h: Pc, t: Tally, move: Move, pending: bool, kind: int)
    requires TallyOk(h, t, pending) && NextIs(h, GiveCommand) && h.kind == MSG_DEV_OPEN && move.Command? && !pending
    ensures var h' := Commanded(h.client, h.plan[1..]); TallyOk(h', Count(t, h, move, h', kind), pending)
  {
    var plan := h.plan[1..];
    assert forall i :: 0 <= i < |plan| ==> plan[i] == h.plan[i + 1];
    assert h.plan[0].GiveCommand? && t.recent >= 2;
    forall i | 0 <= i < |plan| && plan[i].GiveCommand?
      ensures (i >= 1 ==> plan[i - 1].AskTicks?) && (i >= 2 ==> plan[i - 2].AskTicks?) && i + 0 >= 2
    {
      assert h.plan[i + 1].GiveCommand?;
    }
  }

  lemma BeginCounts(h: Pc, t: Tally, plan: seq<DiskStep>, pending: bool, kind: int)
    requires TallyOk(h, t, pending) && h.Serving? && PlanFor(h.kind, plan) && !Transfers(h.kind)
    ensures var h' := Working(h.client, h.kind, plan); TallyOk(h', Count(t, h, Begin(plan), h', kind), pending)
  {
  }

  lemma CollectCounts(h: Pc, h': Pc, t: Tally, move: Move, pending: bool, kind: int)
    requires TallyOk(h, t, pending) && h.PollAsking? && h.kind == MSG_DEV_OPEN && !move.Command? && !move.DeviceRaises?
    requires h' == Working(h.client, h.kind, h.plan) || h' == PollAwaiting(h.client, h.kind, h.plan)
    ensures TallyOk(h', Count(t, h, move, h', kind), pending)
  {
  }

  lemma AwaitCounts(h: Pc, h': Pc, t: Tally, move: Move, pending: bool, kind: int)
    requires TallyOk(h, t, pending) && h.Commanded? && move.AwaitDevice?
    requires h' == if pending then Working(h.client, MSG_DEV_OPEN, h.plan) else AwaitingDevice(h.client, h.plan)
    ensures TallyOk(h', Count(t, h, move, h', kind), false)
  {
  }

  lemma RaiseCounts(h: Pc, h': Pc, t: Tally, move: Move, pending: bool, kind: int)
    requires TallyOk(h, t, pending) && move.DeviceRaises? && ((h.Commanded? && !pending) || h.AwaitingDevice?)
    requires h' == if h.AwaitingDevice? then Working(h.client, MSG_DEV_OPEN, h.plan) else h
    ensures TallyOk(h', Count(t, h, move, h', kind), h.Commanded?)
  {
  }

  lemma ReplyCounts(h: Pc, h': Pc, t: Tally, move: Move, pending: bool, kind: int)
    requires TallyOk(h, t, pending) && h.Working? && (h'.Listening? || h'.Replying?) && move.Reply?
    ensures TallyOk(h', Count(t, h, move, h', kind), pending)
  {
  }

  lemma DeviceMoves(w: World, move: Move, t: Tally, kind: int)
    requires WorldInv(w) && Enabled(w, move) && (move.AwaitDevice? || move.DeviceRaises?) && Shaped(Apply(w, move))
    requires TallyOk(w.pc[HDD_TASK], t, w.net.pending[HDD_TASK])
    ensures var w' := Apply(w, move);
      TallyOk(w'.pc[HDD_TASK], Count(t, w.pc[HDD_TASK], move, w'.pc[HDD_TASK], kind), w'.net.pending[HDD_TASK])
  {
    var h, w' := w.pc[HDD_TASK], Apply(w, move);
    assert LocalOk(HDD_TASK, h, w.net.status[HDD_TASK]) && DeviceOk(h, w.armed, w.net.pending[HDD_TASK]);
    FoundSender(w.net, HDD_TASK, Interrupt);
    if move.AwaitDevice? {
      AwaitCounts(h, w'.pc[HDD_TASK], t, move, w.net.pending[HDD_TASK], kind);
    } else {
      RaiseCounts(h, w'.pc[HDD_TASK], t, move, w.net.pending[HDD_TASK], kind);
    }
  }

  lemma OwnMoves(w: World, move: Move, t: Tally, kind: int)
    requires WorldInv(w) && Enabled(w, move) && (move.Begin? || move.Poll? || move.Command? || move.CollectPoll?)
    requires TallyOk(w.pc[HDD_TASK], t, w.net.pending[HDD_TASK])
    ensures var w' := Apply(w, move);
      && Shaped(w')
      && TallyOk(w'.pc[HDD_TASK], Count(t, w.pc[HDD_TASK], move, w'.pc[HDD_TASK], kind), w'.net.pending[HDD_TASK])
  {
    var h, pending := w.pc[HDD_TASK], w.net.pending[HDD_TASK];
    assert LocalOk(HDD_TASK, h, w.net.status[HDD_TASK]) && DeviceOk(h, w.armed, pending);
    if move.Begin? {
      BeginCounts(h, t, move.plan, pending, kind);
    } else if move.Poll? {
      PollDisk(w, Msg(HDD_TASK, MSG_GET_TICKS, move.body), PollAsking(h.client, h.kind, h.plan[1..]));
      PollCounts(h, t, move, pending, kind);
    } else if move.Command? {
      CommandCounts(h, t, move, pending, kind);
    } else {
      CollectDisk(w, HDD_TASK, SYSTEM_TASK, PollAwaiting(h.client, h.kind, h.plan));
      CollectCounts(h, Apply(w, move).pc[HDD_TASK], t, move, pending, kind);
    }
  }

  lemma ReplyMoves(w: World, s: nat, body: Body, t: Tally, kind: int)
    requires WorldInv(w) && Enabled(w, Reply(s, body)) && TallyOk(w.pc[HDD_TASK], t, w.net.pending[HDD_TASK])
    ensures var w' := Apply(w, Reply(s, body));
      && Shaped(w')
      && TallyOk(w'.pc[HDD_TASK], Count(t, w.pc[HDD_TASK], Reply(s, body), w'.pc[HDD_TASK], kind), w'.net.pending[HDD_TASK])
  {
    ReplyIsSafe(w, s);
    var c, m := w.pc[s].client, ReplyMsg(s, w.pc[s], body);
    assert LocalOk(s, w.pc[s], w.net.status[s]);
    ReplyDisk(w, s, c, m);
    var h, h' := w.pc[HDD_TASK], Apply(w, Reply(s, body)).pc[HDD_TASK];
    if s == HDD_TASK { ReplyCounts(h, h', t, Reply(s, body), w.net.pending[HDD_TASK], kind); }
    else { ElsewiseCounts(h, h', t, Reply(s, body), w.net.pending[HDD_TASK], kind); }
  }

  /** Moves of the other tasks. */
  lemma OtherMoves(w: World, move: Move, t: Tally)
    requires WorldInv(w) && Enabled(w, move) && Clean(move)
    requires move.Ask? || move.CollectReply? || move.Listen? || move.ReadTicks?
    requires TallyOk(w.pc[HDD_TASK], t, w.net.pending[HDD_TASK])
    ensures var w' := Apply(w, move);
      && Shaped(w')
      && TallyOk(w'.pc[HDD_TASK], Count(t, w.pc[HDD_TASK], move, w'.pc[HDD_TASK], TakenKind(w, move, w'.pc[HDD_TASK])), w'.net.pending[HDD_TASK])
  {
    match move {
      case Ask(p, s, kind, body) => AskDisk(w, p, s, Msg(p, kind, body));
      case CollectReply(p) =>
        assert LocalOk(p, w.pc[p], w.net.status[p]);
        CollectDisk(w, p, w.pc[p].server, Awaiting(w.pc[p].server));
      case Listen(s) => ListenDisk(w, s);
      case _ =>
    }
    var h' := Apply(w, move).pc[HDD_TASK];
    ElsewiseCounts(w.pc[HDD_TASK], h', t, move, w.net.pending[HDD_TASK], TakenKind(w, move, h'));
  }

  lemma MoveCounts(v: Watched, move: Move, v': Watched)
    requires WatchedInv(v) && WatchedStep(v, move, v')
    ensures WatchedInv(v')
  {
    MoveKeeps(v.w, move);
    var kind := TakenKind(v.w, move, v'.w.pc[HDD_TASK]);
    match move
    case Reply(s, body) => ReplyMoves(v.w, s, body, v.t, kind);
    case Begin(_) => OwnMoves(v.w, move, v.t, kind);
    case Poll(_) => OwnMoves(v.w, move, v.t, kind);
    case Command => OwnMoves(v.w, move, v.t, kind);
    case CollectPoll => OwnMoves(v.w, move, v.t, kind);
    case AwaitDevice => DeviceMoves(v.w, move, v.t, kind);
    case DeviceRaises => DeviceMoves(v.w, move, v.t, kind);
    case _ => OtherMoves(v.w, move, v.t);
  }

  // ---------------------------------------------------------------- over runs

  lemma WatchedKeeps(states: seq<Watched>, moves: seq<Move>, k: nat)
    requires WatchedRun(states, moves) && k < |states|
    ensures WatchedInv(states[k])
  {
    StartInv(|states[0].w.pc|);
    forall v, move, v' | WatchedStep(v, move, v') && WatchedInv(v) ensures WatchedInv(v') {
      MoveCounts(v, move, v');
    }
    Along(WatchedStep, WatchedInv, states, moves, k);
  }

  /** In every run, when the disk task replies to a request it has taken: for an open it has given
      at least one command, the disk has raised one interrupt for each, the task has received each,
      and every command came after two answered calls of get_ticks; for a close or a request for
      the geometry it has called nobody and left the disk alone. */
  lemma WorkBeforeReply(states: seq<Watched>, moves: seq<Move>, k: nat, body: Body)
    requires WatchedRun(states, moves) && k < |moves| && moves[k] == Reply(HDD_TASK, body)
    ensures var t := states[k].t;
      && t.spaced && t.polls >= 2 * t.commands
      && t.commands == t.raised == t.received
      && (t.kind == MSG_DEV_OPEN ==> t.commands >= 1)
      && (t.kind == MSG_DEV_CLOSE || t.kind == MSG_DEV_IO_CONTROL ==> t.commands == 0 && t.polls == 0)
      && (t.kind == MSG_DEV_OPEN || t.kind == MSG_DEV_CLOSE || t.kind == MSG_DEV_IO_CONTROL)
  {
    WatchedKeeps(states, moves, k);
    assert WatchedStep(states[k], moves[k], states[k + 1]);
    var w := states[k].w;
    assert LocalOk(HDD_TASK, w.pc[HDD_TASK], w.net.status[HDD_TASK]);
  }

  /** And at every moment: an interrupt is received only after it was raised, and raised only after
      a command, one for one. */
  lemma InOrderOfThings(states: seq<Watched>, moves: seq<Move>, k: nat)
    requires WatchedRun(states, moves) && k < |states|
    ensures var t := states[k].t; t.received <= t.raised <= t.commands <= t.received + 1 && t.spaced
  {
    WatchedKeeps(states, moves, k);
  }

  function PcOf(w: World): Pc {
    if HDD_TASK < |w.pc| then w.pc[HDD_TASK] else Failed
  }

  function TallyAt(states: seq<World>, moves: seq<Move>, k: nat): Tally
    requires |states| == |moves| + 1 && k < |states|
  {
    if k == 0 then NOTHING
    else
      var h, h' := PcOf(states[k - 1]), PcOf(states[k]);
      Count(TallyAt(states, moves, k - 1), h, moves[k - 1], h', TakenKind(states[k - 1], moves[k - 1], h'))
  }

  function WatchedAll(states: seq<World>, moves: seq<Move>): (watched: seq<Watched>)
    requires |states| == |moves| + 1
    ensures |watched| == |states|
    ensures forall k :: 0 <= k < |states| ==> watched[k] == Watched(states[k], TallyAt(states, moves, k))
  {
    seq(|states|, k requires 0 <= k < |states| => Watched(states[k], TallyAt(states, moves, k)))
  }

  lemma WatchedAt(states: seq<World>, moves: seq<Move>, i: nat)
    requires Run(states, moves) && CleanMoves(moves) && i < |moves|
    ensures WatchedStep(Watched(states[i], TallyAt(states, moves, i)), moves[i],
                        Watched(states[i + 1], TallyAt(states, moves, i + 1)))
  {
    RunInv(states, moves, i);
    RunInv(states, moves, i + 1);
    assert OneMove(states[i], moves[i], states[i + 1]);
  }

  /** Every run of the closed system can be watched. */
  lemma CanBeWatched(states: seq<World>, moves: seq<Move>) returns (watched: seq<Watched>)
    requires Run(states, moves) && CleanMoves(moves)
    ensures WatchedRun(watched, moves) && forall k :: 0 <= k < |states| ==> watched[k].w == states[k]
  {
    watched := WatchedAll(states, moves);
    forall i {:trigger moves[i]} | 0 <= i < |moves| ensures WatchedStep(watched[i], moves[i], watched[i + 1]) {
      WatchedAt(states, moves, i);
    }
  }
}
