/** Every request of the closed system is answered: while one is out some task can go on with it,
    and unless somebody keeps asking, going on comes to an end. */
module ClosedProgress {
  import opened Wrappers
  import opened Rendezvous
  import opened NetInvariant
  import opened Runs
  import opened ClosedSystem
  import opened ClosedInvariant

  /** A move that goes on with what there is: anything but a client's new request. */
  predicate GoesOn(move: Move) { !move.Ask? }

  ghost predicate CanGoOn(w: World)
    requires |w.pc| == |w.net.status| && HDD_TASK < |w.pc|
  {
    exists move :: GoesOn(move) && Enabled(w, move)
  }

  // ---------------------------------------------------------------- somebody can go on

  /** A task past sending its request collects the reply or is blocked waiting for it. */
  lemma CollectorGoesOn(w: World, p: nat)
    requires WorldInv(w) && p < |w.pc| && ServerOf(w.pc[p]).Some? && w.net.status[p].Ready?
    ensures CanGoOn(w)
  {
    assert LocalOk(p, w.pc[p], w.net.status[p]);
    assert Enabled(w, if w.pc[p].Asking? then CollectReply(p) else CollectPoll);
  }

  /** The client of a server that is blocked replying is free to collect. */
  lemma ReplyingGoesOn(w: World, s: nat)
    requires WorldInv(w) && s < |w.pc| && w.pc[s].Replying?
    ensures CanGoOn(w)
  {
    var c := w.pc[s].client;
    assert HeldOk(w, s, c);
    assert LocalOk(s, w.pc[s], w.net.status[s]) && LocalOk(c, w.pc[c], w.net.status[c]);
    assert w.net.SendsTo(s, c) && !w.net.WaitsFor(c, s);
    CollectorGoesOn(w, c);
  }

  lemma SystemGoesOn(w: World)
    requires WorldInv(w)
    requires ClientOf(w.pc[SYSTEM_TASK]).Some? || (w.pc[SYSTEM_TASK].Listening? && w.net.status[SYSTEM_TASK].Ready?)
    ensures CanGoOn(w)
  {
    var pc := w.pc[SYSTEM_TASK];
    assert LocalOk(SYSTEM_TASK, pc, w.net.status[SYSTEM_TASK]);
    if pc.Replying? {
      ReplyingGoesOn(w, SYSTEM_TASK);
    } else {
      assert Enabled(w, if pc.Listening? then Listen(SYSTEM_TASK) else if pc.Serving? then ReadTicks(0)
                        else Reply(SYSTEM_TASK, EMPTY_BODY.(i1 := pc.value)));
    }
  }

  /** A server somebody's request is still on its way to is not blocked listening. */
  lemma NotDeaf(w: World, p: nat, s: nat)
    requires WorldInv(w) && w.net.SendsTo(p, s) && ServerOf(w.pc[p]) == Some(s)
    ensures s < |w.pc| && IsServer(s)
    ensures ClientOf(w.pc[s]).Some? || (w.pc[s].Listening? && w.net.status[s].Ready?)
  {
    assert LocalOk(p, w.pc[p], w.net.status[p]) && LocalOk(s, w.pc[s], w.net.status[s]);
    assert !w.net.WaitsFor(s, p);
  }

  lemma OfSystemGoesOn(w: World, p: nat)
    requires WorldInv(w) && p < |w.pc| && ServerOf(w.pc[p]) == Some(SYSTEM_TASK)
    ensures CanGoOn(w)
  {
    assert LocalOk(p, w.pc[p], w.net.status[p]);
    if w.net.status[p].Ready? {
      CollectorGoesOn(w, p);
    } else {
      if w.net.status[p].Sending? { NotDeaf(w, p, SYSTEM_TASK); } else { assert OutOk(w, p, SYSTEM_TASK); }
      SystemGoesOn(w);
    }
  }

  lemma DiskGoesOn(w: World)
    requires WorldInv(w)
    requires ClientOf(w.pc[HDD_TASK]).Some? || (w.pc[HDD_TASK].Listening? && w.net.status[HDD_TASK].Ready?)
    ensures CanGoOn(w)
  {
    var pc := w.pc[HDD_TASK];
    assert LocalOk(HDD_TASK, pc, w.net.status[HDD_TASK]);
    if pc.Replying? {
      ReplyingGoesOn(w, HDD_TASK);
    } else if pc.PollAsking? || pc.PollAwaiting? {
      OfSystemGoesOn(w, HDD_TASK);
    } else if pc.Serving? {
      PlanExists(pc.kind);
      var plan :| PlanFor(pc.kind, plan);
      assert Enabled(w, Begin(plan));
    } else {
      assert Enabled(w, if pc.Listening? then Listen(HDD_TASK) else if pc.Commanded? then AwaitDevice
                        else if pc.AwaitingDevice? then DeviceRaises
                        else if NextIs(pc, AskTicks) then Poll(EMPTY_BODY)
                        else if NextIs(pc, GiveCommand) then Command else Reply(HDD_TASK, EMPTY_BODY));
    }
  }

  lemma PlanExists(kind: int)
    ensures exists plan :: PlanFor(kind, plan)
  {
    var one := [AskTicks, AskTicks, GiveCommand];
    assert one[2].GiveCommand?;
    assert PlanFor(kind, if kind == MSG_DEV_OPEN || Transfers(kind) then one else []);
  }

  /** While a task's request is out, some task can take it further. */
  lemma Progress(w: World, p: nat)
    requires WorldInv(w) && p < |w.pc| && ServerOf(w.pc[p]).Some?
    ensures CanGoOn(w)
  {
    assert LocalOk(p, w.pc[p], w.net.status[p]);
    var s := ServerOf(w.pc[p]).value;
    if s == SYSTEM_TASK {
      OfSystemGoesOn(w, p);
    } else if w.net.status[p].Ready? {
      CollectorGoesOn(w, p);
    } else {
      if w.net.status[p].Sending? { NotDeaf(w, p, s); } else { assert OutOk(w, p, s); }
      DiskGoesOn(w);
    }
  }

  // ---------------------------------------------------------------- going on comes to an end

  /** How many moves a task may still make on what it has taken up, when no plan is longer than
      b: six for each step of a plan, which may be a whole get_ticks. */
  function Work(s: Side, b: nat): nat {
    match s.pc
    case Idle => 0
    case Asking(server) => if s.st.Sending? then AskWork(server, b) else 2
    case Awaiting(_) => 1
    case Listening => if s.st.Ready? then 1 else 0
    case Serving(_, kind) => if kind == MSG_GET_TICKS then 3 else 4 + 6 * b
    case Answering(_, _) => 2
    case Replying(_) => 1
    case Working(_, _, plan) => 3 + 6 * |plan|
    case PollAsking(_, _, plan) => (if s.st.Sending? then 8 else 5) + 6 * |plan|
    case PollAwaiting(_, _, plan) => 4 + 6 * |plan|
    case Commanded(_, plan) => 4 + 6 * |plan|
    case AwaitingDevice(_, plan) => 3 + 6 * |plan|
    case Failed => 0
  }

  function AskWork(server: nat, b: nat): nat {
    if server == SYSTEM_TASK then 5 else 6 + 6 * b
  }

  function WorkUpTo(w: World, b: nat, n: nat): nat
    requires Shaped(w) && n <= |w.pc|
  {
    if n == 0 then 0 else WorkUpTo(w, b, n - 1) + Work(SideOf(w, n - 1), b)
  }

  function Measure(w: World, b: nat): nat
    requires Shaped(w)
  {
    WorkUpTo(w, b, |w.pc|) + if w.armed then 1 else 0
  }

  lemma {:induction false} WorkTwo(w: World, w': World, x: nat, sx: Side, y: nat, sy: Side, b: nat, n: nat)
    requires Becomes(w, w', x, sx, y, sy) && n <= |w.pc|
    ensures WorkUpTo(w', b, n) == WorkUpTo(w, b, n)
      + (if x < n then Work(sx, b) - Work(SideOf(w, x), b) else 0)
      + (if y < n then Work(sy, b) - Work(SideOf(w, y), b) else 0)
  {
    if n > 0 {
      WorkTwo(w, w', x, sx, y, sy, b, n - 1);
      assert n - 1 != x && n - 1 != y ==> SideOf(w', n - 1) == SideOf(w, n - 1);
    }
  }

  lemma {:induction false} WorkOne(w: World, w': World, h: nat, b: nat, n: nat)
    requires OnlyOne(w, w', h) && n <= |w.pc|
    ensures WorkUpTo(w', b, n) == WorkUpTo(w, b, n)
      + (if h < n then Work(SideOf(w', h), b) - Work(SideOf(w, h), b) else 0)
  {
    if n > 0 {
      WorkOne(w, w', h, b, n - 1);
    }
  }

  /** No plan is longer than b. */
  predicate Within(move: Move, b: nat) {
    move.Begin? ==> |move.plan| <= b
  }

  /** What a move does to the measure: a new request costs so much, and every other move makes it
      less. */
  predicate Spends(move: Move, b: nat, before: nat, after: nat) {
    if GoesOn(move) then after < before else after <= before + 6 + 6 * b
  }

  lemma MeasureTwo(w: World, w': World, x: nat, sx: Side, y: nat, sy: Side, b: nat)
    requires Becomes(w, w', x, sx, y, sy)
    ensures Measure(w', b) ==
      Measure(w, b) + Work(sx, b) - Work(SideOf(w, x), b) + Work(sy, b) - Work(SideOf(w, y), b)
  {
    WorkTwo(w, w', x, sx, y, sy, b, |w.pc|);
  }

  lemma RequestCosts(w: World, p: nat, s: nat, m: Msg, next: Pc, b: nat)
    requires Shaped(w) && IsRequest(w, p, s, m, next) && LocalOk(s, w.pc[s], w.net.status[s])
    requires w.net.WaitsFor(s, p) ==> w.pc[s].Listening?
    ensures var before := Work(SideOf(w, p), b) + Work(SideOf(w, s), b);
      var after := Work(Asked(w, p, s, m, next), b) + Work(AskedBy(w, p, s, m), b);
      if w.pc[p].Idle? then after <= before + 6 + 6 * b else after < before
  {
  }

  lemma RequestSpends(w: World, p: nat, s: nat, m: Msg, next: Pc, b: nat)
    requires Tasks(w) && IsRequest(w, p, s, m, next)
    ensures var w' := RequestMove(w, p, s, m, next);
      Shaped(w') && if w.pc[p].Idle? then Measure(w', b) <= Measure(w, b) + 6 + 6 * b else Measure(w', b) < Measure(w, b)
  {
    RequestMoved(w, p, s, m, next);
    assert LocalOk(s, w.pc[s], w.net.status[s]);
    RequestCosts(w, p, s, m, next, b);
    MeasureTwo(w, RequestMove(w, p, s, m, next), p, Asked(w, p, s, m, next), s, AskedBy(w, p, s, m), b);
  }

  lemma ReplyGains(w: World, s: nat, c: nat, m: Msg, b: nat)
    requires Shaped(w) && IsReply(w, s, c) && LocalOk(c, w.pc[c], w.net.status[c]) && HeldOk(w, s, c)
    ensures Work(Replied(w, s, c, m), b) + Work(RepliedTo(w, s, c, m), b) < Work(SideOf(w, s), b) + Work(SideOf(w, c), b)
  {
  }

  lemma ReplySpends(w: World, s: nat, c: nat, m: Msg, b: nat)
    requires Tasks(w) && IsReply(w, s, c)
    ensures var w' := SendMove(w, s, c, m, Listening, Replying(c)); Shaped(w') && Measure(w', b) < Measure(w, b)
  {
    ReplyMoved(w, s, c, m);
    assert LocalOk(c, w.pc[c], w.net.status[c]);
    ReplyGains(w, s, c, m, b);
    MeasureTwo(w, SendMove(w, s, c, m, Listening, Replying(c)), s, Replied(w, s, c, m), c, RepliedTo(w, s, c, m), b);
  }

  lemma CollectGains(w: World, p: nat, s: nat, stuck: Pc, b: nat)
    requires Shaped(w) && IsCollect(w, p, s, stuck) && s < |w.pc|
    requires w.net.SendsTo(s, p) ==> w.pc[s].Replying?
    ensures Work(Collected(w, p, s, stuck), b) + Work(CollectedFrom(w, p, s), b) < Work(SideOf(w, p), b) + Work(SideOf(w, s), b)
  {
  }

  lemma CollectSpends(w: World, p: nat, s: nat, stuck: Pc, b: nat)
    requires Tasks(w) && QueuesExact(w.net) && IsCollect(w, p, s, stuck)
    ensures var w' := ReceiveMove(w, p, Task(s), stuck); Shaped(w') && Measure(w', b) < Measure(w, b)
  {
    CollectHolds(w, p, s, stuck);
    CollectMoved(w, p, s, stuck);
    CollectGains(w, p, s, stuck, b);
    MeasureTwo(w, ReceiveMove(w, p, Task(s), stuck), p, Collected(w, p, s, stuck), s, CollectedFrom(w, p, s), b);
  }

  lemma ListenGains(w: World, s: nat, q: nat, b: nat)
    requires Shaped(w) && QueuesInRange(w.net) && IsListen(w, s, q) && LocalOk(q, w.pc[q], w.net.status[q])
    requires IsServer(s)
    ensures Work(Listened(w, s), b) + Work(ListenedTo(w, s, q), b) < Work(SideOf(w, s), b) + Work(SideOf(w, q), b)
  {
  }

  lemma ListenSpends(w: World, s: nat, b: nat)
    requires WorldInv(w) && s < |w.pc| && w.pc[s].Listening? && w.net.status[s].Ready?
    ensures var w' := ReceiveMove(w, s, AnySource, Listening); Shaped(w') && Measure(w', b) < Measure(w, b)
  {
    ListenFinds(w, s);
    var q := Heard(w, s);
    ListenMoved(w, s, q);
    assert LocalOk(s, w.pc[s], w.net.status[s]) && LocalOk(q, w.pc[q], w.net.status[q]);
    ListenGains(w, s, q, b);
    MeasureTwo(w, ReceiveMove(w, s, AnySource, Listening), s, Listened(w, s), q, ListenedTo(w, s, q), b);
  }

  predicate Alone(move: Move) {
    move.ReadTicks? || move.Begin? || move.Command? || move.AwaitDevice? || move.DeviceRaises?
  }

  lemma MeasureOne(w: World, w': World, h: nat, b: nat)
    requires OnlyOne(w, w', h)
    ensures Measure(w', b) - Burden(w', h, b) == Measure(w, b) - Burden(w, h, b)
  {
    WorkOne(w, w', h, b, |w.pc|);
  }

  lemma AloneMoved(w: World, move: Move)
    requires Shaped(w) && QueuesInRange(w.net) && Enabled(w, move) && Alone(move)
    ensures OnlyOne(w, Apply(w, move), if move.ReadTicks? then SYSTEM_TASK else HDD_TASK)
  {
  }

  function Burden(w: World, h: nat, b: nat): nat
    requires Shaped(w) && h < |w.pc|
  {
    Work(SideOf(w, h), b) + if w.armed then 1 else 0
  }

  lemma AloneGains(w: World, move: Move, b: nat)
    requires Shaped(w) && QueuesInRange(w.net) && Enabled(w, move) && Alone(move) && Shaped(Apply(w, move)) && Within(move, b)
    requires !w.net.SendsTo(HDD_TASK, HDD_TASK)
    requires LocalOk(HDD_TASK, w.pc[HDD_TASK], w.net.status[HDD_TASK]) && DeviceOk(w.pc[HDD_TASK], w.armed, w.net.pending[HDD_TASK])
    requires LocalOk(SYSTEM_TASK, w.pc[SYSTEM_TASK], w.net.status[SYSTEM_TASK])
    ensures var h := if move.ReadTicks? then SYSTEM_TASK else HDD_TASK;
      Burden(Apply(w, move), h, b) < Burden(w, h, b)
  {
  }

  lemma AloneSpends(w: World, move: Move, b: nat)
    requires WorldInv(w) && Enabled(w, move) && Alone(move) && Within(move, b)
    ensures Shaped(Apply(w, move)) && Measure(Apply(w, move), b) < Measure(w, b)
  {
    var h := if move.ReadTicks? then SYSTEM_TASK else HDD_TASK;
    AloneMoved(w, move);
    assert LocalOk(HDD_TASK, w.pc[HDD_TASK], w.net.status[HDD_TASK]);
    assert LocalOk(SYSTEM_TASK, w.pc[SYSTEM_TASK], w.net.status[SYSTEM_TASK]);
    AloneGains(w, move, b);
    MeasureOne(w, Apply(w, move), h, b);
  }

  lemma PollSpends(w: World, body: Body, b: nat)
    requires WorldInv(w) && Enabled(w, Poll(body))
    ensures Shaped(Apply(w, Poll(body))) && Measure(Apply(w, Poll(body)), b) < Measure(w, b)
  {
    var h := w.pc[HDD_TASK];
    RequestSpends(w, HDD_TASK, SYSTEM_TASK, Msg(HDD_TASK, MSG_GET_TICKS, body), PollAsking(h.client, h.kind, h.plan[1..]), b);
  }

  lemma MoveSpends(w: World, move: Move, b: nat)
    requires WorldInv(w) && Enabled(w, move) && Clean(move) && Within(move, b)
    ensures Shaped(Apply(w, move)) && Spends(move, b, Measure(w, b), Measure(Apply(w, move), b))
  {
    match move
    case Ask(p, s, kind, body) => RequestSpends(w, p, s, Msg(p, kind, body), Asking(s), b);
    case CollectReply(p) => CollectSpends(w, p, w.pc[p].server, Awaiting(w.pc[p].server), b);
    case Listen(s) => ListenSpends(w, s, b);
    case Reply(s, body) =>
      ReplyIsSafe(w, s);
      ReplySpends(w, s, w.pc[s].client, ReplyMsg(s, w.pc[s], body), b);
    case Poll(body) => PollSpends(w, body, b);
    case CollectPoll =>
      var h := w.pc[HDD_TASK];
      CollectSpends(w, HDD_TASK, SYSTEM_TASK, PollAwaiting(h.client, h.kind, h.plan), b);
    case _ => AloneSpends(w, move, b);
  }

  // ---------------------------------------------------------------- plans stay within their bound

  function PlanOf(pc: Pc): seq<DiskStep> {
    match pc
    case Working(_, _, plan) => plan
    case PollAsking(_, _, plan) => plan
    case PollAwaiting(_, _, plan) => plan
    case Commanded(_, plan) => plan
    case AwaitingDevice(_, plan) => plan
    case _ => []
  }

  ghost predicate PlansWithin(w: World, b: nat) {
    WorldInv(w) && forall p :: 0 <= p < |w.pc| ==> |PlanOf(w.pc[p])| <= b
  }

  lemma TwoWithin(w: World, w': World, x: nat, sx: Side, y: nat, sy: Side, b: nat)
    requires PlansWithin(w, b) && Becomes(w, w', x, sx, y, sy) && WorldInv(w')
    requires |PlanOf(sx.pc)| <= b && |PlanOf(sy.pc)| <= b
    ensures PlansWithin(w', b)
  {
    forall p | 0 <= p < |w'.pc| ensures |PlanOf(w'.pc[p])| <= b {
      assert SideOf(w', p) == if p == x then sx else if p == y then sy else SideOf(w, p);
    }
  }

  lemma OneWithin(w: World, w': World, h: nat, b: nat)
    requires PlansWithin(w, b) && OnlyOne(w, w', h) && WorldInv(w') && |PlanOf(w'.pc[h])| <= b
    ensures PlansWithin(w', b)
  {
  }

  lemma RequestWithin(w: World, p: nat, s: nat, m: Msg, next: Pc, b: nat)
    requires PlansWithin(w, b) && IsRequest(w, p, s, m, next) && WorldInv(RequestMove(w, p, s, m, next))
    ensures PlansWithin(RequestMove(w, p, s, m, next), b)
  {
    RequestMoved(w, p, s, m, next);
    TwoWithin(w, RequestMove(w, p, s, m, next), p, Asked(w, p, s, m, next), s, AskedBy(w, p, s, m), b);
  }

  lemma ReplyWithin(w: World, s: nat, c: nat, m: Msg, b: nat)
    requires PlansWithin(w, b) && IsReply(w, s, c) && WorldInv(SendMove(w, s, c, m, Listening, Replying(c)))
    ensures PlansWithin(SendMove(w, s, c, m, Listening, Replying(c)), b)
  {
    ReplyMoved(w, s, c, m);
    TwoWithin(w, SendMove(w, s, c, m, Listening, Replying(c)), s, Replied(w, s, c, m), c, RepliedTo(w, s, c, m), b);
  }

  lemma CollectWithin(w: World, p: nat, s: nat, stuck: Pc, b: nat)
    requires PlansWithin(w, b) && IsCollect(w, p, s, stuck) && WorldInv(ReceiveMove(w, p, Task(s), stuck))
    ensures PlansWithin(ReceiveMove(w, p, Task(s), stuck), b)
  {
    CollectHolds(w, p, s, stuck);
    CollectMoved(w, p, s, stuck);
    TwoWithin(w, ReceiveMove(w, p, Task(s), stuck), p, Collected(w, p, s, stuck), s, CollectedFrom(w, p, s), b);
  }

  lemma ListenWithin(w: World, s: nat, b: nat)
    requires PlansWithin(w, b) && s < |w.pc| && w.pc[s].Listening? && w.net.status[s].Ready?
    requires WorldInv(ReceiveMove(w, s, AnySource, Listening))
    ensures PlansWithin(ReceiveMove(w, s, AnySource, Listening), b)
  {
    ListenFinds(w, s);
    var q := Heard(w, s);
    ListenMoved(w, s, q);
    TwoWithin(w, ReceiveMove(w, s, AnySource, Listening), s, Listened(w, s), q, ListenedTo(w, s, q), b);
  }

  lemma AlonePlan(w: World, move: Move, b: nat)
    requires Shaped(w) && QueuesInRange(w.net) && Enabled(w, move) && Alone(move) && Within(move, b)
    requires !w.net.SendsTo(HDD_TASK, HDD_TASK) && LocalOk(SYSTEM_TASK, w.pc[SYSTEM_TASK], w.net.status[SYSTEM_TASK])
    requires |PlanOf(w.pc[HDD_TASK])| <= b && Shaped(Apply(w, move))
    ensures |PlanOf(Apply(w, move).pc[if move.ReadTicks? then SYSTEM_TASK else HDD_TASK])| <= b
  {
  }

  lemma AloneWithin(w: World, move: Move, b: nat)
    requires PlansWithin(w, b) && Enabled(w, move) && Alone(move) && Within(move, b) && WorldInv(Apply(w, move))
    ensures PlansWithin(Apply(w, move), b)
  {
    AloneMoved(w, move);
    assert LocalOk(SYSTEM_TASK, w.pc[SYSTEM_TASK], w.net.status[SYSTEM_TASK]);
    assert LocalOk(HDD_TASK, w.pc[HDD_TASK], w.net.status[HDD_TASK]);
    AlonePlan(w, move, b);
    OneWithin(w, Apply(w, move), if move.ReadTicks? then SYSTEM_TASK else HDD_TASK, b);
  }

  lemma PollWithin(w: World, body: Body, b: nat)
    requires PlansWithin(w, b) && Enabled(w, Poll(body)) && WorldInv(Apply(w, Poll(body)))
    ensures PlansWithin(Apply(w, Poll(body)), b)
  {
    var h := w.pc[HDD_TASK];
    RequestWithin(w, HDD_TASK, SYSTEM_TASK, Msg(HDD_TASK, MSG_GET_TICKS, body), PollAsking(h.client, h.kind, h.plan[1..]), b);
  }

  lemma MoveWithin(w: World, move: Move, b: nat)
    requires PlansWithin(w, b) && Enabled(w, move) && Clean(move) && Within(move, b) && WorldInv(Apply(w, move))
    ensures PlansWithin(Apply(w, move), b)
  {
    match move
    case Ask(p, s, kind, body) => RequestWithin(w, p, s, Msg(p, kind, body), Asking(s), b);
    case CollectReply(p) => CollectWithin(w, p, w.pc[p].server, Awaiting(w.pc[p].server), b);
    case Listen(s) => ListenWithin(w, s, b);
    case Reply(s, body) =>
      ReplyIsSafe(w, s);
      ReplyWithin(w, s, w.pc[s].client, ReplyMsg(s, w.pc[s], body), b);
    case Poll(body) => PollWithin(w, body, b);
    case CollectPoll =>
      var h := w.pc[HDD_TASK];
      CollectWithin(w, HDD_TASK, SYSTEM_TASK, PollAwaiting(h.client, h.kind, h.plan), b);
    case _ => AloneWithin(w, move, b);
  }

  lemma SideBound(s: Side, b: nat)
    requires |PlanOf(s.pc)| <= b
    ensures Work(s, b) <= 8 + 6 * b
  {
  }

  lemma {:induction false} WorkBound(w: World, b: nat, n: nat)
    requires PlansWithin(w, b) && n <= |w.pc|
    ensures WorkUpTo(w, b, n) <= (8 + 6 * b) * n
  {
    if n > 0 {
      WorkBound(w, b, n - 1);
      assert |PlanOf(w.pc[n - 1])| <= b;
      SideBound(SideOf(w, n - 1), b);
      assert (8 + 6 * b) * n == (8 + 6 * b) * (n - 1) + (8 + 6 * b);
    }
  }

  // ---------------------------------------------------------------- over runs

  predicate AllWithin(moves: seq<Move>, b: nat) {
    forall i :: 0 <= i < |moves| ==> Within(moves[i], b)
  }

  /** The new requests among the moves from k to j. */
  function NewIn(moves: seq<Move>, k: nat, j: nat): nat
    requires k <= j <= |moves|
    decreases j
  {
    if j == k then 0 else NewIn(moves, k, j - 1) + if GoesOn(moves[j - 1]) then 0 else 1
  }

  ghost predicate AllSpend(moves: seq<Move>, b: nat, measures: seq<nat>) {
    && |measures| == |moves| + 1
    && (forall i {:trigger moves[i]} :: 0 <= i < |moves| ==> Spends(moves[i], b, measures[i], measures[i + 1]))
  }

  lemma {:induction false} SpendingAddsUp(moves: seq<Move>, b: nat, measures: seq<nat>, k: nat, j: nat)
    requires AllSpend(moves, b, measures) && k <= j <= |moves|
    ensures (j - k) - NewIn(moves, k, j) + measures[j] <= measures[k] + (6 + 6 * b) * NewIn(moves, k, j)
    decreases j
  {
    if k < j {
      SpendingAddsUp(moves, b, measures, k, j - 1);
      assert Spends(moves[j - 1], b, measures[j - 1], measures[j]);
      var before := NewIn(moves, k, j - 1);
      assert (6 + 6 * b) * (before + 1) == (6 + 6 * b) * before + (6 + 6 * b);
    }
  }

  ghost predicate BoundedStep(w: World, move: Move, w': World, b: nat) {
    CleanStep(w, move, w') && Within(move, b)
  }

  lemma NextWithin(w: World, move: Move, w': World, b: nat)
    requires PlansWithin(w, b) && BoundedStep(w, move, w', b)
    ensures PlansWithin(w', b) && Spends(move, b, Measure(w, b), Measure(w', b))
  {
    MoveKeeps(w, move);
    MoveWithin(w, move, b);
    MoveSpends(w, move, b);
  }

  lemma RunWithin(states: seq<World>, moves: seq<Move>, b: nat, k: nat)
    requires Run(states, moves) && CleanMoves(moves) && AllWithin(moves, b) && k < |states|
    ensures PlansWithin(states[k], b)
  {
    StartInv(|states[0].pc|);
    forall w, move, w' | BoundedStep(w, move, w', b) && PlansWithin(w, b) ensures PlansWithin(w', b) {
      NextWithin(w, move, w', b);
    }
    Along((w, move, w') => BoundedStep(w, move, w', b), w => PlansWithin(w, b), states, moves, k);
  }

  ghost function MeasureOf(w: World, b: nat): nat {
    if Shaped(w) then Measure(w, b) else 0
  }

  lemma SpendsAt(states: seq<World>, moves: seq<Move>, b: nat, i: nat)
    requires Run(states, moves) && CleanMoves(moves) && AllWithin(moves, b) && i < |moves|
    ensures Spends(moves[i], b, MeasureOf(states[i], b), MeasureOf(states[i + 1], b))
  {
    RunWithin(states, moves, b, i);
    NextWithin(states[i], moves[i], states[i + 1], b);
  }

  /** In every run, the moves that go on with things are bounded by the requests that are made. */
  lemma GoingOnEnds(states: seq<World>, moves: seq<Move>, b: nat, k: nat, j: nat)
    requires Run(states, moves) && CleanMoves(moves) && AllWithin(moves, b) && k <= j <= |moves|
    ensures WorldInv(states[k]) && WorldInv(states[j])
    ensures (j - k) - NewIn(moves, k, j) + Measure(states[j], b) <= Measure(states[k], b) + (6 + 6 * b) * NewIn(moves, k, j)
  {
    var measures := seq(|states|, i requires 0 <= i < |states| => MeasureOf(states[i], b));
    forall i {:trigger moves[i]} | 0 <= i < |moves| ensures Spends(moves[i], b, measures[i], measures[i + 1]) {
      SpendsAt(states, moves, b, i);
    }
    SpendingAddsUp(moves, b, measures, k, j);
    RunInv(states, moves, k);
    RunInv(states, moves, j);
  }

  predicate NoNewRequest(moves: seq<Move>, k: nat, j: nat)
    requires k <= j <= |moves|
  {
    forall i :: k <= i < j ==> GoesOn(moves[i])
  }

  lemma {:induction false} NothingNew(moves: seq<Move>, k: nat, j: nat)
    requires k <= j <= |moves| && NoNewRequest(moves, k, j)
    ensures NewIn(moves, k, j) == 0
    decreases j
  {
    if k < j { NothingNew(moves, k, j - 1); }
  }

  /** From any state of any run on, if no client makes a new request, then after so many moves
      nobody can go on, and by then every request that was out has had exactly one answer. Opens
      included: their polls, commands and interrupts are among the moves. */
  lemma EveryRequestAnswered(states: seq<World>, moves: seq<Move>, b: nat, k: nat, j: nat, p: nat)
    requires Run(states, moves) && CleanMoves(moves) && AllWithin(moves, b)
    requires k <= j <= |moves| && NoNewRequest(moves, k, j) && p < |states[k].pc|
    ensures j - k <= (8 + 6 * b) * |states[k].pc| + 1
    ensures Shaped(states[k]) && Shaped(states[j]) && |states[j].pc| == |states[k].pc|
    ensures !IsServer(p) ==> states[j].asked[p] == states[k].asked[p]
    ensures !CanGoOn(states[j]) ==> states[j].answered[p] == states[j].asked[p]
  {
    NothingNew(moves, k, j);
    GoingOnEnds(states, moves, b, k, j);
    RunWithin(states, moves, b, k);
    WorkBound(states[k], b, |states[k].pc|);
    NothingAsked(states, moves, k, j);
    if !CanGoOn(states[j]) {
      AllAnswered(states[j]);
    }
  }

  lemma AllAnswered(w: World)
    requires WorldInv(w) && !CanGoOn(w)
    ensures forall p :: 0 <= p < |w.pc| ==> w.answered[p] == w.asked[p]
  {
    forall p | 0 <= p < |w.pc| ensures w.answered[p] == w.asked[p] {
      assert CountOk(w, p);
      if ServerOf(w.pc[p]).Some? { Progress(w, p); }
    }
  }

  ghost predicate GoingOnStep(w: World, move: Move, w': World) {
    OneMove(w, move, w') && GoesOn(move)
  }

  /** No client has asked: the disk task's polls are the only new requests. */
  ghost predicate SameAsked(w: World, n: nat, asked: seq<nat>) {
    Shaped(w) && |w.pc| == n == |asked| && forall p :: 0 <= p < n && !IsServer(p) ==> w.asked[p] == asked[p]
  }

  lemma NothingAsked(states: seq<World>, moves: seq<Move>, k: nat, j: nat)
    requires Run(states, moves) && k <= j <= |moves| && NoNewRequest(moves, k, j) && Shaped(states[k])
    ensures SameAsked(states[j], |states[k].pc|, states[k].asked)
  {
    var n, asked := |states[k].pc|, states[k].asked;
    var some, between := states[k..j + 1], moves[k..j];
    forall i {:trigger between[i]} | 0 <= i < |between| ensures GoingOnStep(some[i], between[i], some[i + 1]) {
      assert between[i] == moves[k + i] && some[i] == states[k + i] && some[i + 1] == states[k + i + 1];
    }
    forall w, move, w' | GoingOnStep(w, move, w') && SameAsked(w, n, asked) ensures SameAsked(w', n, asked) {
      AskedStays(w, move, w');
    }
    Along(GoingOnStep, w => SameAsked(w, n, asked), some, between, j - k);
  }

  lemma AskedStays(w: World, move: Move, w': World)
    requires GoingOnStep(w, move, w')
    ensures SameAsked(w', |w.pc|, w.asked)
  {
  }

  // ---------------------------------------------------------------- a finish is always open

  ghost predicate NobodyWaits(w: World) {
    Shaped(w) && forall p :: 0 <= p < |w.pc| ==> w.answered[p] == w.asked[p]
  }

  /** Whatever plans the disk task makes. */
  type Planner = World -> seq<DiskStep>

  ghost predicate Plans(f: Planner, b: nat) {
    forall w: World :: HDD_TASK < |w.pc| && w.pc[HDD_TASK].Serving? ==>
      PlanFor(w.pc[HDD_TASK].kind, f(w)) && |f(w)| <= b
  }

  ghost predicate PlannedStep(f: Planner, w: World, move: Move, w': World) {
    GoingOnStep(w, move, w') && (move.Begin? ==> move.plan == f(w))
  }

  /** Some moves lead to a state in which nobody waits. */
  ghost predicate Finishes(f: Planner, w: World, states: seq<World>, moves: seq<Move>) {
    Path((v, move, v') => PlannedStep(f, v, move, v'), states, moves) && states[0] == w && NobodyWaits(states[|moves|])
  }

  /** From every state, and whatever plans the disk task makes, some moves without new requests
      answer everybody. */
  lemma CanFinish(w: World, f: Planner, b: nat)
    requires WorldInv(w) && Plans(f, b)
    ensures exists states, moves :: Finishes(f, w, states, moves) && |moves| <= Measure(w, b)
  {
    var states, moves := Finish(w, f, b);
  }

  lemma {:induction false} Finish(w: World, f: Planner, b: nat) returns (states: seq<World>, moves: seq<Move>)
    requires WorldInv(w) && Plans(f, b)
    ensures Finishes(f, w, states, moves) && |moves| <= Measure(w, b)
    decreases Measure(w, b)
  {
    if CanGoOn(w) {
      var move := GoOn(w, f, b);
      var states1, moves1 := Finish(Apply(w, move), f, b);
      Longer((v, m, v') => PlannedStep(f, v, m, v'), w, move, states1, moves1);
      states, moves := [w] + states1, [move] + moves1;
    } else {
      AllAnswered(w);
      states, moves := [w], [];
    }
  }

  lemma GoOn(w: World, f: Planner, b: nat) returns (move: Move)
    requires WorldInv(w) && CanGoOn(w) && Plans(f, b)
    ensures GoesOn(move) && Enabled(w, move) && WorldInv(Apply(w, move)) && Measure(Apply(w, move), b) < Measure(w, b)
    ensures PlannedStep(f, w, move, Apply(w, move))
  {
    move :| GoesOn(move) && Enabled(w, move);
    if move.Begin? { move := Begin(f(w)); }
    MoveKeeps(w, move);
    MoveSpends(w, move, b);
  }
}
