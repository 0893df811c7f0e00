/** The invariant of the closed system, kept by every move. */
module ClosedInvariant {
  import opened Wrappers
  import opened Rendezvous
  import opened WaitGraph
  import opened NetInvariant
  import opened Runs
  import opened ClosedSystem

  // ---------------------------------------------------------------- the deadlock check

  /** A task with nobody sending to it cannot be reached. */
  lemma Unreached(net: Net, a: nat, p: nat)
    requires a != p && forall q :: !net.SendsTo(q, p)
    ensures !Reaches(net, a, p)
  {
    forall w ensures WalkBetween(net, w, a, p) ==> net.SendsTo(w[|w| - 2], p) {}
  }

  /** Who sends to whom: clients and the polling disk task to the server they ask, servers to the
      task they hold. */
  lemma WhoSends(w: World, q: nat, p: nat)
    requires WorldInv(w) && w.net.SendsTo(q, p)
    ensures (IsServer(p) && ServerOf(w.pc[q]) == Some(p)) ||
      (w.pc[q] == Replying(p) && HeldOk(w, q, p) && w.net.status[p].Ready?)
  {
    assert LocalOk(q, w.pc[q], w.net.status[q]);
    if w.pc[q].Replying? {
      assert HeldOk(w, q, p);
      assert LocalOk(p, w.pc[p], w.net.status[p]);
      assert !w.net.WaitsFor(p, q);
    }
  }

  lemma AskIsSafe(w: World, p: nat, s: nat)
    requires WorldInv(w) && p < |w.pc| && w.pc[p].Idle? && IsServer(s)
    ensures !Reaches(w.net, s, p)
  {
    assert LocalOk(p, w.pc[p], w.net.status[p]);
    forall q | w.net.SendsTo(q, p) ensures false {
      WhoSends(w, q, p);
    }
    Unreached(w.net, s, p);
  }

  lemma ReplyIsSafe(w: World, s: nat)
    requires WorldInv(w) && s < |w.pc| && (w.pc[s].Working? || w.pc[s].Answering?)
    ensures w.pc[s].client < |w.pc| && w.pc[s].client != s
    ensures !Reaches(w.net, w.pc[s].client, s)
  {
    var c := w.pc[s].client;
    assert HeldOk(w, s, c);
    assert LocalOk(c, w.pc[c], w.net.status[c]);
    WaitingIsFree(w.net, s, c);
  }

  lemma PollIsSafe(w: World)
    requires WorldInv(w) && NextIs(w.pc[HDD_TASK], AskTicks)
    ensures !Reaches(w.net, SYSTEM_TASK, HDD_TASK)
  {
    var st := w.net.status[SYSTEM_TASK];
    assert LocalOk(SYSTEM_TASK, w.pc[SYSTEM_TASK], st);
    assert Walk(w.net, [SYSTEM_TASK]);
    if st.Sending? {
      var x := st.dest;
      assert w.net.SendsTo(SYSTEM_TASK, x);
      WhoSends(w, SYSTEM_TASK, x);
      Extended(w.net, [SYSTEM_TASK], x);
      Complete(w.net, [SYSTEM_TASK] + [x], HDD_TASK);
      assert x != HDD_TASK;
    } else {
      Complete(w.net, [SYSTEM_TASK], HDD_TASK);
    }
  }

  /** The deadlock check never fires. */
  lemma NoDeadlock(w: World, move: Move)
    requires WorldInv(w) && Enabled(w, move)
    ensures !DeadlockFires(w, move)
  {
    match move
    case Ask(p, s, _, _) => AskIsSafe(w, p, s);
    case Reply(s, _) => ReplyIsSafe(w, s);
    case Poll(_) => PollIsSafe(w);
    case _ =>
  }

  // ---------------------------------------------------------------- two tasks move

  /** What a move can change about one task. */
  datatype Side = Side(pc: Pc, st: Status, asked: nat, answered: nat)

  function SideOf(w: World, p: nat): Side
    requires Shaped(w) && p < |w.pc|
  {
    Side(w.pc[p], w.net.status[p], w.asked[p], w.answered[p])
  }

  /** w' is w but for what becomes of tasks a and b. */
  ghost predicate Becomes(w: World, w': World, a: nat, sa: Side, b: nat, sb: Side) {
    && Shaped(w) && Shaped(w') && |w.pc| == |w'.pc| && a < |w.pc| && b < |w.pc| && a != b
    && (forall q :: 0 <= q < |w.pc| && q != a && q != b ==> SideOf(w', q) == SideOf(w, q))
    && SideOf(w', a) == sa && SideOf(w', b) == sb
    && w'.net.pending == w.net.pending && w'.armed == w.armed
  }

  predicate SideOk(p: nat, s: Side) {
    LocalOk(p, s.pc, s.st) && s.asked == s.answered + (if ServerOf(s.pc).Some? then 1 else 0)
  }

  /** The server that should hold a request of this task. */
  function Out(s: Side): Option<nat> {
    if s.st.Sending? then None else ServerOf(s.pc)
  }

  /** The dealings of a and b with each other match. */
  predicate Agree(a: nat, sa: Side, b: nat, sb: Side) {
    && (ClientOf(sa.pc) == Some(b) <==> Out(sb) == Some(a))
    && (ClientOf(sb.pc) == Some(a) <==> Out(sa) == Some(b))
  }

  /** From s to s' the dealings with all but `other` stay what they are, and so does the disk's
      task with the disk. */
  predicate Elsewhere(s: Side, s': Side, other: nat) {
    && (ClientOf(s.pc) == ClientOf(s'.pc)
        || (ClientOf(s.pc) in {None, Some(other)} && ClientOf(s'.pc) in {None, Some(other)}))
    && (Out(s) == Out(s') || (Out(s) in {None, Some(other)} && Out(s') in {None, Some(other)}))
    && (s'.pc == s.pc || (!AtDevice(s.pc) && !AtDevice(s'.pc)))
  }

  predicate AtDevice(pc: Pc) { pc.Commanded? || pc.AwaitingDevice? }

  /** A task's own number is not among those it deals with. */
  lemma NotItself(w: World, q: nat)
    requires Shaped(w) && AllLocal(w) && Matched(w) && q < |w.pc|
    ensures ClientOf(w.pc[q]) != Some(q) && ServerOf(w.pc[q]) != Some(q)
  {
    assert LocalOk(q, w.pc[q], w.net.status[q]);
    assert ClientOf(w.pc[q]) == Some(q) ==> HeldOk(w, q, q);
  }

  /** Every server's held requests and every task's outstanding request, as an equivalence. */
  ghost predicate Dealt(w: World)
    requires Shaped(w)
  {
    forall s, p :: 0 <= s < |w.pc| && 0 <= p < |w.pc| ==> PairDealt(w, s, p)
  }

  ghost predicate PairDealt(w: World, s: nat, p: nat)
    requires Shaped(w) && s < |w.pc| && p < |w.pc|
  {
    ClientOf(SideOf(w, s).pc) == Some(p) <==> Out(SideOf(w, p)) == Some(s)
  }

  lemma MatchedDealt(w: World)
    requires Shaped(w) && Matched(w)
    ensures Dealt(w)
  {
    forall s: nat, p: nat | s < |w.pc| && p < |w.pc| ensures PairDealt(w, s, p) {
      if ClientOf(w.pc[s]) == Some(p) { assert HeldOk(w, s, p); }
      if Out(SideOf(w, p)) == Some(s) { assert OutOk(w, p, s); }
    }
  }

  /** Whom a task deals with is a task. */
  ghost predicate InRange(w: World)
    requires Shaped(w)
  {
    forall q :: 0 <= q < |w.pc| ==> RangeOk(SideOf(w, q), |w.pc|)
  }

  predicate RangeOk(s: Side, n: nat) {
    && (ClientOf(s.pc).Some? ==> ClientOf(s.pc).value < n)
    && (Out(s).Some? ==> Out(s).value < n)
  }

  lemma DealtMatched(w: World)
    requires Shaped(w) && Dealt(w) && InRange(w)
    ensures Matched(w)
  {
    forall s | 0 <= s < |w.pc| && ClientOf(w.pc[s]).Some? ensures HeldOk(w, s, ClientOf(w.pc[s]).value) {
      assert RangeOk(SideOf(w, s), |w.pc|);
      assert PairDealt(w, s, ClientOf(w.pc[s]).value);
    }
    forall p | 0 <= p < |w.pc| && ServerOf(w.pc[p]).Some? && !w.net.status[p].Sending?
      ensures OutOk(w, p, ServerOf(w.pc[p]).value)
    {
      assert Out(SideOf(w, p)).Some?;
      assert RangeOk(SideOf(w, p), |w.pc|);
      assert PairDealt(w, ServerOf(w.pc[p]).value, p);
    }
  }

  lemma MatchedInRange(w: World)
    requires Shaped(w) && Matched(w)
    ensures InRange(w)
  {
    forall q | 0 <= q < |w.pc| ensures RangeOk(SideOf(w, q), |w.pc|) {
      if ClientOf(w.pc[q]).Some? { assert HeldOk(w, q, ClientOf(w.pc[q]).value); }
      if Out(SideOf(w, q)).Some? { assert OutOk(w, q, ServerOf(w.pc[q]).value); }
    }
  }

  ghost predicate GoodMove(w: World, w': World, a: nat, sa: Side, b: nat, sb: Side) {
    && Becomes(w, w', a, sa, b, sb) && SideOk(a, sa) && SideOk(b, sb) && Agree(a, sa, b, sb)
    && Elsewhere(SideOf(w, a), sa, b) && Elsewhere(SideOf(w, b), sb, a)
  }

  lemma MatchedAfter(w: World, w': World, a: nat, sa: Side, b: nat, sb: Side)
    requires Tasks(w) && GoodMove(w, w', a, sa, b, sb)
    ensures Matched(w')
  {
    MatchedDealt(w);
    MatchedInRange(w);
    NotItself(w, a);
    NotItself(w, b);
    forall s: nat, p: nat | s < |w.pc| && p < |w.pc| ensures PairDealt(w', s, p) {
      assert PairDealt(w, s, p);
    }
    forall q | 0 <= q < |w.pc| ensures RangeOk(SideOf(w', q), |w.pc|) {
      assert RangeOk(SideOf(w, q), |w.pc|);
    }
    DealtMatched(w');
  }

  lemma TasksAfter(w: World, w': World, a: nat, sa: Side, b: nat, sb: Side)
    requires Tasks(w) && GoodMove(w, w', a, sa, b, sb)
    ensures Tasks(w')
  {
    MatchedAfter(w, w', a, sa, b, sb);
    forall q | 0 <= q < |w.pc| ensures LocalOk(q, w'.pc[q], w'.net.status[q]) && CountOk(w', q) {
      assert SideOf(w', q) == if q == a then sa else if q == b then sb else SideOf(w, q);
      assert LocalOk(q, w.pc[q], w.net.status[q]) && CountOk(w, q);
    }
    assert SideOf(w', HDD_TASK).pc == w'.pc[HDD_TASK];
    assert w'.pc[HDD_TASK] == w.pc[HDD_TASK] || (!AtDevice(w.pc[HDD_TASK]) && !AtDevice(w'.pc[HDD_TASK]));
  }

  // ---------------------------------------------------------------- every move keeps the invariant

  /** The two requests a task can make: a client's, and the disk task's poll of the clock. */
  predicate IsRequest(w: World, p: nat, s: nat, m: Msg, next: Pc)
    requires |w.pc| == |w.net.status|
  {
    && p < |w.pc| && s < |w.pc| && w.net.status[p].Ready? && m.source == p && Wanted(s, m.kind) && IsServer(s)
    && ((w.pc[p].Idle? && next == Asking(s))
        || (p == HDD_TASK && s == SYSTEM_TASK && NextIs(w.pc[p], AskTicks)
            && next == PollAsking(w.pc[p].client, w.pc[p].kind, w.pc[p].plan[1..])))
  }

  /** What becomes of a task that asks, and of the server it asks. */
  function Asked(w: World, p: nat, s: nat, m: Msg, next: Pc): Side
    requires Shaped(w) && p < |w.pc|
  {
    Side(next, if w.net.WaitsFor(s, p) then Ready else Sending(s, m), w.asked[p] + 1, w.answered[p])
  }

  function AskedBy(w: World, p: nat, s: nat, m: Msg): Side
    requires Shaped(w) && s < |w.pc|
  {
    if w.net.WaitsFor(s, p) then Side(Serving(p, m.kind), Ready, w.asked[s], w.answered[s]) else SideOf(w, s)
  }

  lemma RequestMoved(w: World, p: nat, s: nat, m: Msg, next: Pc)
    requires Tasks(w) && IsRequest(w, p, s, m, next)
    ensures Becomes(w, RequestMove(w, p, s, m, next), p, Asked(w, p, s, m, next), s, AskedBy(w, p, s, m))
    ensures w.net.WaitsFor(s, p) ==> w.pc[s].Listening?
  {
    assert LocalOk(p, w.pc[p], w.net.status[p]) && LocalOk(s, w.pc[s], w.net.status[s]);
  }

  lemma RequestTasks(w: World, p: nat, s: nat, m: Msg, next: Pc)
    requires Tasks(w) && IsRequest(w, p, s, m, next)
    ensures Tasks(RequestMove(w, p, s, m, next))
  {
    RequestMoved(w, p, s, m, next);
    RequestSides(w, p, s, m, next);
    TasksAfter(w, RequestMove(w, p, s, m, next), p, Asked(w, p, s, m, next), s, AskedBy(w, p, s, m));
  }

  lemma RequestSides(w: World, p: nat, s: nat, m: Msg, next: Pc)
    requires Tasks(w) && IsRequest(w, p, s, m, next) && (w.net.WaitsFor(s, p) ==> w.pc[s].Listening?)
    ensures var sa, sb := Asked(w, p, s, m, next), AskedBy(w, p, s, m);
      && SideOk(p, sa) && SideOk(s, sb) && Agree(p, sa, s, sb)
      && Elsewhere(SideOf(w, p), sa, s) && Elsewhere(SideOf(w, s), sb, p)
  {
    assert LocalOk(p, w.pc[p], w.net.status[p]) && LocalOk(s, w.pc[s], w.net.status[s]);
    assert CountOk(w, p) && CountOk(w, s);
    MatchedDealt(w);
    assert PairDealt(w, s, p) && PairDealt(w, p, s);
  }

  predicate MayAnswer(s: nat, pc: Pc, c: nat) {
    (pc.Working? && pc.client == c) || (s == SYSTEM_TASK && pc.Answering? && pc.client == c)
  }

  /** What becomes of a server that replies, and of its client. */
  function Replied(w: World, s: nat, c: nat, m: Msg): Side
    requires Shaped(w) && s < |w.pc|
  {
    if w.net.WaitsFor(c, s) then Side(Listening, Ready, w.asked[s], w.answered[s])
    else Side(Replying(c), Sending(c, m), w.asked[s], w.answered[s])
  }

  function RepliedTo(w: World, s: nat, c: nat, m: Msg): Side
    requires Shaped(w) && c < |w.pc|
  {
    if w.net.WaitsFor(c, s) then Side(AfterMessage(c, w.pc[c], m), Ready, w.asked[c], w.answered[c] + 1)
    else SideOf(w, c)
  }

  predicate IsReply(w: World, s: nat, c: nat)
    requires |w.pc| == |w.net.status|
  {
    s < |w.pc| && MayAnswer(s, w.pc[s], c) && c < |w.pc| && c != s
  }

  lemma ReplyMoved(w: World, s: nat, c: nat, m: Msg)
    requires Tasks(w) && IsReply(w, s, c)
    ensures Becomes(w, SendMove(w, s, c, m, Listening, Replying(c)), s, Replied(w, s, c, m), c, RepliedTo(w, s, c, m))
    ensures HeldOk(w, s, c)
  {
    assert LocalOk(s, w.pc[s], w.net.status[s]) && LocalOk(c, w.pc[c], w.net.status[c]);
    assert HeldOk(w, s, c);
  }

  lemma ReplySides(w: World, s: nat, c: nat, m: Msg)
    requires Tasks(w) && IsReply(w, s, c) && HeldOk(w, s, c)
    ensures var sa, sb := Replied(w, s, c, m), RepliedTo(w, s, c, m);
      && SideOk(s, sa) && SideOk(c, sb) && Agree(s, sa, c, sb)
      && Elsewhere(SideOf(w, s), sa, c) && Elsewhere(SideOf(w, c), sb, s)
  {
    assert LocalOk(s, w.pc[s], w.net.status[s]) && LocalOk(c, w.pc[c], w.net.status[c]);
    assert CountOk(w, s) && CountOk(w, c);
    MatchedDealt(w);
    assert PairDealt(w, s, c) && PairDealt(w, c, s);
  }

  lemma ReplyTasks(w: World, s: nat, c: nat, m: Msg)
    requires Tasks(w) && IsReply(w, s, c)
    ensures Tasks(SendMove(w, s, c, m, Listening, Replying(c)))
  {
    ReplyMoved(w, s, c, m);
    ReplySides(w, s, c, m);
    TasksAfter(w, SendMove(w, s, c, m, Listening, Replying(c)), s, Replied(w, s, c, m), c, RepliedTo(w, s, c, m));
  }

  /** The reply p collects is that of the server it asked. */
  predicate IsCollect(w: World, p: nat, s: nat, stuck: Pc)
    requires |w.pc| == |w.net.status|
  {
    && p < |w.pc| && w.net.status[p].Ready?
    && ((w.pc[p] == Asking(s) && stuck == Awaiting(s))
        || (p == HDD_TASK && s == SYSTEM_TASK && w.pc[p].PollAsking?
            && stuck == PollAwaiting(w.pc[p].client, w.pc[p].kind, w.pc[p].plan)))
  }

  /** What becomes of a task that collects its reply, and of the server. */
  function Collected(w: World, p: nat, s: nat, stuck: Pc): Side
    requires Shaped(w) && p < |w.pc| && s < |w.pc|
  {
    if w.net.SendsTo(s, p) then
      Side(AfterMessage(p, w.pc[p], w.net.status[s].msg), Ready, w.asked[p], w.answered[p] + 1)
    else Side(stuck, Receiving(Task(s)), w.asked[p], w.answered[p])
  }

  function CollectedFrom(w: World, p: nat, s: nat): Side
    requires Shaped(w) && s < |w.pc|
  {
    if w.net.SendsTo(s, p) then Side(Listening, Ready, w.asked[s], w.answered[s]) else SideOf(w, s)
  }

  lemma CollectHolds(w: World, p: nat, s: nat, stuck: Pc)
    requires Tasks(w) && IsCollect(w, p, s, stuck)
    ensures OutOk(w, p, s) && p != s
    ensures w.net.SendsTo(s, p) ==> w.pc[s].Replying?
  {
    assert LocalOk(p, w.pc[p], w.net.status[p]);
    assert OutOk(w, p, s);
    assert LocalOk(s, w.pc[s], w.net.status[s]);
  }

  lemma CollectMoved(w: World, p: nat, s: nat, stuck: Pc)
    requires Tasks(w) && QueuesExact(w.net) && IsCollect(w, p, s, stuck)
    requires OutOk(w, p, s) && p != s && (w.net.SendsTo(s, p) ==> w.pc[s].Replying?)
    ensures Becomes(w, ReceiveMove(w, p, Task(s), stuck), p, Collected(w, p, s, stuck), s, CollectedFrom(w, p, s))
  {
  }

  lemma CollectSides(w: World, p: nat, s: nat, stuck: Pc)
    requires Tasks(w) && IsCollect(w, p, s, stuck)
    requires OutOk(w, p, s) && p != s && (w.net.SendsTo(s, p) ==> w.pc[s].Replying?)
    ensures var sa, sb := Collected(w, p, s, stuck), CollectedFrom(w, p, s);
      && SideOk(p, sa) && SideOk(s, sb) && Agree(p, sa, s, sb)
      && Elsewhere(SideOf(w, p), sa, s) && Elsewhere(SideOf(w, s), sb, p)
  {
    assert LocalOk(p, w.pc[p], w.net.status[p]) && LocalOk(s, w.pc[s], w.net.status[s]);
    assert CountOk(w, p) && CountOk(w, s);
    MatchedDealt(w);
    assert PairDealt(w, s, p) && PairDealt(w, p, s);
  }

  lemma CollectTasks(w: World, p: nat, s: nat, stuck: Pc)
    requires Tasks(w) && QueuesExact(w.net) && IsCollect(w, p, s, stuck)
    ensures Tasks(ReceiveMove(w, p, Task(s), stuck))
  {
    CollectHolds(w, p, s, stuck);
    CollectMoved(w, p, s, stuck);
    CollectSides(w, p, s, stuck);
    TasksAfter(w, ReceiveMove(w, p, Task(s), stuck), p, Collected(w, p, s, stuck), s, CollectedFrom(w, p, s));
  }

  /** q is whoever s finds in its queue, or anybody else when it finds nobody. */
  predicate IsListen(w: World, s: nat, q: nat)
    requires |w.pc| == |w.net.status| && QueuesInRange(w.net)
  {
    && s < |w.pc| && q < |w.pc| && q != s && w.pc[s].Listening? && w.net.status[s].Ready? && !w.net.pending[s]
    && (var f := FindNet(w.net, s, AnySource);
        f.Sender? ==> f.id == q && ServerOf(w.pc[q]) == Some(s) && f.msg.source == q
                      && w.net.status[q] == Sending(s, f.msg) && Wanted(s, f.msg.kind))
  }

  /** What becomes of a listening server, and of the task whose request it finds. */
  function Listened(w: World, s: nat): Side
    requires Shaped(w) && QueuesInRange(w.net) && s < |w.pc|
  {
    match FindNet(w.net, s, AnySource)
    case Sender(q, m) => Side(Serving(q, m.kind), Ready, w.asked[s], w.answered[s])
    case _ => Side(Listening, Receiving(AnySource), w.asked[s], w.answered[s])
  }

  function ListenedTo(w: World, s: nat, q: nat): Side
    requires Shaped(w) && QueuesInRange(w.net) && s < |w.pc| && q < |w.pc|
  {
    if FindNet(w.net, s, AnySource).Sender? then SideOf(w, q).(st := Ready) else SideOf(w, q)
  }

  lemma ListenMoved(w: World, s: nat, q: nat)
    requires Tasks(w) && QueuesExact(w.net) && IsListen(w, s, q)
    ensures Becomes(w, ReceiveMove(w, s, AnySource, Listening), s, Listened(w, s), q, ListenedTo(w, s, q))
  {
  }

  lemma ListenSides(w: World, s: nat, q: nat)
    requires Tasks(w) && QueuesExact(w.net) && IsListen(w, s, q)
    ensures var sa, sb := Listened(w, s), ListenedTo(w, s, q);
      && SideOk(s, sa) && SideOk(q, sb) && Agree(s, sa, q, sb)
      && Elsewhere(SideOf(w, s), sa, q) && Elsewhere(SideOf(w, q), sb, s)
  {
    assert LocalOk(s, w.pc[s], w.net.status[s]) && LocalOk(q, w.pc[q], w.net.status[q]);
    assert CountOk(w, s) && CountOk(w, q);
    MatchedDealt(w);
    assert PairDealt(w, s, q) && PairDealt(w, q, s);
  }

  lemma ListenTasks(w: World, s: nat, q: nat)
    requires Tasks(w) && QueuesExact(w.net) && IsListen(w, s, q)
    ensures Tasks(ReceiveMove(w, s, AnySource, Listening))
  {
    ListenMoved(w, s, q);
    ListenSides(w, s, q);
    TasksAfter(w, ReceiveMove(w, s, AnySource, Listening), s, Listened(w, s), q, ListenedTo(w, s, q));
  }

  /** Whom s finds: with its invariants, one who asks it. */
  function Heard(w: World, s: nat): nat
    requires Shaped(w) && QueuesInRange(w.net) && s < |w.pc|
  {
    var f := FindNet(w.net, s, AnySource);
    if f.Sender? then f.id else 0
  }

  lemma ListenFinds(w: World, s: nat)
    requires WorldInv(w) && s < |w.pc| && w.pc[s].Listening? && w.net.status[s].Ready?
    ensures IsListen(w, s, Heard(w, s))
  {
    assert LocalOk(s, w.pc[s], w.net.status[s]);
    FoundSender(w.net, s, AnySource);
    var f := FindNet(w.net, s, AnySource);
    if f.Sender? {
      WhoSends(w, f.id, s);
      assert LocalOk(f.id, w.pc[f.id], w.net.status[f.id]);
    }
  }

  ghost predicate OnlyOne(w: World, w': World, h: nat) {
    && Shaped(w) && Shaped(w') && |w.pc| == |w'.pc| && h < |w.pc|
    && (forall q :: 0 <= q < |w.pc| && q != h ==> w'.pc[q] == w.pc[q] && w'.net.status[q] == w.net.status[q])
  }

  /** Moves of one task alone keep its dealings with its client. */
  lemma OneTasks(w: World, w': World, h: nat)
    requires Tasks(w) && Shaped(w') && OnlyOne(w, w', h) && Disk(w')
    requires w'.asked == w.asked && w'.answered == w.answered
    requires LocalOk(h, w'.pc[h], w'.net.status[h])
    requires ClientOf(w'.pc[h]) == ClientOf(w.pc[h]) && ServerOf(w'.pc[h]) == ServerOf(w.pc[h])
    requires w'.net.status[h].Sending? == w.net.status[h].Sending?
    ensures Tasks(w')
  {
    forall q | 0 <= q < |w'.pc| ensures CountOk(w', q) {
      assert CountOk(w, q);
    }
    forall s | 0 <= s < |w'.pc| && ClientOf(w'.pc[s]).Some? ensures HeldOk(w', s, ClientOf(w'.pc[s]).value) {
      assert HeldOk(w, s, ClientOf(w.pc[s]).value);
    }
    forall p | 0 <= p < |w'.pc| && ServerOf(w'.pc[p]).Some? && !w'.net.status[p].Sending?
      ensures OutOk(w', p, ServerOf(w'.pc[p]).value)
    {
      assert OutOk(w, p, ServerOf(w.pc[p]).value);
    }
  }

  lemma ReadTicksTasks(w: World, value: int)
    requires WorldInv(w) && w.pc[SYSTEM_TASK].Serving?
    ensures Tasks(Apply(w, ReadTicks(value)))
  {
    assert LocalOk(SYSTEM_TASK, w.pc[SYSTEM_TASK], w.net.status[SYSTEM_TASK]);
    OneTasks(w, Apply(w, ReadTicks(value)), SYSTEM_TASK);
  }

  lemma BeginTasks(w: World, plan: seq<DiskStep>)
    requires WorldInv(w) && Enabled(w, Begin(plan))
    ensures Tasks(Apply(w, Begin(plan)))
  {
    assert LocalOk(HDD_TASK, w.pc[HDD_TASK], w.net.status[HDD_TASK]);
    OneTasks(w, Apply(w, Begin(plan)), HDD_TASK);
  }

  lemma CommandTasks(w: World)
    requires WorldInv(w) && Enabled(w, Command)
    ensures Tasks(Apply(w, Command))
  {
    assert LocalOk(HDD_TASK, w.pc[HDD_TASK], w.net.status[HDD_TASK]);
    OneTasks(w, Apply(w, Command), HDD_TASK);
  }

  lemma AwaitDeviceTasks(w: World)
    requires WorldInv(w) && w.pc[HDD_TASK].Commanded?
    ensures Tasks(ReceiveMove(w, HDD_TASK, Interrupt, AwaitingDevice(w.pc[HDD_TASK].client, w.pc[HDD_TASK].plan)))
  {
    assert LocalOk(HDD_TASK, w.pc[HDD_TASK], w.net.status[HDD_TASK]);
    FoundSender(w.net, HDD_TASK, Interrupt);
    OneTasks(w, ReceiveMove(w, HDD_TASK, Interrupt, AwaitingDevice(w.pc[HDD_TASK].client, w.pc[HDD_TASK].plan)), HDD_TASK);
  }

  lemma DeviceTasks(w: World)
    requires WorldInv(w) && w.armed
    ensures Tasks(Apply(w, DeviceRaises))
  {
    assert LocalOk(HDD_TASK, w.pc[HDD_TASK], w.net.status[HDD_TASK]);
    OneTasks(w, Apply(w, DeviceRaises), HDD_TASK);
  }

  lemma RequestKeeps(w: World, p: nat, s: nat, m: Msg, next: Pc)
    requires WorldInv(w) && IsRequest(w, p, s, m, next) && p != s && !Reaches(w.net, s, p)
    ensures WorldInv(RequestMove(w, p, s, m, next))
  {
    SendKeeps(w.net, p, s, m);
    RequestTasks(w, p, s, m, next);
    assert RequestMove(w, p, s, m, next).net == SendNet(w.net, p, s, m);
  }

  lemma AskKeeps(w: World, p: nat, s: nat, kind: int, body: Body)
    requires WorldInv(w) && Enabled(w, Ask(p, s, kind, body)) && Wanted(s, kind)
    ensures WorldInv(Apply(w, Ask(p, s, kind, body)))
  {
    AskIsSafe(w, p, s);
    assert p != s by { assert LocalOk(p, w.pc[p], w.net.status[p]); }
    RequestKeeps(w, p, s, Msg(p, kind, body), Asking(s));
  }

  lemma PollKeeps(w: World, body: Body)
    requires WorldInv(w) && Enabled(w, Poll(body))
    ensures WorldInv(Apply(w, Poll(body)))
  {
    PollIsSafe(w);
    RequestKeeps(w, HDD_TASK, SYSTEM_TASK, Msg(HDD_TASK, MSG_GET_TICKS, body),
                 PollAsking(w.pc[HDD_TASK].client, w.pc[HDD_TASK].kind, w.pc[HDD_TASK].plan[1..]));
  }

  lemma ReplyKeeps(w: World, s: nat, body: Body)
    requires WorldInv(w) && Enabled(w, Reply(s, body))
    ensures WorldInv(Apply(w, Reply(s, body)))
  {
    ReplyIsSafe(w, s);
    var m := ReplyMsg(s, w.pc[s], body);
    SendKeeps(w.net, s, w.pc[s].client, m);
    ReplyTasks(w, s, w.pc[s].client, m);
  }

  lemma ListenKeeps(w: World, s: nat)
    requires WorldInv(w) && Enabled(w, Listen(s))
    ensures WorldInv(Apply(w, Listen(s)))
  {
    ListenFinds(w, s);
    RecvKeeps(w.net, s, AnySource);
    ListenTasks(w, s, Heard(w, s));
  }

  lemma CollectKeeps(w: World, p: nat, s: nat, stuck: Pc)
    requires WorldInv(w) && IsCollect(w, p, s, stuck)
    ensures WorldInv(ReceiveMove(w, p, Task(s), stuck))
  {
    RecvKeeps(w.net, p, Task(s));
    CollectTasks(w, p, s, stuck);
  }

  /** Every move keeps the invariant, and the deadlock check never fires. */
  lemma MoveKeeps(w: World, move: Move)
    requires WorldInv(w) && Enabled(w, move) && Clean(move)
    ensures WorldInv(Apply(w, move)) && !DeadlockFires(w, move)
  {
    NoDeadlock(w, move);
    match move
    case Ask(p, s, kind, body) => AskKeeps(w, p, s, kind, body);
    case CollectReply(p) => CollectKeeps(w, p, w.pc[p].server, Awaiting(w.pc[p].server));
    case Listen(s) => ListenKeeps(w, s);
    case ReadTicks(value) => ReadTicksTasks(w, value);
    case Begin(plan) => BeginTasks(w, plan);
    case Reply(s, body) => ReplyKeeps(w, s, body);
    case Poll(body) => PollKeeps(w, body);
    case CollectPoll =>
      CollectKeeps(w, HDD_TASK, SYSTEM_TASK, PollAwaiting(w.pc[HDD_TASK].client, w.pc[HDD_TASK].kind, w.pc[HDD_TASK].plan));
    case Command => CommandTasks(w);
    case AwaitDevice =>
      RecvKeeps(w.net, HDD_TASK, Interrupt);
      AwaitDeviceTasks(w);
    case DeviceRaises =>
      RaiseKeeps(w.net, HDD_TASK);
      DeviceTasks(w);
  }

  // ---------------------------------------------------------------- runs

  lemma StartInv(n: nat)
    requires HDD_TASK < n
    ensures WorldInv(Start(n))
  {
    InitialInv(n);
    var w := Start(n);
    forall p | 0 <= p < |w.pc| ensures LocalOk(p, w.pc[p], w.net.status[p]) && CountOk(w, p) {}
  }

  ghost predicate CleanStep(w: World, move: Move, w': World) {
    OneMove(w, move, w') && Clean(move)
  }

  ghost predicate CleanMoves(moves: seq<Move>) {
    forall i :: 0 <= i < |moves| ==> Clean(moves[i])
  }

  lemma NextInv(w: World, move: Move, w': World)
    requires CleanStep(w, move, w') && WorldInv(w)
    ensures WorldInv(w')
  {
    MoveKeeps(w, move);
  }

  lemma RunInv(states: seq<World>, moves: seq<Move>, k: nat)
    requires Run(states, moves) && CleanMoves(moves) && k < |states|
    ensures WorldInv(states[k])
  {
    StartInv(|states[0].pc|);
    forall w, move, w' | CleanStep(w, move, w') && WorldInv(w) ensures WorldInv(w') {
      NextInv(w, move, w');
    }
    Along(CleanStep, WorldInv, states, moves, k);
  }

  /** In every run whose requests are wanted: the deadlock check never fires; no task reaches a CRITICAL
      branch; every task has as many answers as requests, or is waiting for exactly one; and a
      request that has left its sender is held by exactly the server it was made to. */
  lemma ClosedRun(states: seq<World>, moves: seq<Move>, k: nat, p: nat)
    requires Run(states, moves) && CleanMoves(moves) && k < |states| && p < |states[k].pc|
    ensures WorldInv(states[k])
    ensures states[k].pc[p] != Failed
    ensures states[k].asked[p] == states[k].answered[p] + (if ServerOf(states[k].pc[p]).Some? then 1 else 0)
    ensures ServerOf(states[k].pc[p]).Some? && !states[k].net.status[p].Sending? ==>
      var s := ServerOf(states[k].pc[p]).value;
      && s < |states[k].pc| && ClientOf(states[k].pc[s]) == Some(p)
      && (forall t :: 0 <= t < |states[k].pc| && ClientOf(states[k].pc[t]) == Some(p) ==> t == s)
    ensures k < |moves| ==> OneMove(states[k], moves[k], states[k + 1]) && !DeadlockFires(states[k], moves[k])
  {
    RunInv(states, moves, k);
    var w := states[k];
    assert LocalOk(p, w.pc[p], w.net.status[p]) && CountOk(w, p);
    forall t | 0 <= t < |w.pc| && ClientOf(w.pc[t]) == Some(p) ensures ServerOf(w.pc[p]) == Some(t) {
      assert HeldOk(w, t, p);
    }
    if ServerOf(w.pc[p]).Some? && !w.net.status[p].Sending? {
      assert OutOk(w, p, ServerOf(w.pc[p]).value);
    }
    if k < |moves| {
      assert OneMove(states[k], moves[k], states[k + 1]);
      NoDeadlock(w, moves[k]);
    }
  }
}
