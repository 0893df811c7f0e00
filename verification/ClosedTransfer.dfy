/** Which requests take a server to its CRITICAL branch: kinds its switch does not know, and READ
    and WRITE. For those the driver gives its command but never receives the interrupt
    (`hdd_interrupt_wait` is empty), so the interrupt is still pending when the task next listens,
    and an interrupt is a message its switch does not know either. */
module ClosedTransfer {
  import opened Rendezvous
  import opened ClosedSystem
  import opened ClosedInvariant
  import opened Runs

  predicate OnlyAsks(moves: seq<Move>, reqs: set<(nat, int)>) {
    forall i :: 0 <= i < |moves| && moves[i].Ask? ==> (moves[i].server, moves[i].kind) in reqs
  }

  /** Some task comes to its CRITICAL branch at the end of this run. */
  ghost predicate FailingRun(states: seq<World>, moves: seq<Move>, reqs: set<(nat, int)>) {
    && Run(states, moves) && OnlyAsks(moves, reqs)
    && exists p :: 0 <= p < |states[|moves|].pc| && states[|moves|].pc[p] == Failed
  }

  // ---------------------------------------------------------------- states of three tasks

  /** Task 0 is a client; tasks 1 and 2 are the servers. */
  function Three(status: seq<Status>, queue: seq<seq<nat>>, pending: bool, pc: seq<Pc>, armed: bool,
                 asked: seq<nat>, answered: seq<nat>): World {
    World(Net(status, [false, false, pending], queue), pc, armed, asked, answered)
  }

  const READY: seq<Status> := [Ready, Ready, Ready]
  const EMPTY: seq<seq<nat>> := [[], [], []]

  /** Two worlds of three tasks are the same when they are entry by entry. */
  lemma SameWorld(v: World, w: World)
    requires v.net.status == w.net.status && v.net.pending == w.net.pending && |v.net.queue| == |w.net.queue| == 3
    requires v.net.queue[0] == w.net.queue[0] && v.net.queue[1] == w.net.queue[1] && v.net.queue[2] == w.net.queue[2]
    requires v.pc == w.pc && v.armed == w.armed && v.asked == w.asked && v.answered == w.answered
    ensures v == w
  {
    assert v.net.queue == w.net.queue;
  }

  // ---------------------------------------------------------------- an unknown kind

  function UnknownMoves(s: nat, kind: int): seq<Move> {
    [Ask(0, s, kind, EMPTY_BODY), Listen(s)]
  }

  function Waiting(s: nat, kind: int): World {
    Three([Sending(s, Msg(0, kind, EMPTY_BODY)), Ready, Ready],
          if s == SYSTEM_TASK then [[], [0], []] else [[], [], [0]], false, [Asking(s), Listening, Listening], false,
          [1, 0, 0], [0, 0, 0])
  }

  function Confused(s: nat): World {
    Three(READY, EMPTY, false, if s == SYSTEM_TASK then [Asking(s), Failed, Listening] else [Asking(s), Listening, Failed],
          false, [1, 0, 0], [0, 0, 0])
  }

  lemma Asks(s: nat, kind: int)
    requires IsServer(s)
    ensures OneMove(Start(3), UnknownMoves(s, kind)[0], Waiting(s, kind))
  {
    SameWorld(Apply(Start(3), UnknownMoves(s, kind)[0]), Waiting(s, kind));
  }

  lemma HearsUnknown(s: nat, kind: int)
    requires IsServer(s) && !Known(s, kind)
    ensures OneMove(Waiting(s, kind), UnknownMoves(s, kind)[1], Confused(s))
  {
    SameWorld(Apply(Waiting(s, kind), UnknownMoves(s, kind)[1]), Confused(s));
  }

  lemma UnknownFails(s: nat, kind: int)
    requires IsServer(s) && !Known(s, kind)
    ensures FailingRun([Start(3), Waiting(s, kind), Confused(s)], UnknownMoves(s, kind), {(s, kind)})
  {
    Asks(s, kind);
    HearsUnknown(s, kind);
    assert Confused(s).pc[s] == Failed;
  }

  // ---------------------------------------------------------------- a transfer

  const PLAN: seq<DiskStep> := [AskTicks, AskTicks, GiveCommand]

  /** The disk task has taken the transfer; h calls of get_ticks are over. */
  function AtWork(kind: int, plan: seq<DiskStep>, h: nat, armed: bool, pending: bool): World {
    Three(READY, EMPTY, pending, [Asking(HDD_TASK), Listening, Working(0, kind, plan)], armed, [1, 0, h], [0, 0, h])
  }

  function TakenUp(kind: int): seq<World> {
    [ Start(3), Waiting(HDD_TASK, kind),
      Three(READY, EMPTY, false, [Asking(HDD_TASK), Listening, Serving(0, kind)], false, [1, 0, 0], [0, 0, 0]),
      AtWork(kind, PLAN, 0, false, false) ]
  }

  function TakingUp(kind: int): seq<Move> {
    [Ask(0, HDD_TASK, kind, EMPTY_BODY), Listen(HDD_TASK), Begin(PLAN)]
  }

  lemma TakesUp(kind: int) returns (states: seq<World>)
    requires Transfers(kind)
    ensures Path(OneMove, states, TakingUp(kind))
    ensures states[0] == Start(3) && states[3] == AtWork(kind, PLAN, 0, false, false)
  {
    states := TakenUp(kind);
    var w, m := TakenUp(kind), TakingUp(kind);
    Asks(HDD_TASK, kind);
    SameWorld(Apply(w[1], m[1]), w[2]);
    assert PLAN[2].GiveCommand? && PlanFor(kind, PLAN);
    SameWorld(Apply(w[2], m[2]), w[3]);
  }

  /** One call of get_ticks, from the disk task's step to its next. */
  function PollStates(kind: int, plan: seq<DiskStep>, h: nat): seq<World> {
    var req, rep := Msg(HDD_TASK, MSG_GET_TICKS, EMPTY_BODY), Msg(SYSTEM_TASK, MSG_GET_TICKS, EMPTY_BODY);
    var asking, poll := Asking(HDD_TASK), PollAsking(0, kind, plan);
    [ AtWork(kind, [AskTicks] + plan, h, false, false),
      Three([Ready, Ready, Sending(SYSTEM_TASK, req)], [[], [2], []], false, [asking, Listening, poll], false, [1, 0, h + 1], [0, 0, h]),
      Three(READY, EMPTY, false, [asking, Serving(HDD_TASK, MSG_GET_TICKS), poll], false, [1, 0, h + 1], [0, 0, h]),
      Three(READY, EMPTY, false, [asking, Answering(HDD_TASK, 0), poll], false, [1, 0, h + 1], [0, 0, h]),
      Three([Ready, Sending(HDD_TASK, rep), Ready], [[], [], [1]], false, [asking, Replying(HDD_TASK), poll], false, [1, 0, h + 1], [0, 0, h]),
      AtWork(kind, plan, h + 1, false, false) ]
  }

  const POLL_MOVES: seq<Move> :=
    [Poll(EMPTY_BODY), Listen(SYSTEM_TASK), ReadTicks(0), Reply(SYSTEM_TASK, EMPTY_BODY), CollectPoll]

  lemma PollIsSent(kind: int, plan: seq<DiskStep>, h: nat, i: nat)
    requires i < 2
    ensures OneMove(PollStates(kind, plan, h)[i], POLL_MOVES[i], PollStates(kind, plan, h)[i + 1])
  {
    assert ([AskTicks] + plan)[1..] == plan;
    SameWorld(Apply(PollStates(kind, plan, h)[i], POLL_MOVES[i]), PollStates(kind, plan, h)[i + 1]);
  }

  lemma PollIsAnswered(kind: int, plan: seq<DiskStep>, h: nat, i: nat)
    requires 2 <= i < 4
    ensures OneMove(PollStates(kind, plan, h)[i], POLL_MOVES[i], PollStates(kind, plan, h)[i + 1])
  {
    SameWorld(Apply(PollStates(kind, plan, h)[i], POLL_MOVES[i]), PollStates(kind, plan, h)[i + 1]);
  }

  lemma PollIsCollected(kind: int, plan: seq<DiskStep>, h: nat)
    ensures OneMove(PollStates(kind, plan, h)[4], POLL_MOVES[4], PollStates(kind, plan, h)[5])
  {
    SameWorld(Apply(PollStates(kind, plan, h)[4], POLL_MOVES[4]), PollStates(kind, plan, h)[5]);
  }

  lemma Polls(kind: int, plan: seq<DiskStep>, h: nat) returns (states: seq<World>)
    ensures Path(OneMove, states, POLL_MOVES)
    ensures states[0] == AtWork(kind, [AskTicks] + plan, h, false, false) && states[5] == AtWork(kind, plan, h + 1, false, false)
  {
    states := PollStates(kind, plan, h);
    forall i {:trigger POLL_MOVES[i]} | 0 <= i < |POLL_MOVES|
      ensures OneMove(PollStates(kind, plan, h)[i], POLL_MOVES[i], PollStates(kind, plan, h)[i + 1])
    {
      if i < 2 { PollIsSent(kind, plan, h, i); }
      else if i < 4 { PollIsAnswered(kind, plan, h, i); }
      else { PollIsCollected(kind, plan, h); }
    }
  }

  /** The command, its interrupt, the reply, and the next listen. */
  function LastStates(kind: int, h: nat): seq<World> {
    [ AtWork(kind, [GiveCommand], h, false, false),
      AtWork(kind, [], h, true, false),
      AtWork(kind, [], h, false, true),
      Three([Ready, Ready, Sending(0, Msg(HDD_TASK, kind, EMPTY_BODY))], [[2], [], []], true,
            [Asking(HDD_TASK), Listening, Replying(0)], false, [1, 0, h], [0, 0, h]),
      Three(READY, EMPTY, true, [Idle, Listening, Listening], false, [1, 0, h], [1, 0, h]),
      Three(READY, EMPTY, false, [Idle, Listening, Failed], false, [1, 0, h], [1, 0, h]) ]
  }

  const LAST_MOVES: seq<Move> :=
    [Command, DeviceRaises, Reply(HDD_TASK, EMPTY_BODY), CollectReply(0), Listen(HDD_TASK)]

  lemma Commands(kind: int, h: nat, i: nat)
    requires Transfers(kind) && i < 2
    ensures OneMove(LastStates(kind, h)[i], LAST_MOVES[i], LastStates(kind, h)[i + 1])
  {
    assert [GiveCommand][1..] == [];
    SameWorld(Apply(LastStates(kind, h)[i], LAST_MOVES[i]), LastStates(kind, h)[i + 1]);
  }

  lemma Answers(kind: int, h: nat, i: nat)
    requires Transfers(kind) && 2 <= i < 4
    ensures OneMove(LastStates(kind, h)[i], LAST_MOVES[i], LastStates(kind, h)[i + 1])
  {
    SameWorld(Apply(LastStates(kind, h)[i], LAST_MOVES[i]), LastStates(kind, h)[i + 1]);
  }

  lemma ListensAgain(kind: int, h: nat)
    requires Transfers(kind)
    ensures OneMove(LastStates(kind, h)[4], LAST_MOVES[4], LastStates(kind, h)[5])
  {
    SameWorld(Apply(LastStates(kind, h)[4], LAST_MOVES[4]), LastStates(kind, h)[5]);
  }

  lemma Ends(kind: int, h: nat) returns (states: seq<World>)
    requires Transfers(kind)
    ensures Path(OneMove, states, LAST_MOVES)
    ensures states[0] == AtWork(kind, [GiveCommand], h, false, false) && |states[5].pc| == 3 && states[5].pc[2] == Failed
  {
    states := LastStates(kind, h);
    forall i {:trigger LAST_MOVES[i]} | 0 <= i < |LAST_MOVES|
      ensures OneMove(LastStates(kind, h)[i], LAST_MOVES[i], LastStates(kind, h)[i + 1])
    {
      if i < 2 { Commands(kind, h, i); } else if i < 4 { Answers(kind, h, i); } else { ListensAgain(kind, h); }
    }
  }

  function TransferMoves(kind: int): seq<Move> {
    TakingUp(kind) + POLL_MOVES + POLL_MOVES + LAST_MOVES
  }

  lemma TransferPath(kind: int) returns (states: seq<World>)
    requires Transfers(kind)
    ensures Path(OneMove, states, TransferMoves(kind))
    ensures states[0] == Start(3) && |states[18].pc| == 3 && states[18].pc[2] == Failed
  {
    states := TakesUp(kind);
    var poll := Polls(kind, [AskTicks, GiveCommand], 0);
    assert [AskTicks] + [AskTicks, GiveCommand] == PLAN;
    states := Joined(OneMove, states, TakingUp(kind), poll, POLL_MOVES);
    poll := Polls(kind, [GiveCommand], 1);
    assert [AskTicks] + [GiveCommand] == [AskTicks, GiveCommand];
    states := Joined(OneMove, states, TakingUp(kind) + POLL_MOVES, poll, POLL_MOVES);
    var last := Ends(kind, 2);
    states := Joined(OneMove, states, TakingUp(kind) + POLL_MOVES + POLL_MOVES, last, LAST_MOVES);
  }

  /** One transfer is enough: the interrupt it leaves behind takes the disk task to CRITICAL. */
  lemma TransferFails(kind: int)
    requires Transfers(kind)
    ensures exists states :: FailingRun(states, TransferMoves(kind), {(HDD_TASK, kind)})
  {
    var states := TransferPath(kind);
    var moves := TransferMoves(kind);
    assert OnlyAsks(moves, {(HDD_TASK, kind)});
    assert Run(states, moves) by {
      assert forall i {:trigger moves[i]} :: 0 <= i < |moves| ==> OneMove(states[i], moves[i], states[i + 1]);
    }
    assert FailingRun(states, moves, {(HDD_TASK, kind)});
  }

  // ---------------------------------------------------------------- the exact condition

  /** The requests the tasks are made for. */
  predicate Harmless(server: nat, kind: int) {
    || (server == SYSTEM_TASK && kind == MSG_GET_TICKS)
    || (server == HDD_TASK && (kind == MSG_DEV_OPEN || kind == MSG_DEV_CLOSE || kind == MSG_DEV_IO_CONTROL))
  }

  /** Some task can come to its CRITICAL branch exactly when the requests that may be made include
      one to a server that is not harmless: a kind the server does not know, or a transfer. */
  lemma FailsOnlyByUnwanted(reqs: set<(nat, int)>)
    ensures (exists states, moves :: FailingRun(states, moves, reqs)) <==>
      exists s, kind :: (s, kind) in reqs && IsServer(s) && !Harmless(s, kind)
  {
    assert forall s: nat, kind: int :: IsServer(s) ==> (Harmless(s, kind) <==> Wanted(s, kind));
    if s, kind :| (s, kind) in reqs && IsServer(s) && !Wanted(s, kind) {
      if Known(s, kind) {
        TransferFails(kind);
        var states :| FailingRun(states, TransferMoves(kind), {(HDD_TASK, kind)});
        assert FailingRun(states, TransferMoves(kind), reqs);
      } else {
        UnknownFails(s, kind);
        assert FailingRun([Start(3), Waiting(s, kind), Confused(s)], UnknownMoves(s, kind), reqs);
      }
    } else {
      forall states: seq<World>, moves: seq<Move> ensures !FailingRun(states, moves, reqs) {
        if Run(states, moves) && OnlyAsks(moves, reqs) {
          AsksAreClean(states, moves, reqs);
          forall p: nat | p < |states[|moves|].pc| ensures states[|moves|].pc[p] != Failed {
            ClosedRun(states, moves, |moves|, p);
          }
        }
      }
    }
  }

  lemma AsksAreClean(states: seq<World>, moves: seq<Move>, reqs: set<(nat, int)>)
    requires Run(states, moves) && OnlyAsks(moves, reqs)
    requires forall s, kind :: (s, kind) in reqs && IsServer(s) ==> Wanted(s, kind)
    ensures CleanMoves(moves)
  {
    forall i | 0 <= i < |moves| ensures Clean(moves[i]) {
      assert OneMove(states[i], moves[i], states[i + 1]);
    }
  }
}
